/**
 * How a signed-in user and a profile owner are shown: the user menu's display
 * name and initials, and the profile sidebar's initials badge, avatar choice
 * and statistics.
 */
module Identity {
  import opened Wrappers
  import opened Text

  // ---------------------------------------------------------------- user menu

  datatype MenuUser = MenuUser(email: string, firstName: string, lastName: string, avatarUrl: Option<string>)

  /** `user.first_name && user.last_name`: both names are non-empty strings. */
  predicate NamesPresent(u: MenuUser) {
    u.firstName != "" && u.lastName != ""
  }

  /** The name shown in the menu header and as the avatar's alternative text. */
  function DisplayName(u: MenuUser): (r: string)
    ensures NamesPresent(u) ==> r == u.firstName + " " + u.lastName
    ensures !NamesPresent(u) ==> IsPrefix(r, u.email) && '@' !in r
    ensures !NamesPresent(u) && '@' in u.email ==> u.email[|r|] == '@'
    ensures !NamesPresent(u) && '@' !in u.email ==> r == u.email
  {
    if NamesPresent(u) then u.firstName + " " + u.lastName else EmailPrefix(u.email)
  }

  /**
   * The avatar badge's text. Without both names it reads `user.email[0]`, which
   * is undefined for an empty e-mail and makes `toUpperCase` throw: that case
   * has no initials.
   */
  function MenuInitials(u: MenuUser): (r: Option<string>)
    ensures NamesPresent(u) ==> r == Some([u.firstName[0], u.lastName[0]])
    ensures !NamesPresent(u) && u.email != "" ==> r == Some([UpperChar(u.email[0])])
    ensures r.None? <==> !NamesPresent(u) && u.email == ""
  {
    if NamesPresent(u) then Some([u.firstName[0], u.lastName[0]])
    else if u.email == "" then None
    else Some([UpperChar(u.email[0])])
  }

  /**
   * Display name and initials test the same condition, so they come from the
   * same source: the initials are the first letters of the display name's two
   * words, or the upper-cased first letter of the e-mail the name is cut from.
   */
  lemma {:induction false} InitialsFollowDisplayName(u: MenuUser)
    requires MenuInitials(u).Some?
    ensures NamesPresent(u) ==>
              var d := DisplayName(u);
              MenuInitials(u).value == [d[0], d[|u.firstName| + 1]]
    ensures !NamesPresent(u) && DisplayName(u) != "" ==>
              MenuInitials(u).value == [UpperChar(DisplayName(u)[0])]
    ensures !NamesPresent(u) && DisplayName(u) == "" ==> MenuInitials(u).value == ['@']
  {
    if !NamesPresent(u) && DisplayName(u) == "" {
      assert u.email[0] == '@';
    }
  }

  /** The menu button shows the avatar image when there is a non-empty URL, the initials otherwise. */
  function MenuShowsInitials(u: MenuUser): (r: bool)
    ensures r <==> u.avatarUrl.GetOr("") == ""
  {
    match u.avatarUrl
    case Some(url) => url == ""
    case None => true
  }

  // ---------------------------------------------------------------- profile sidebar

  /** `.map(n => n[0]).join("")`: an empty piece's `n[0]` is undefined and joins as nothing. */
  function Heads(pieces: seq<string>): (r: string)
    ensures |r| <= |pieces|
    ensures forall k :: 0 <= k < |r| ==> exists i :: 0 <= i < |pieces| && pieces[i] != "" && r[k] == pieces[i][0]
    decreases |pieces|
  {
    if pieces == [] then ""
    else
      var rest := Heads(pieces[1..]);
      var r := (if pieces[0] == "" then "" else [pieces[0][0]]) + rest;
      assert forall k :: 0 <= k < |r| && k >= |r| - |rest| ==> r[k] == rest[k - (|r| - |rest|)];
      r
  }

  /** The heads of two lists of pieces, one after the other, are the heads of their concatenation. */
  lemma {:induction false} HeadsAppend(xs: seq<string>, ys: seq<string>)
    ensures Heads(xs + ys) == Heads(xs) + Heads(ys)
    decreases |xs|
  {
    if xs != [] {
      assert (xs + ys)[0] == xs[0] && (xs + ys)[1..] == xs[1..] + ys;
      HeadsAppend(xs[1..], ys);
      var h := if xs[0] == "" then "" else [xs[0][0]];
      assert Heads(xs + ys) == h + Heads(xs[1..] + ys);
      assert Heads(xs) == h + Heads(xs[1..]);
      assert h + (Heads(xs[1..]) + Heads(ys)) == (h + Heads(xs[1..])) + Heads(ys);
    } else {
      assert xs + ys == ys;
    }
  }

  /** An empty piece (from a leading, trailing or doubled space) contributes nothing. */
  lemma {:induction false} EmptyPieceContributesNothing(xs: seq<string>, ys: seq<string>)
    ensures Heads(xs + [""] + ys) == Heads(xs + ys)
  {
    HeadsAppend(xs + [""], ys);
    HeadsAppend(xs, [""]);
    HeadsAppend(xs, ys);
  }

  /** Every non-empty piece contributes exactly its first character. */
  lemma {:induction false} HeadsOfWords(pieces: seq<string>)
    requires forall i :: 0 <= i < |pieces| ==> pieces[i] != ""
    ensures |Heads(pieces)| == |pieces|
    ensures forall i :: 0 <= i < |pieces| ==> Heads(pieces)[i] == pieces[i][0]
    decreases |pieces|
  {
    if pieces != [] {
      HeadsOfWords(pieces[1..]);
    }
  }

  /** The sidebar's initials: the first character of each space-separated piece of the name. */
  function SidebarInitials(name: string): (r: string)
    ensures |r| <= |Split(name, ' ')|
  {
    Heads(Split(name, ' '))
  }

  /** A one-word name yields its first character. */
  lemma {:induction false} SingleWordInitial(name: string)
    requires name != "" && ' ' !in name
    ensures SidebarInitials(name) == [name[0]]
  {
    SplitNoSep(name, ' ');
  }

  /** Two words separated by one space yield their two first characters. */
  lemma {:induction false} TwoWordInitials(first: string, last: string)
    requires first != "" && last != "" && ' ' !in first && ' ' !in last
    ensures SidebarInitials(first + " " + last) == [first[0], last[0]]
  {
    assert first + " " + last == first + [' '] + last;
    SplitAround(first, last, ' ');
    SplitNoSep(first, ' ');
    SplitNoSep(last, ' ');
    HeadsOfWords([first, last]);
  }

  datatype Stats = Stats(conversations: nat, questionsAnswered: nat)

  /** The `stats` default parameter. */
  function SidebarStats(given: Option<Stats>): (r: Stats)
    ensures given.None? ==> r.conversations == 0 && r.questionsAnswered == 0
    ensures given.Some? ==> r == given.value
  {
    given.GetOr(Stats(0, 0))
  }

  /** The sidebar's round badge: the avatar image when one is given, the initials otherwise. */
  datatype Badge = AvatarImage(src: string) | InitialsBadge(text: string)

  function SidebarBadge(name: string, avatar: Option<string>): (r: Badge)
    ensures r.InitialsBadge? <==> avatar.GetOr("") == ""
    ensures r.InitialsBadge? ==> r.text == SidebarInitials(name)
    ensures r.AvatarImage? ==> avatar == Some(r.src)
  {
    match avatar
    case Some(src) => if src == "" then InitialsBadge(SidebarInitials(name)) else AvatarImage(src)
    case None => InitialsBadge(SidebarInitials(name))
  }
}
