/**
 * The profile edit page: the session check that guards it, the profile record
 * it edits, and the dispatch that routes a co-pilot edit to exactly one field
 * by the first keyword its lower-cased field name contains.
 */
module ProfileEdit {
  import opened Wrappers
  import opened Text
  import CoPilot

  datatype SocialLinks = SocialLinks(linkedin: string, github: string, twitter: string)

  datatype ProfileData = ProfileData(
    name: string, tagline: string, bio: string, location: string,
    email: string, website: string, socialLinks: SocialLinks)

  /** The record the page starts from. */
  const InitialProfile: ProfileData := ProfileData(
    "MightyTMZ",
    "Full-Stack Developer & AI Enthusiast",
    "Passionate developer building AI-powered products. Love creating innovative solutions and pushing the boundaries of what's possible with technology.",
    "San Francisco, CA",
    "mighty@example.com",
    "https://mighty.dev",
    SocialLinks("https://linkedin.com/in/mightytmz", "https://github.com/mightytmz", "https://twitter.com/mightytmz"))

  /** The nine editable text fields, three of them inside `socialLinks`. */
  datatype Field = Name | Tagline | Bio | Location | Email | Website | LinkedIn | GitHub | Twitter

  function Get(p: ProfileData, f: Field): string {
    match f
    case Name => p.name
    case Tagline => p.tagline
    case Bio => p.bio
    case Location => p.location
    case Email => p.email
    case Website => p.website
    case LinkedIn => p.socialLinks.linkedin
    case GitHub => p.socialLinks.github
    case Twitter => p.socialLinks.twitter
  }

  /** The spread update of one field: `{...prev, f: v}`, or the same one level down for a link. */
  function Set(p: ProfileData, f: Field, v: string): (r: ProfileData)
    ensures Get(r, f) == v
    ensures forall g :: g != f ==> Get(r, g) == Get(p, g)
  {
    match f
    case Name => p.(name := v)
    case Tagline => p.(tagline := v)
    case Bio => p.(bio := v)
    case Location => p.(location := v)
    case Email => p.(email := v)
    case Website => p.(website := v)
    case LinkedIn => p.(socialLinks := p.socialLinks.(linkedin := v))
    case GitHub => p.(socialLinks := p.socialLinks.(github := v))
    case Twitter => p.(socialLinks := p.socialLinks.(twitter := v))
  }

  /** Two profiles that agree on every field are the same profile: the nine fields are all there is. */
  lemma {:induction false} FieldsDetermine(p: ProfileData, q: ProfileData)
    requires forall f :: Get(p, f) == Get(q, f)
    ensures p == q
  {
    assert Get(p, Name) == Get(q, Name) && Get(p, Tagline) == Get(q, Tagline) && Get(p, Bio) == Get(q, Bio);
    assert Get(p, Location) == Get(q, Location) && Get(p, Email) == Get(q, Email) && Get(p, Website) == Get(q, Website);
    assert Get(p, LinkedIn) == Get(q, LinkedIn) && Get(p, GitHub) == Get(q, GitHub) && Get(p, Twitter) == Get(q, Twitter);
  }

  /** Setting a field to the value it has changes nothing. */
  lemma {:induction false} SetSame(p: ProfileData, f: Field)
    ensures Set(p, f, Get(p, f)) == p
  {
    FieldsDetermine(Set(p, f, Get(p, f)), p);
  }

  /** The keywords `handleApplyEdit` tests, in order, and the field each one selects. */
  const Keywords: seq<string> := ["name", "tagline", "bio", "location", "email", "website", "linkedin", "github", "twitter"]
  const Targets: seq<Field> := [Name, Tagline, Bio, Location, Email, Website, LinkedIn, GitHub, Twitter]

  /** The first keyword from `k` on that the lower-cased field name contains. */
  function FirstKeywordFrom(lf: string, k: nat): (r: Option<nat>)
    requires k <= |Keywords|
    ensures r.Some? ==> k <= r.value < |Keywords| && Contains(lf, Keywords[r.value])
    ensures r.Some? ==> forall j :: k <= j < r.value ==> !Contains(lf, Keywords[j])
    ensures r.None? <==> forall j :: k <= j < |Keywords| ==> !Contains(lf, Keywords[j])
    decreases |Keywords| - k
  {
    if k == |Keywords| then None
    else if Contains(lf, Keywords[k]) then Some(k)
    else FirstKeywordFrom(lf, k + 1)
  }

  /** The profile field an edit's field name routes to, if any. */
  function Target(field: string): (r: Option<Field>)
    ensures r.None? <==> forall j :: 0 <= j < |Keywords| ==> !Contains(Lower(field), Keywords[j])
    ensures r.Some? ==> exists k :: 0 <= k < |Keywords| && r.value == Targets[k]
                                    && Contains(Lower(field), Keywords[k])
                                    && forall j :: 0 <= j < k ==> !Contains(Lower(field), Keywords[j])
  {
    match FirstKeywordFrom(Lower(field), 0)
    case Some(k) => Some(Targets[k])
    case None => None
  }

  /** `handleApplyEdit`: the edit's value goes into the routed field, and nowhere else. */
  function ApplyEdit(p: ProfileData, edit: CoPilot.Edit): (r: ProfileData)
    ensures Target(edit.field).None? ==> r == p
    ensures Target(edit.field).Some? ==> Get(r, Target(edit.field).value) == edit.value
    ensures forall g :: Target(edit.field) != Some(g) ==> Get(r, g) == Get(p, g)
  {
    match Target(edit.field)
    case Some(f) => Set(p, f, edit.value)
    case None => p
  }

  /** At most one field differs after an edit. */
  lemma {:induction false} ApplyEditChangesAtMostOne(p: ProfileData, edit: CoPilot.Edit, f: Field, g: Field)
    requires Get(ApplyEdit(p, edit), f) != Get(p, f) && Get(ApplyEdit(p, edit), g) != Get(p, g)
    ensures f == g
  {
  }

  /** A link edit replaces one key of `socialLinks` and keeps the other two. */
  lemma {:induction false} LinkEditKeepsOtherLinks(p: ProfileData, edit: CoPilot.Edit)
    requires Target(edit.field) == Some(GitHub)
    ensures var r := ApplyEdit(p, edit);
            r.socialLinks == p.socialLinks.(github := edit.value)
            && r.(socialLinks := p.socialLinks) == p
  {
  }

  /** "name" is tested first: any field name containing it edits the name, e.g. "username". */
  lemma {:induction false} NameWins(field: string)
    requires Contains(Lower(field), "name")
    ensures Target(field) == Some(Name)
  {
  }

  lemma {:induction false} UsernameEditsName()
    ensures Target("username") == Some(Name)
  {
    LowerUsername();
    assert IsPrefix("name", "username"[4..]);
  }

  lemma {:induction false} LowerUsername()
    ensures Lower("username") == "username"
  {
  }

  /** "github name" names the GitHub link but edits the display name. */
  lemma {:induction false} GithubNameEditsName()
    ensures Target("github name") == Some(Name)
  {
    LowerGithubName();
    assert IsPrefix("name", "github name"[7..]);
  }

  lemma {:induction false} LowerGithubName()
    ensures Lower("github name") == "github name"
  {
  }

  /** The co-pilot's location reply, applied, sets the location to "San Francisco, CA". */
  lemma {:induction false} CoPilotLocationEdit(p: ProfileData)
    ensures ApplyEdit(p, CoPilot.ParseApply(CoPilot.Reply(3))) == p.(location := "San Francisco, CA")
  {
    CoPilot.LocationReplyField();
    CoPilot.LocationReplyValue();
    ApplyLocationEdit(p, CoPilot.ParseApply(CoPilot.Reply(3)));
  }

  /** An edit of the field "location to" sets the location to its value and nothing else. */
  lemma {:induction false} ApplyLocationEdit(p: ProfileData, edit: CoPilot.Edit)
    requires edit.field == "location to"
    ensures ApplyEdit(p, edit) == p.(location := edit.value)
  {
    LocationToRoutes();
    FieldsDetermine(ApplyEdit(p, edit), p.(location := edit.value));
  }

  lemma {:induction false} LocationToRoutes()
    ensures Target("location to") == Some(Location)
  {
    LowerLocationTo();
    var l := "location to";
    NotContainsMissingChar(l, Keywords[0], 2);
    NotContainsMissingChar(l, Keywords[1], 2);
    NotContainsMissingChar(l, Keywords[2], 0);
    assert IsPrefix(Keywords[3], l[0..]);
  }

  lemma {:induction false} LowerLocationTo()
    ensures Lower("location to") == "location to"
  {
  }

  /** `sessionStorage.getItem`: a stored string or nothing. */
  type Storage = map<string, string>

  function Lookup(s: Storage, key: string): Option<string> {
    if key in s then Some(s[key]) else None
  }

  /** The page's session check: the flag is exactly "true" and the username exactly "MightyTMZ". */
  predicate SessionValid(s: Storage) {
    Lookup(s, "isAuthenticated") == Some("true") && Lookup(s, "username") == Some("MightyTMZ")
  }

  class EditPage {
    var isAuthenticated: bool
    var isLoading: bool
    var isCoPilotOpen: bool
    var profile: ProfileData
    /** Where the page has sent the browser, if anywhere. */
    var redirect: Option<string>

    constructor ()
      ensures !isAuthenticated && isLoading && !isCoPilotOpen && profile == InitialProfile && redirect == None
    {
      isAuthenticated := false;
      isLoading := true;
      isCoPilotOpen := false;
      profile := InitialProfile;
      redirect := None;
    }

    /** The mount effect: a valid session shows the page, anything else redirects to the login page. */
    method CheckSession(session: Storage)
      modifies this
      ensures SessionValid(session) ==>
                isAuthenticated && !isLoading && redirect == old(redirect)
      ensures !SessionValid(session) ==>
                isAuthenticated == old(isAuthenticated) && isLoading == old(isLoading) && redirect == Some("/login")
      ensures profile == old(profile) && isCoPilotOpen == old(isCoPilotOpen)
    {
      var auth := Lookup(session, "isAuthenticated");
      var username := Lookup(session, "username");
      if auth == Some("true") && username == Some("MightyTMZ") {
        isAuthenticated := true;
        isLoading := false;
      } else {
        redirect := Some("/login");
      }
    }

    /** The co-pilot's `onApplyEdit` callback. */
    method HandleApplyEdit(edit: CoPilot.Edit)
      modifies this
      ensures profile == ApplyEdit(old(profile), edit)
      ensures isAuthenticated == old(isAuthenticated) && isLoading == old(isLoading)
      ensures redirect == old(redirect) && isCoPilotOpen == old(isCoPilotOpen)
    {
      profile := ApplyEdit(profile, edit);
    }

    /** One of the form's inputs: its `onChange` writes that one field. */
    method EditField(f: Field, v: string)
      modifies this
      ensures profile == Set(old(profile), f, v)
      ensures isAuthenticated == old(isAuthenticated) && isLoading == old(isLoading)
      ensures redirect == old(redirect) && isCoPilotOpen == old(isCoPilotOpen)
    {
      profile := Set(profile, f, v);
    }

    method ToggleCoPilot()
      modifies this
      ensures isCoPilotOpen == !old(isCoPilotOpen) && profile == old(profile)
      ensures isAuthenticated == old(isAuthenticated) && isLoading == old(isLoading) && redirect == old(redirect)
    {
      isCoPilotOpen := !isCoPilotOpen;
    }
  }
}
