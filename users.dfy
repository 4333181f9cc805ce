/**
 * Google sign-in on the Django side: the username generated for a new account,
 * the merge of fresh identity claims into an existing account, and the
 * `has_profile` / `profile_username` pair of the responses. The ORM is a map of
 * users keyed by e-mail (the unique login field) and a map from e-mail to the
 * OrbitView profile's username.
 */
module Users {
  import opened Wrappers
  import opened Text

  // ---------------------------------------------------------------- usernames

  predicate IsSlugChar(c: char) {
    'a' <= c <= 'z' || '0' <= c <= '9'
  }

  predicate IsSlug(s: string) {
    forall i :: 0 <= i < |s| ==> IsSlugChar(s[i])
  }

  /**
   * What survives of one character's Python lower-case form once everything
   * outside a–z and 0–9 is dropped. Besides ASCII, only two characters lower to
   * something in that range: the Kelvin sign (to `k`) and the capital I with dot
   * above (to `i` followed by a combining dot, which is dropped).
   */
  function SlugOf(c: char): (r: string)
    ensures |r| <= 1 && (r != [] ==> IsSlugChar(r[0]))
    ensures IsSlugChar(c) ==> r == [c]
  {
    if c == '\U{212A}' then "k"
    else if c == '\U{0130}' then "i"
    else if IsSlugChar(LowerChar(c)) then [LowerChar(c)]
    else []
  }

  /** `re.sub(r'[^a-z0-9]+', '', s.lower())`: lower-case, then keep only a–z and 0–9. */
  function Slug(s: string): (r: string)
    ensures IsSlug(r) && |r| <= |s|
    decreases |s|
  {
    if s == [] then [] else SlugOf(s[0]) + Slug(s[1..])
  }

  /** Slugging is idempotent: a slug is its own slug. */
  lemma {:induction false} SlugOfSlug(s: string)
    requires IsSlug(s)
    ensures Slug(s) == s
    decreases |s|
  {
    if s != [] {
      SlugOfSlug(s[1..]);
      assert s == [s[0]] + s[1..];
    }
  }

  /** `f"{base}{counter}"`. */
  function Candidate(base: string, n: nat): string {
    base + NatToString(n)
  }

  /** A candidate is the base followed by at least one decimal digit, and only digits. */
  lemma {:induction false} CandidateShape(base: string, n: nat)
    ensures |Candidate(base, n)| > |base| && IsPrefix(base, Candidate(base, n))
    ensures forall i :: |base| <= i < |Candidate(base, n)| ==> '0' <= Candidate(base, n)[i] <= '9'
  {
    assert Candidate(base, n)[|base|..] == NatToString(n);
  }

  lemma {:induction false} CandidateInjective(base: string, a: nat, b: nat)
    requires Candidate(base, a) == Candidate(base, b)
    ensures a == b
  {
    assert NatToString(a) == Candidate(base, a)[|base|..];
    assert NatToString(b) == Candidate(base, b)[|base|..];
    NatToStringInjective(a, b);
  }

  /** The numbered candidates `base1` … `base{n}`. */
  ghost function Candidates(base: string, n: nat): set<string>
    decreases n
  {
    if n == 0 then {} else Candidates(base, n - 1) + {Candidate(base, n)}
  }

  lemma {:induction false} CandidatesMembers(base: string, n: nat, t: string)
    ensures t in Candidates(base, n) <==> exists m :: 1 <= m <= n && t == Candidate(base, m)
    decreases n
  {
    if n > 0 {
      CandidatesMembers(base, n - 1, t);
    }
  }

  lemma {:induction false} CandidatesSize(base: string, n: nat)
    ensures |Candidates(base, n)| == n
    decreases n
  {
    if n > 0 {
      CandidatesSize(base, n - 1);
      if Candidate(base, n) in Candidates(base, n - 1) {
        CandidatesMembers(base, n - 1, Candidate(base, n));
        var m :| 1 <= m <= n - 1 && Candidate(base, n) == Candidate(base, m);
        CandidateInjective(base, n, m);
      }
    }
  }

  /** When the first `n` candidates are all taken there are at least `n` taken names. */
  lemma {:induction false} CandidatesBound(base: string, n: nat, taken: set<string>)
    requires Candidates(base, n) <= taken
    ensures n <= |taken|
  {
    CandidatesSize(base, n);
    SubsetSize(Candidates(base, n), taken);
  }

  lemma {:induction false} SubsetSize<T>(a: set<T>, b: set<T>)
    requires a <= b
    ensures |a| <= |b|
  {
    assert b == a + (b - a);
  }

  /** The first free numbered candidate from `n` on, given that those before `n` are all taken. */
  ghost function FreeFrom(base: string, taken: set<string>, n: nat): (r: string)
    requires n >= 1 && Candidates(base, n - 1) <= taken
    ensures r !in taken
    ensures exists k :: k >= n && r == Candidate(base, k) && Candidates(base, k - 1) <= taken
    decreases |taken| + 1 - n
  {
    CandidatesBound(base, n - 1, taken);
    if Candidate(base, n) !in taken then Candidate(base, n)
    else
      CandidatesBound(base, n, taken);
      FreeFrom(base, taken, n + 1)
  }

  /** The name the uniqueness loop settles on: the base if free, else the least free numbered one. */
  ghost function FirstFreeName(base: string, taken: set<string>): (r: string)
    ensures r !in taken
    ensures base !in taken ==> r == base
    ensures base in taken ==> exists k :: k >= 1 && r == Candidate(base, k)
                                           && forall m :: 1 <= m < k ==> Candidate(base, m) in taken
  {
    if base !in taken then base
    else
      var r := FreeFrom(base, taken, 1);
      var k :| k >= 1 && r == Candidate(base, k) && Candidates(base, k - 1) <= taken;
      forall m | 1 <= m < k ensures Candidate(base, m) in taken {
        CandidatesMembers(base, k - 1, Candidate(base, m));
      }
      r
  }

  /** The uniqueness loop of `_generate_username`: try the base, then base1, base2, … */
  method FirstFree(base: string, taken: set<string>) returns (username: string)
    ensures username == FirstFreeName(base, taken)
  {
    username := base;
    var counter := 1;
    while username in taken
      invariant counter >= 1
      invariant username == if counter == 1 then base else Candidate(base, counter - 1)
      invariant counter > 1 ==> base in taken
      invariant Candidates(base, if counter == 1 then 0 else counter - 2) <= taken
      invariant counter > 1 ==> FirstFreeName(base, taken) == FreeFrom(base, taken, counter - 1)
      decreases |taken| + 1 - counter
    {
      CandidatesBound(base, counter - 1, taken);
      username := Candidate(base, counter);
      counter := counter + 1;
    }
  }

  /** The slug a new account's username is built from: the name's, else the e-mail prefix's. */
  function UsernameBase(email: string, name: string): (r: string)
    ensures IsSlug(r)
    ensures name != "" && Slug(name) != "" ==> r == Slug(name)
    ensures Slug(name) == "" ==> r == Slug(EmailPrefix(email))
  {
    if name != "" && Slug(name) != "" then Slug(name) else Slug(EmailPrefix(email))
  }

  /** `_generate_username`. */
  method GenerateUsername(email: string, name: string, taken: set<string>) returns (username: string)
    ensures username == FirstFreeName(UsernameBase(email, name), taken)
  {
    if name != "" {
      var base := Slug(name);
      if base != "" {
        username := FirstFree(base, taken);
        return;
      }
    }
    var base := Slug(EmailPrefix(email));
    username := FirstFree(base, taken);
  }

  /** A generated username is fresh and made of a–z and 0–9 only. */
  lemma {:induction false} GeneratedUsernameFresh(email: string, name: string, taken: set<string>)
    ensures FirstFreeName(UsernameBase(email, name), taken) !in taken
    ensures IsSlug(FirstFreeName(UsernameBase(email, name), taken))
  {
    var base := UsernameBase(email, name);
    var r := FirstFreeName(base, taken);
    if base in taken {
      var k :| k >= 1 && r == Candidate(base, k);
      assert forall i :: 0 <= i < |NatToString(k)| ==> IsSlugChar(NatToString(k)[i]);
    }
  }

  /** With neither a usable name nor a usable e-mail prefix the username is "" or a bare number. */
  lemma {:induction false} EmptyBaseGivesNumber(email: string, name: string, taken: set<string>)
    requires Slug(name) == "" && Slug(EmailPrefix(email)) == ""
    ensures var r := FirstFreeName(UsernameBase(email, name), taken);
            r == "" || exists k :: k >= 1 && r == NatToString(k)
  {
    var r := FirstFreeName("", taken);
    if "" in taken {
      var k :| k >= 1 && r == Candidate("", k);
      assert Candidate("", k) == NatToString(k);
    }
  }

  // ---------------------------------------------------------------- accounts

  datatype User = User(
    email: string, username: string, firstName: string, lastName: string,
    avatarUrl: string, emailVerified: bool, isActive: bool)

  /** The verified token's claims; `sub` and `email` are read with `[]`, the rest with defaults. */
  datatype Claims = Claims(
    sub: Option<string>, email: Option<string>, emailVerified: bool,
    givenName: string, familyName: string, picture: string, name: Option<string>)

  /**
   * The display name fed to the username generator: the `name` claim, else
   * first and last name joined by a space (the source also strips it, which
   * cannot change the slug: white space never survives slugging).
   */
  function ClaimedName(c: Claims): string {
    c.name.GetOr(c.givenName + " " + c.familyName)
  }

  /** The account created for a first sign-in. */
  function NewUser(email: string, c: Claims, username: string): (r: User)
    ensures r.email == email && r.username == username && r.isActive
    ensures Merge(r, c) == r  // signing in again with the same claims keeps the new account as it is
  {
    User(email, username, c.givenName, c.familyName, c.picture, c.emailVerified, true)
  }

  /** The update of an existing account: a non-empty new value wins; verification is only ever raised. */
  function Merge(u: User, c: Claims): (r: User)
    ensures r.email == u.email && r.username == u.username && r.isActive == u.isActive
    ensures r.firstName == (if c.givenName != "" then c.givenName else u.firstName)
    ensures r.lastName == (if c.familyName != "" then c.familyName else u.lastName)
    ensures r.avatarUrl == (if c.picture != "" then c.picture else u.avatarUrl)
    ensures r.emailVerified == (u.emailVerified || c.emailVerified)
  {
    u.(firstName := if c.givenName != "" then c.givenName else u.firstName,
       lastName := if c.familyName != "" then c.familyName else u.lastName,
       avatarUrl := if c.picture != "" then c.picture else u.avatarUrl,
       emailVerified := u.emailVerified || c.emailVerified)
  }

  /** Signing in again with the same claims changes nothing more. */
  lemma {:induction false} MergeIdempotent(u: User, c: Claims)
    ensures Merge(Merge(u, c), c) == Merge(u, c)
  {
  }

  /** A verified e-mail stays verified, and an empty claim never erases a stored value. */
  lemma {:induction false} MergeNeverLoses(u: User, c: Claims)
    ensures u.emailVerified ==> Merge(u, c).emailVerified
    ensures u.firstName != "" ==> Merge(u, c).firstName != ""
    ensures u.lastName != "" ==> Merge(u, c).lastName != ""
    ensures u.avatarUrl != "" ==> Merge(u, c).avatarUrl != ""
  {
  }

  /** The `user` object of the responses. */
  datatype UserView = UserView(
    email: string, firstName: string, lastName: string, avatarUrl: string, emailVerified: bool)

  function View(u: User): UserView {
    UserView(u.email, u.firstName, u.lastName, u.avatarUrl, u.emailVerified)
  }

  datatype ProfileStatus = ProfileStatus(hasProfile: bool, profileUsername: Option<string>)

  /** The `try: user.orbitview_profile` block: the profile's username, or no profile. */
  function ProfileOf(profile: Option<string>): (r: ProfileStatus)
    ensures r.hasProfile <==> r.profileUsername.Some?
    ensures r.profileUsername == profile
  {
    match profile
    case Some(username) => ProfileStatus(true, Some(username))
    case None => ProfileStatus(false, None)
  }

  datatype CurrentUser = CurrentUser(user: UserView, status: ProfileStatus)

  /** `current_user_view`. */
  function CurrentUserView(u: User, profile: Option<string>): (r: CurrentUser)
    ensures r.user == View(u)
    ensures r.status.hasProfile <==> profile.Some?
    ensures r.status.hasProfile <==> r.status.profileUsername.Some?
  {
    CurrentUser(View(u), ProfileOf(profile))
  }

  /** What `id_token.verify_oauth2_token` does with a token: claims, a ValueError, or another error. */
  datatype Verification = Verified(claims: Claims) | InvalidToken(reason: string) | VerifyFailed(reason: string)

  datatype AuthResponse =
    | AuthError(code: int, error: string)
    | AuthOk(user: UserView, created: bool, profile: ProfileStatus)

  const TokenRequired: string := "Google ID token is required"
  const ClientIdMissing: string := "Google OAuth client ID is not configured"

  /** The usernames of all accounts: what the uniqueness loop looks up. */
  ghost function Usernames(users: map<string, User>): set<string> {
    set e | e in users :: users[e].username
  }

  class UserStore {
    /** Accounts keyed by e-mail. */
    var users: map<string, User>
    /** E-mail to the username of that account's OrbitView profile, for accounts that have one. */
    var profiles: map<string, string>

    ghost predicate Valid()
      reads this
    {
      (forall e :: e in users ==> users[e].email == e)
      && (forall e1, e2 :: e1 in users && e2 in users && e1 != e2 ==> users[e1].username != users[e2].username)
    }

    constructor ()
      ensures Valid() && users == map[] && profiles == map[]
    {
      users := map[];
      profiles := map[];
    }

    /**
     * `google_auth`: validate the request, verify the token (the parameter
     * `verify`), create or update the account, and report its profile status.
     */
    method GoogleAuth(token: Option<string>, clientId: string, verify: (string, string) -> Verification)
      returns (resp: AuthResponse)
      requires Valid()
      modifies this
      ensures Valid() && profiles == old(profiles)
      ensures token.None? || token == Some("") ==>
                resp == AuthError(400, TokenRequired) && users == old(users)
      ensures token.Some? && token.value != "" && clientId == "" ==>
                resp == AuthError(500, ClientIdMissing) && users == old(users)
      ensures token.Some? && token.value != "" && clientId != "" ==>
                match verify(token.value, clientId)
                case InvalidToken(reason) =>
                  resp == AuthError(400, "Invalid Google token: " + reason) && users == old(users)
                case VerifyFailed(reason) =>
                  resp == AuthError(500, "Authentication failed: " + reason) && users == old(users)
                case Verified(c) =>
                  if c.sub.None? then
                    resp == AuthError(500, "Authentication failed: 'sub'") && users == old(users)
                  else if c.email.None? then
                    resp == AuthError(500, "Authentication failed: 'email'") && users == old(users)
                  else
                    var e := c.email.value;
                    && e in users
                    && (e in old(users) ==> users == old(users)[e := Merge(old(users)[e], c)])
                    && (e !in old(users) ==>
                          users == old(users)[e := NewUser(e, c, FirstFreeName(
                                                   UsernameBase(e, ClaimedName(c)), Usernames(old(users))))])
                    && resp == AuthOk(View(users[e]), e !in old(users),
                                      ProfileOf(if e in profiles then Some(profiles[e]) else None))
    {
      if token.None? || token.value == "" {
        return AuthError(400, TokenRequired);
      }
      if clientId == "" {
        return AuthError(500, ClientIdMissing);
      }
      match verify(token.value, clientId)
      case InvalidToken(reason) =>
        return AuthError(400, "Invalid Google token: " + reason);
      case VerifyFailed(reason) =>
        return AuthError(500, "Authentication failed: " + reason);
      case Verified(c) =>
        if c.sub.None? {
          return AuthError(500, "Authentication failed: 'sub'");
        }
        if c.email.None? {
          return AuthError(500, "Authentication failed: 'email'");
        }
        var e := c.email.value;
        var created := e !in users;
        if created {
          var username := GenerateUsername(e, ClaimedName(c), set k | k in users :: users[k].username);
          GeneratedUsernameFresh(e, ClaimedName(c), Usernames(users));
          users := users[e := NewUser(e, c, username)];
        } else {
          users := users[e := Merge(users[e], c)];
        }
        var profile := if e in profiles then Some(profiles[e]) else None;
        return AuthOk(View(users[e]), created, ProfileOf(profile));
    }
  }
}
