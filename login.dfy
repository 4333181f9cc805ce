/**
 * The login page: after Google sign-in it posts the credential to the backend
 * and sends the browser to the remembered profile, to the user's own profile,
 * or home; every attempt ends with the loading flag down and an error shown
 * only when the attempt failed.
 */
module Login {
  import opened Wrappers
  import Users

  /** `redirectPath || (has_profile && profile_username ? "/profile/" + profile_username : "/")`. */
  function Destination(redirectPath: string, status: Users.ProfileStatus): (r: string)
    ensures redirectPath != "" ==> r == redirectPath
    ensures redirectPath == "" && status.hasProfile && status.profileUsername.GetOr("") != "" ==>
              r == "/profile/" + status.profileUsername.value
    ensures redirectPath == "" && !(status.hasProfile && status.profileUsername.GetOr("") != "") ==> r == "/"
  {
    if redirectPath != "" then redirectPath
    else if status.hasProfile && status.profileUsername.GetOr("") != "" then "/profile/" + status.profileUsername.value
    else "/"
  }

  /** The destination is never empty, and without a remembered path it is a path on this site. */
  lemma {:induction false} DestinationIsPath(redirectPath: string, status: Users.ProfileStatus)
    ensures Destination(redirectPath, status) != ""
    ensures redirectPath == "" ==> Destination(redirectPath, status)[0] == '/'
  {
  }

  /** What `authenticateWithGoogle` turns the backend's answer into: the parsed body, or a thrown Error. */
  datatype Outcome = Answered(status: Users.ProfileStatus) | Threw(message: Option<string>)

  /** A non-2xx answer throws `new Error(error.error || "Authentication failed")`. */
  function ClientOutcome(response: Users.AuthResponse): (r: Outcome)
    ensures response.AuthOk? ==> r == Answered(response.profile)
    ensures response.AuthError? ==> r.Threw? && r.message.Some? && r.message.value != ""
    ensures response.AuthError? && response.error != "" ==> r == Threw(Some(response.error))
  {
    match response
    case AuthOk(_, _, profile) => Answered(profile)
    case AuthError(_, error) => Threw(Some(if error != "" then error else "Authentication failed"))
  }

  const MissingCredential: string := "Missing Google credential. Please try again."
  const SignInFailed: string := "Google sign-in failed. Please try again."
  const SignInCancelled: string := "Google sign-in was cancelled or failed. Please try again."

  /** `localStorage`, read once when the page mounts. */
  type Storage = map<string, string>

  const RememberedProfileKey: string := "previously_viewed_orbitview_profile"

  class LoginPage {
    var isLoading: bool
    var error: string
    var redirectPath: string
    /** The path passed to `router.push`, if any. */
    var navigatedTo: Option<string>

    constructor ()
      ensures !isLoading && error == "" && redirectPath == "" && navigatedTo == None
    {
      isLoading := false;
      error := "";
      redirectPath := "";
      navigatedTo := None;
    }

    /** The mount effect: the remembered profile path, or "" when none is stored. */
    method Mount(storage: Storage)
      modifies this
      ensures redirectPath == (if RememberedProfileKey in storage then storage[RememberedProfileKey] else "")
      ensures isLoading == old(isLoading) && error == old(error) && navigatedTo == old(navigatedTo)
    {
      if RememberedProfileKey in storage {
        redirectPath := storage[RememberedProfileKey];
      } else {
        redirectPath := "";
      }
    }

    /**
     * `handleGoogleSuccess`. A missing or empty credential stops before any
     * request; otherwise `outcome` is what the request produced. The `finally`
     * block lowers the loading flag on every path.
     */
    method HandleGoogleSuccess(credential: Option<string>, outcome: Outcome)
      modifies this
      ensures !isLoading && redirectPath == old(redirectPath)
      ensures credential.GetOr("") == "" ==> error == MissingCredential && navigatedTo == old(navigatedTo)
      ensures credential.GetOr("") != "" && outcome.Answered? ==>
                error == "" && navigatedTo == Some(Destination(redirectPath, outcome.status))
      ensures credential.GetOr("") != "" && outcome.Threw? ==>
                error == outcome.message.GetOr(SignInFailed) && navigatedTo == old(navigatedTo)
    {
      error := "";
      isLoading := true;
      var token := credential.GetOr("");
      if token == "" {
        error := MissingCredential;
      } else {
        match outcome
        case Answered(status) =>
          navigatedTo := Some(Destination(redirectPath, status));
        case Threw(message) =>
          error := message.GetOr(SignInFailed);
      }
      isLoading := false;
    }

    /** `handleGoogleError`: the cancel message, nothing else changes. */
    method HandleGoogleError()
      modifies this
      ensures error == SignInCancelled
      ensures isLoading == old(isLoading) && redirectPath == old(redirectPath) && navigatedTo == old(navigatedTo)
    {
      error := SignInCancelled;
    }
  }

  /**
   * End to end: a sign-in the backend answers navigates (to the remembered path
   * or the user's profile) and shows no error; one it refuses shows the
   * backend's error text and stays on the page.
   */
  method SignInRoundTrip(page: LoginPage, token: string, response: Users.AuthResponse)
    requires token != ""
    modifies page
    ensures !page.isLoading
    ensures response.AuthOk? ==> page.error == "" && page.navigatedTo == Some(Destination(page.redirectPath, response.profile))
    ensures response.AuthError? ==> page.error != "" && page.navigatedTo == old(page.navigatedTo)
    ensures response.AuthError? && response.error != "" ==> page.error == response.error
  {
    page.HandleGoogleSuccess(Some(token), ClientOutcome(response));
  }
}
