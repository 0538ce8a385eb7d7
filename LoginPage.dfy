/** The sign-in page (src/pages/LoginPage/LoginPage.jsx): it checks the form, calls
    `login`, and sends the user to a start page chosen by role. */
module LoginPage {
  import opened Common
  import opened Text
  import opened Entities
  import opened AuthContext

  /** The start page after signing in with `role`: every role has one. */
  function LoginPath(role: string): (r: string)
    ensures role == "JOB_SEEKER" ==> r == "/"
    ensures role == "ADMIN" ==> r == "/home"
    ensures role == "TRAINER" ==> r == "/training-programs"
    ensures role == "EMPLOYER" ==> r == "/employerdash"
    ensures role !in {"JOB_SEEKER", "ADMIN", "TRAINER", "EMPLOYER"} ==> r == "/home"
  {
    match role
    case "JOB_SEEKER" => "/"
    case "ADMIN" => "/home"
    case "TRAINER" => "/training-programs"
    case "EMPLOYER" => "/employerdash"
    case _ => "/home"
  }

  /** How `handleLogin` ends. `reloads` says the page is reloaded: at once for a trainer,
      and through the effect that watches `redirect` for everyone who got in. */
  datatype LoginResult =
    | MissingCredentials
    | LoginRefused
    | Navigated(path: string, reloads: bool)

  class LoginForm {
    var email: string
    var password: string
    var redirect: bool

    constructor ()
      ensures email == "" && password == "" && !redirect
    {
      email := "";
      password := "";
      redirect := false;
    }

    /** `handleLogin`, with the session it signs in to and the outcomes `login` needs.
        An empty field stops it before `login` is called; a falsy role from `login`
        stops it with `redirect` untouched; otherwise `redirect` is set and the user is
        sent to the role's start page. */
    method HandleLogin(session: AuthSession, loginResponse: Result<string, ()>,
                       decode: string -> Option<Claims>, userResponse: Result<User, ()>,
                       resumeResponse: Result<seq<Option<string>>, ()>)
      returns (result: LoginResult)
      modifies this, session
      ensures email == old(email) && password == old(password)
      ensures email == "" || password == "" ==>
        result == MissingCredentials && redirect == old(redirect) &&
        session.storage == old(session.storage) && session.user == old(session.user) &&
        session.role == old(session.role) && session.resume == old(session.resume)
      ensures result.MissingCredentials? <==> email == "" || password == ""
      ensures email != "" && password != "" ==>
        var ok := loginResponse.Ok? && decode(loginResponse.value).Some? &&
                  IdTruthy(decode(loginResponse.value).value.id);
        && (!ok ==> session.user == old(session.user) && session.resume == old(session.resume) &&
                    session.role == old(session.role) && session.storage == old(session.storage))
        && (ok ==> var claims := decode(loginResponse.value).value;
              && session.storage == old(session.storage)[TokenKey := loginResponse.value][RoleKey := StoredRole(claims.role)]
              && session.role == claims.role
              && (userResponse.Ok? ==> session.user == Some(userResponse.value))
              && (userResponse.Err? ==> session.user == None)
              && session.resume == ResumeAfterFetch(old(session.resume), userResponse, resumeResponse))
      ensures result.LoginRefused? ==> redirect == old(redirect)
      ensures result.Navigated? ==> redirect && result.reloads
      ensures result.Navigated? <==>
        email != "" && password != "" && loginResponse.Ok? &&
        decode(loginResponse.value).Some? && IdTruthy(decode(loginResponse.value).value.id) &&
        Truthy(decode(loginResponse.value).value.role)
      ensures result.Navigated? ==> result.path == LoginPath(decode(loginResponse.value).value.role.value)
    {
      if email == "" || password == "" {
        return MissingCredentials;
      }
      var outcome := session.Login(loginResponse, decode, userResponse, resumeResponse);
      if outcome.LoginFailed? || !Truthy(outcome.role) {
        return LoginRefused;
      }
      redirect := true;
      var role := outcome.role.value;
      result := Navigated(LoginPath(role), true);
    }
  }

  /** A token whose role is missing still signs the session in, yet the page treats
      the attempt as refused: the token is stored, the role entry reads "undefined",
      the profile is loaded, and nobody is redirected. */
  method RoleMissingRefused(form: LoginForm, session: AuthSession, token: string, id: int, profile: User)
    returns (result: LoginResult)
    requires form.email != "" && form.password != "" && id != 0
    requires form != session as object
    modifies form, session
    ensures result == LoginRefused && form.redirect == old(form.redirect)
    ensures Get(session.storage, TokenKey) == Some(token)
    ensures Get(session.storage, RoleKey) == Some("undefined")
    ensures session.role == None && session.user == Some(profile)
  {
    result := form.HandleLogin(session, Ok(token), t => Some(Claims(Some(id), None)), Ok(profile), Err(()));
  }
}
