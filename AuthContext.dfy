/** The session store (src/context/AuthContext.jsx): the signed-in user, their résumé
    link and role, and the two browser-storage entries that keep a session across
    reloads. HTTP outcomes and the JWT decoder are parameters; browser storage is
    the `storage` map. */
module AuthContext {
  import opened Common
  import opened Text
  import opened Entities

  const TokenKey := "iap-final-token"
  const RoleKey := "iap-final-role"
  const JobSeeker := "JOB_SEEKER"

  /** The claims `jwtDecode` reads from a token; either may be missing. */
  datatype Claims = Claims(id: Option<int>, role: Option<string>)

  /** What `login` resolves to: `false`, or the decoded role (possibly `undefined`). */
  datatype LoginOutcome = LoginFailed | LoggedIn(role: Option<string>)

  /** `!id` is false exactly for a present, non-zero number. */
  predicate IdTruthy(id: Option<int>)
  {
    id.Some? && id.value != 0
  }

  /** `localStorage.setItem(key, role)` stores `String(role)`: an absent role becomes
      the text "undefined". */
  function StoredRole(role: Option<string>): (r: string)
    ensures role.Some? ==> r == role.value
    ensures role.None? ==> r == "undefined"
  {
    if role.Some? then role.value else "undefined"
  }

  /** `response.data[0].resumeUrl` for the list `/resumes/user/{id}` returns, where each
      entry is that record's `resumeUrl`; an empty list makes the read throw, and the
      catch sets `null`, as a failed request does. */
  function FirstResume(response: Result<seq<Option<string>>, ()>): (r: Option<string>)
    ensures response.Err? || response.value == [] ==> r == None
    ensures response.Ok? && response.value != [] ==> r == response.value[0]
  {
    if response.Ok? && response.value != [] then response.value[0] else None
  }

  /** The résumé after `fetchUser` with the profile response `userResponse`: only a
      fetched JOB_SEEKER profile touches it, and then the résumé request decides. */
  function ResumeAfterFetch(before: Option<string>, userResponse: Result<User, ()>,
                            resumeResponse: Result<seq<Option<string>>, ()>): (r: Option<string>)
    ensures userResponse.Err? || userResponse.value.role != Some(JobSeeker) ==> r == before
    ensures userResponse.Ok? && userResponse.value.role == Some(JobSeeker) ==> r == FirstResume(resumeResponse)
  {
    if userResponse.Ok? && userResponse.value.role == Some(JobSeeker) then FirstResume(resumeResponse)
    else before
  }

  class AuthSession {
    var user: Option<User>
    var resume: Option<string>
    var role: Option<string>
    var storage: map<string, string>

    /** A fresh provider over the browser storage as it is. */
    constructor (stored: map<string, string>)
      ensures user == None && resume == None && role == None && storage == stored
    {
      user := None;
      resume := None;
      role := None;
      storage := stored;
    }

    /** `fetchResume(id)`, with the outcome of `GET /resumes/user/{id}`. */
    method FetchResume(response: Result<seq<Option<string>>, ()>)
      modifies this
      ensures resume == FirstResume(response)
      ensures user == old(user) && role == old(role) && storage == old(storage)
    {
      if response.Ok? && response.value != [] {
        resume := response.value[0];
      } else {
        resume := None;
      }
    }

    /** `fetchUser(id)`, with the outcome of `GET /auth/user/{id}` and, for a job seeker,
        of the résumé request it starts. A failure clears the user and is not passed on. */
    method FetchUser(userResponse: Result<User, ()>, resumeResponse: Result<seq<Option<string>>, ()>)
      modifies this
      ensures userResponse.Ok? ==> user == Some(userResponse.value)
      ensures userResponse.Err? ==> user == None
      ensures resume == ResumeAfterFetch(old(resume), userResponse, resumeResponse)
      ensures role == old(role) && storage == old(storage)
    {
      if userResponse.Ok? {
        var fetched := userResponse.value;
        user := Some(fetched);
        if fetched.role == Some(JobSeeker) {
          resume := fetched.resumeUrl;
          FetchResume(resumeResponse);
        }
      } else {
        user := None;
      }
    }

    /** `login(email, password)`. `loginResponse` is the token `POST /auth/login`
        returns, `decode` stands for `jwtDecode` (`None` when it throws), and the two
        further responses are those of the `fetchUser` it awaits. Any failure before the
        id check leaves everything as it was and yields `false`; past the check the token
        and role are stored, in that order, and the role is returned even when the
        profile cannot be fetched. */
    method Login(loginResponse: Result<string, ()>, decode: string -> Option<Claims>,
                 userResponse: Result<User, ()>, resumeResponse: Result<seq<Option<string>>, ()>)
      returns (outcome: LoginOutcome)
      modifies this
      ensures var ok := loginResponse.Ok? && decode(loginResponse.value).Some? &&
                        IdTruthy(decode(loginResponse.value).value.id);
        && (!ok ==> outcome == LoginFailed && user == old(user) && resume == old(resume) &&
                    role == old(role) && storage == old(storage))
        && (ok ==> var claims := decode(loginResponse.value).value;
              && outcome == LoggedIn(claims.role)
              && storage == old(storage)[TokenKey := loginResponse.value][RoleKey := StoredRole(claims.role)]
              && role == claims.role
              && (userResponse.Ok? ==> user == Some(userResponse.value))
              && (userResponse.Err? ==> user == None)
              && resume == ResumeAfterFetch(old(resume), userResponse, resumeResponse))
    {
      if loginResponse.Err? {
        return LoginFailed;
      }
      var token := loginResponse.value;
      var decoded := decode(token);
      if decoded.None? {
        return LoginFailed;
      }
      var claims := decoded.value;
      if !IdTruthy(claims.id) {
        return LoginFailed;
      }
      storage := storage[TokenKey := token];
      storage := storage[RoleKey := StoredRole(claims.role)];
      role := claims.role;
      FetchUser(userResponse, resumeResponse);
      outcome := LoggedIn(claims.role);
    }

    /** `logout()`: both storage entries go and the user is cleared; the résumé and the
        role in memory stay. */
    method Logout()
      modifies this
      ensures storage == old(storage) - {TokenKey, RoleKey}
      ensures user == None && resume == old(resume) && role == old(role)
    {
      storage := storage - {TokenKey};
      storage := storage - {RoleKey};
      user := None;
    }

    /** The mount effect: with a stored token, decode it and fetch that user. A decode
        failure is not caught: the effect throws (`threw`) and nothing changes. */
    method Init(decode: string -> Option<Claims>, userResponse: Result<User, ()>,
                resumeResponse: Result<seq<Option<string>>, ()>)
      returns (threw: bool)
      modifies this
      ensures !Truthy(Get(old(storage), TokenKey)) ==>
        !threw && user == old(user) && resume == old(resume)
      ensures Truthy(Get(old(storage), TokenKey)) && decode(old(storage)[TokenKey]).None? ==>
        threw && user == old(user) && resume == old(resume)
      ensures Truthy(Get(old(storage), TokenKey)) && decode(old(storage)[TokenKey]).Some? ==>
        !threw && (userResponse.Ok? ==> user == Some(userResponse.value)) &&
        (userResponse.Err? ==> user == None) &&
        resume == ResumeAfterFetch(old(resume), userResponse, resumeResponse)
      ensures role == old(role) && storage == old(storage)
    {
      var token := Get(storage, TokenKey);
      if !Truthy(token) {
        return false;
      }
      var decoded := decode(token.value);
      if decoded.None? {
        return true;
      }
      FetchUser(userResponse, resumeResponse);
      threw := false;
    }
  }

  /** Only the id is checked: a token with a usable id and no role still logs in, and
      the role entry then holds the text "undefined". */
  method LoginWithoutRole(session: AuthSession, token: string, id: int, userResponse: Result<User, ()>)
    returns (outcome: LoginOutcome)
    requires id != 0
    modifies session
    ensures outcome == LoggedIn(None)
    ensures Get(session.storage, RoleKey) == Some("undefined")
    ensures Get(session.storage, TokenKey) == Some(token)
  {
    outcome := session.Login(Ok(token), t => Some(Claims(Some(id), None)), userResponse, Err(()));
  }

  /** A token whose id is 0 is refused before anything is stored. */
  method LoginWithZeroId(session: AuthSession, token: string, role: string, userResponse: Result<User, ()>)
    returns (outcome: LoginOutcome)
    modifies session
    ensures outcome == LoginFailed
    ensures session.storage == old(session.storage)
  {
    outcome := session.Login(Ok(token), t => Some(Claims(Some(0), Some(role))), userResponse, Err(()));
  }
}
