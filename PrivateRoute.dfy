/** The route guard (src/component/PrivateRoute/PrivateRoute.jsx): it renders the
    protected page when the stored role is among the route's allowed roles, and
    otherwise redirects to a default page chosen from the role. */
module PrivateRoute {
  import opened Common
  import opened Text
  import opened AuthContext

  const InitialRoute := "/home"

  /** What the guard renders. */
  datatype Outcome = Outlet | Redirect(to: string)

  /** `allowedRoles.includes(role?.trim())`: the stored role, trimmed, is one of the
      allowed roles, which are compared as written; no stored role is never allowed. */
  function AccessGranted(allowedRoles: seq<string>, role: Option<string>): (r: bool)
    ensures r <==> role.Some? && exists i :: 0 <= i < |allowedRoles| && allowedRoles[i] == Trim(role.value)
  {
    role.Some? && Trim(role.value) in allowedRoles
  }

  /** The role effect's if-chain: a known role picks its page; any other role, or none,
      leaves the current default (`previous`) as it is. */
  function DefaultRouteFor(role: Option<string>, previous: string): (r: string)
    ensures role == Some("JOB_SEEKER") ==> r == "/home"
    ensures role == Some("EMPLOYER") ==> r == "/manage-vacansies"
    ensures role == Some("ADMIN") ==> r == "/admindash"
    ensures role == Some("TRAINER") ==> r == "/manage-courses"
    ensures !KnownRole(role) ==> r == previous
  {
    if role == Some("JOB_SEEKER") then "/home"
    else if role == Some("EMPLOYER") then "/manage-vacansies"
    else if role == Some("ADMIN") then "/admindash"
    else if role == Some("TRAINER") then "/manage-courses"
    else previous
  }

  predicate KnownRole(role: Option<string>)
  {
    role in {Some("JOB_SEEKER"), Some("EMPLOYER"), Some("ADMIN"), Some("TRAINER")}
  }

  class Guard {
    const allowedRoles: seq<string>
    var role: Option<string>
    var defaultNavigate: string

    /** Mounting: the role is read from storage, the default starts as "/home", and the
        role effect then runs once. */
    constructor (allowed: seq<string>, storage: map<string, string>)
      ensures allowedRoles == allowed
      ensures role == Get(storage, RoleKey)
      ensures defaultNavigate == DefaultRouteFor(Get(storage, RoleKey), InitialRoute)
    {
      allowedRoles := allowed;
      role := Get(storage, RoleKey);
      defaultNavigate := InitialRoute;
      new;
      RoleEffect();
    }

    /** The role effect. */
    method RoleEffect()
      modifies this
      ensures role == old(role)
      ensures defaultNavigate == DefaultRouteFor(role, old(defaultNavigate))
    {
      if role == Some("JOB_SEEKER") {
        defaultNavigate := "/home";
      } else if role == Some("EMPLOYER") {
        defaultNavigate := "/manage-vacansies";
      } else if role == Some("ADMIN") {
        defaultNavigate := "/admindash";
      } else if role == Some("TRAINER") {
        defaultNavigate := "/manage-courses";
      }
    }

    /** A `storage` event: the role is read again and the role effect follows. */
    method OnStorageEvent(storage: map<string, string>)
      modifies this
      ensures role == Get(storage, RoleKey)
      ensures defaultNavigate == DefaultRouteFor(Get(storage, RoleKey), old(defaultNavigate))
    {
      role := Get(storage, RoleKey);
      RoleEffect();
    }

    function Render(): (r: Outcome)
      reads this
      ensures r == Outlet <==> AccessGranted(allowedRoles, role)
      ensures r != Outlet ==> r == Redirect(defaultNavigate)
    {
      if AccessGranted(allowedRoles, role) then Outlet else Redirect(defaultNavigate)
    }
  }

  // ---------------------------------------------------------------- properties

  /** Without a stored role nothing is granted, and the redirect stays "/home". */
  lemma NoRoleDenied(allowedRoles: seq<string>)
    ensures !AccessGranted(allowedRoles, None)
    ensures DefaultRouteFor(None, InitialRoute) == InitialRoute
  {
  }

  /** The allowed roles are not trimmed: an allowed entry with surrounding spaces never
      matches a role that `trim` has already stripped. */
  lemma AllowedRolesVerbatim(role: string)
    ensures !AccessGranted([" " + role], Some(role))
  {
    assert |Trim(role)| <= |role| < |" " + role|;
  }

  /** A role stored with padding, " EMPLOYER ", opens the employer routes, but the
      redirect chain compares it untrimmed and falls back to "/home". */
  lemma PaddedEmployer()
    ensures AccessGranted(["EMPLOYER"], Some(" EMPLOYER "))
    ensures DefaultRouteFor(Some(" EMPLOYER "), InitialRoute) == InitialRoute
  {
    assert " EMPLOYER " == " " + "EMPLOYER" + " ";
    TrimPadded(" ", "EMPLOYER", " ");
  }

  /** The route groups of the application (src/App.jsx): a job seeker reaches the
      shared and the job-seeker pages and nothing else. */
  lemma JobSeekerRoutes()
    ensures AccessGranted(["JOB_SEEKER", "EMPLOYER", "TRAINER"], Some("JOB_SEEKER"))
    ensures AccessGranted(["JOB_SEEKER"], Some("JOB_SEEKER"))
    ensures !AccessGranted(["EMPLOYER"], Some("JOB_SEEKER"))
    ensures !AccessGranted(["TRAINER"], Some("JOB_SEEKER"))
  {
    TrimOfRole("JOB_SEEKER");
  }

  /** An administrator is refused by every route group and redirected to "/admindash". */
  lemma AdminRefusedEverywhere()
    ensures !AccessGranted(["JOB_SEEKER", "EMPLOYER", "TRAINER"], Some("ADMIN"))
    ensures !AccessGranted(["JOB_SEEKER"], Some("ADMIN"))
    ensures !AccessGranted(["EMPLOYER"], Some("ADMIN"))
    ensures !AccessGranted(["TRAINER"], Some("ADMIN"))
    ensures DefaultRouteFor(Some("ADMIN"), InitialRoute) == "/admindash"
  {
    TrimOfRole("ADMIN");
  }

  lemma TrimOfRole(role: string)
    requires role != [] && !IsJsSpace(role[0]) && !IsJsSpace(role[|role| - 1])
    ensures Trim(role) == role
  {
    assert [] + role + [] == role;
    TrimPadded([], role, []);
  }

  /** After a login the guard, reading the same storage, sees the role the token
      carried: a signed-in employer reaches the employer routes. */
  method GuardAfterLogin(session: AuthSession, token: string, id: int, userResponse: Result<Entities.User, ()>)
    returns (outcome: Outcome)
    requires id != 0
    modifies session
    ensures outcome == Outlet
  {
    var result := session.Login(Ok(token), t => Some(Claims(Some(id), Some("EMPLOYER"))), userResponse, Err(()));
    var guard := new Guard(["EMPLOYER"], session.storage);
    TrimOfRole("EMPLOYER");
    outcome := guard.Render();
  }
}
