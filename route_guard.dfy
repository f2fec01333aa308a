/** The client's route guard (src/components/auth/RequireAuth.tsx) and the protected routes
    of src/App.tsx that use it. */
module RouteGuard {
  import opened Basics
  import opened Domain

  /** What `RequireAuth` returns. */
  datatype Decision =
    | Spinner                  // the loading indicator
    | ToLogin(from: string)    // `<Navigate to="/login" state={{ from: location }} />`
    | Redirect(to: string)     // `<Navigate to=... />` to a role's dashboard
    | Render                   // the children

  /** The role's dashboard, for the three role choices. */
  function Dashboard(role: string): Option<string> {
    if role == ADMIN then Some("/admin")
    else if role == HR then Some("/hr")
    else if role == EMPLOYEE then Some("/employee")
    else None
  }

  /** The guard's decision from the session's loading flag, `isAuthenticated`, the user's role
      (None when there is no user), the route's `allowedRoles` and the requested location. */
  function Decide(isLoading: bool, isAuthenticated: bool, role: Option<string>,
                  allowedRoles: seq<string>, location: string): (d: Decision)
    ensures isLoading <==> d == Spinner
    ensures !isLoading && !isAuthenticated <==> d == ToLogin(location)
    ensures d.Redirect? ==> role.Some? && role.value !in allowedRoles && Dashboard(role.value) == Some(d.to)
  {
    if isLoading then Spinner
    else if !isAuthenticated then ToLogin(location)
    else if role.Some? && role.value !in allowedRoles then
      match Dashboard(role.value)
      case Some(path) => Redirect(path)
      case None => Render
    else Render
  }

  /** An authenticated user whose role is allowed sees the children; one whose role is one of
      the choices but not allowed is sent to that role's dashboard. */
  lemma {:induction false} AllowedRendersOthersRedirect(role: string, allowedRoles: seq<string>, location: string)
    ensures role in allowedRoles ==> Decide(false, true, Some(role), allowedRoles, location) == Render
    ensures role !in allowedRoles && IsRoleChoice(role) ==>
              Decide(false, true, Some(role), allowedRoles, location) == Redirect(Dashboard(role).value)
  {
  }

  /** A role outside the three choices that is not allowed falls through every branch and
      the children are rendered. */
  lemma {:induction false} UnknownRoleRenders(role: string, allowedRoles: seq<string>, location: string)
    requires !IsRoleChoice(role)
    ensures Decide(false, true, Some(role), allowedRoles, location) == Render
  {
  }

  // ---------------------------------------------------------------------------
  // The protected routes

  /** A `<Route>` whose element is wrapped in `RequireAuth`. */
  datatype Route = Route(path: string, allowedRoles: seq<string>)

  const ProtectedRoutes: seq<Route> := [
    Route("/admin", [ADMIN]),
    Route("/admin/users", [ADMIN]),
    Route("/admin/departments", [ADMIN]),
    Route("/hr", [HR]),
    Route("/hr/surveys", [HR]),
    Route("/hr/surveys/builder", [HR]),
    Route("/hr/surveys/builder/:id", [HR]),
    Route("/hr/surveyresponses", [HR]),
    Route("/hr/factors", [HR]),
    Route("/hr/employees", [HR]),
    Route("/hr/trainings", [HR]),
    Route("/employee", [EMPLOYEE]),
    Route("/employee/surveys/:id", [EMPLOYEE]),
    Route("/employee/trainings", [EMPLOYEE]),
    Route("/employee/surveys", [EMPLOYEE])
  ]

  /** The `allowedRoles` of the protected route with this exact path. */
  function AllowedAt(routes: seq<Route>, path: string): (r: Option<seq<string>>)
    ensures r.Some? ==> exists i :: 0 <= i < |routes| && routes[i] == Route(path, r.value)
  {
    if |routes| == 0 then None
    else if routes[0].path == path then Some(routes[0].allowedRoles)
    else AllowedAt(routes[1..], path)
  }

  /** Each role's redirect target is a protected route that allows that role, so the guard
      renders on the second pass. */
  lemma {:induction false} RedirectTargetRenders(role: string, allowedRoles: seq<string>, location: string)
    requires Decide(false, true, Some(role), allowedRoles, location).Redirect?
    ensures var target := Decide(false, true, Some(role), allowedRoles, location).to;
            AllowedAt(ProtectedRoutes, target).Some?
            && role in AllowedAt(ProtectedRoutes, target).value
            && Decide(false, true, Some(role), AllowedAt(ProtectedRoutes, target).value, target) == Render
  {
    if role == ADMIN {
      AdminDashboardRoute();
    } else if role == HR {
      HrDashboardRoute();
    } else {
      EmployeeDashboardRoute();
    }
  }

  lemma AdminDashboardRoute()
    ensures AllowedAt(ProtectedRoutes, "/admin") == Some([ADMIN])
  {
  }

  lemma {:induction false} HrDashboardRoute()
    ensures AllowedAt(ProtectedRoutes, "/hr") == Some([HR])
  {
    var rs := ProtectedRoutes;
    assert rs[0].path != "/hr" && rs[1].path != "/hr" && rs[2].path != "/hr";
    assert AllowedAt(rs[3..], "/hr") == Some([HR]);
    AllowedAtSkips(rs, "/hr", 3);
  }

  lemma {:induction false} EmployeeDashboardRoute()
    ensures AllowedAt(ProtectedRoutes, "/employee") == Some([EMPLOYEE])
  {
    var rs := ProtectedRoutes;
    var k := 11;
    forall i | 0 <= i < k
      ensures rs[i].path != "/employee"
    {
      assert |rs[i].path| != |"/employee"|;
    }
    assert AllowedAt(rs[k..], "/employee") == Some([EMPLOYEE]);
    AllowedAtSkips(rs, "/employee", k);
  }

  /** Routes before the first one with the path can be skipped. */
  lemma {:induction false} AllowedAtSkips(routes: seq<Route>, path: string, k: nat)
    requires k <= |routes|
    requires forall i :: 0 <= i < k ==> routes[i].path != path
    ensures AllowedAt(routes, path) == AllowedAt(routes[k..], path)
  {
    if k > 0 {
      AllowedAtSkips(routes[1..], path, k - 1);
      assert routes[1..][k - 1..] == routes[k..];
    }
  }
}
