/**
 * Client-side routes, the route-to-role table of the router, and the guard
 * that wraps protected views: render when the flag matching the required
 * role is set, otherwise redirect to that role's login route.
 */
module Routing {
  import opened Wrappers
  import Session

  datatype Route = Landing | TeamLoginRoute | AdminLoginRoute | GameRoute | CompletionRoute | AdminRoute

  function Path(r: Route): string {
    match r
    case Landing => "/"
    case TeamLoginRoute => "/login"
    case AdminLoginRoute => "/admin-login"
    case GameRoute => "/game"
    case CompletionRoute => "/completion"
    case AdminRoute => "/admin"
  }

  /** Two different routes never share a path. */
  lemma PathInjective(a: Route, b: Route)
    requires a != b
    ensures Path(a) != Path(b)
  {
  }

  datatype Role = TeamRole | AdminRole

  /** The router's table: which role wraps which route. */
  function RequiredRole(r: Route): Option<Role> {
    match r
    case GameRoute => Some(TeamRole)
    case CompletionRoute => Some(TeamRole)
    case AdminRoute => Some(AdminRole)
    case _ => None
  }

  /** The login route of a role. */
  function LoginRoute(role: Role): Route {
    match role
    case TeamRole => TeamLoginRoute
    case AdminRole => AdminLoginRoute
  }

  datatype Decision = Render | Redirect(to: Route)

  /** The guard: the flag that matches the role decides; the other flag is never consulted. */
  function Guard(role: Role, teamLoggedIn: bool, adminLoggedIn: bool): (d: Decision)
    ensures role == TeamRole ==> (d == Render <==> teamLoggedIn)
    ensures role == TeamRole && !teamLoggedIn ==> d == Redirect(TeamLoginRoute)
    ensures role == AdminRole ==> (d == Render <==> adminLoggedIn)
    ensures role == AdminRole && !adminLoggedIn ==> d == Redirect(AdminLoginRoute)
    ensures d.Redirect? ==> RequiredRole(d.to).None?
  {
    if role == TeamRole && !teamLoggedIn then Redirect(TeamLoginRoute)
    else if role == AdminRole && !adminLoggedIn then Redirect(AdminLoginRoute)
    else Render
  }

  /** The decision for a role ignores the other role's flag. */
  lemma GuardIgnoresOtherFlag(role: Role, team: bool, admin: bool, team': bool, admin': bool)
    requires role == TeamRole ==> team == team'
    requires role == AdminRole ==> admin == admin'
    ensures Guard(role, team, admin) == Guard(role, team', admin')
  {
  }

  /** What the router does for a route in a session: render public routes, guard protected ones. */
  function Access(r: Route, s: Session.SessionState): (d: Decision)
    ensures RequiredRole(r).None? ==> d == Render
    ensures RequiredRole(r) == Some(TeamRole) ==> (d == Render <==> Session.TeamLoggedIn(s))
    ensures RequiredRole(r) == Some(AdminRole) ==> (d == Render <==> Session.AdminLoggedIn(s))
  {
    match RequiredRole(r)
    case None => Render
    case Some(role) => Guard(role, Session.TeamLoggedIn(s), Session.AdminLoggedIn(s))
  }

  /** In a session that keeps its invariant, no state opens both a team route and the admin route. */
  lemma NoStatePassesBothGuards(s: Session.SessionState, r1: Route, r2: Route)
    requires Session.AtMostOne(s)
    requires RequiredRole(r1) == Some(TeamRole) && RequiredRole(r2) == Some(AdminRole)
    ensures !(Access(r1, s) == Render && Access(r2, s) == Render)
  {
  }
}
