/**
 * The client's routes table and its authentication guard
 * (client/src/router/index.ts). Which view a route renders and its
 * transition are not part of this model; the user store's
 * `isAuthenticated` is an input of the guard.
 */
module Router {
  import opened Wrappers

  /** A route: its path, its name and whether its `meta` says `requiresAuth`. */
  datatype RouteRecord = RouteRecord(path: string, name: string, requiresAuth: bool)

  /** The routes table (index.ts:7-26). */
  const Routes: seq<RouteRecord> := [
    RouteRecord("/", "home", false),
    RouteRecord("/dashboard", "dashboard", true),
    RouteRecord("/login", "login", false)
  ]

  /** The route with the given name, as the router resolves `{ name }` (names are unique, see `RoutesTable`). */
  function RouteNamed(routes: seq<RouteRecord>, name: string): (r: Option<RouteRecord>)
    ensures r.Some? ==> r.value in routes && r.value.name == name
    ensures r.None? <==> forall i :: 0 <= i < |routes| ==> routes[i].name != name
  {
    if routes == [] then None
    else if routes[0].name == name then Some(routes[0])
    else RouteNamed(routes[1..], name)
  }

  /** A resolved target location: its route name (if any) and `to.meta.requiresAuth`. */
  datatype Location = Location(name: Option<string>, requiresAuth: bool)

  /** The location the router resolves for a named route of the table. */
  function Resolve(name: string): Option<Location> {
    match RouteNamed(Routes, name)
    case None => None
    case Some(route) => Some(Location(Some(route.name), route.requiresAuth))
  }

  /** What the guard tells the router: `next()` or `next({ name })`. */
  datatype Navigation = Proceed | Redirect(name: string)

  /** The `beforeEach` guard (index.ts:35-44). */
  function BeforeEach(to: Location, isAuthenticated: bool): Navigation {
    if to.requiresAuth && !isAuthenticated then Redirect("login")
    else if to.name == Some("login") && isAuthenticated then Redirect("dashboard")
    else Proceed
  }

  /**
   * Where a navigation ends: at `to` when the guard proceeds, else at the
   * redirect target, which the guard checks once more. `None` means the
   * router found no route of that name.
   */
  function Destination(to: Location, isAuthenticated: bool): Option<Location> {
    match BeforeEach(to, isAuthenticated)
    case Proceed => Some(to)
    case Redirect(target) =>
      match Resolve(target)
      case None => None
      case Some(next) => if BeforeEach(next, isAuthenticated).Proceed? then Some(next) else None
  }

  // ---------------------------------------------------------------------------
  // Properties

  /** Route names and paths are unique, and only the dashboard requires authentication. */
  lemma RoutesTable()
    ensures forall i, j :: 0 <= i < j < |Routes| ==> Routes[i].name != Routes[j].name && Routes[i].path != Routes[j].path
    ensures forall i :: 0 <= i < |Routes| ==> (Routes[i].requiresAuth <==> Routes[i].name == "dashboard")
  {
  }

  /**
   * The guard redirects away from an authentication-required route exactly
   * when the user is signed out, and away from the login page exactly when
   * the user is signed in; otherwise it lets the navigation through.
   */
  lemma GuardDecision(to: Location, isAuthenticated: bool)
    ensures BeforeEach(to, isAuthenticated) == Redirect("login") <==> to.requiresAuth && !isAuthenticated
    ensures BeforeEach(to, isAuthenticated) == Redirect("dashboard") <==>
      !(to.requiresAuth && !isAuthenticated) && to.name == Some("login") && isAuthenticated
    ensures BeforeEach(to, isAuthenticated).Proceed? <==>
      (!to.requiresAuth || isAuthenticated) && (to.name != Some("login") || !isAuthenticated)
  {
  }

  /**
   * Every redirect of the guard names a route of the table, and the guard lets
   * the navigation to that route through: redirects never loop.
   */
  lemma RedirectsSettle(to: Location, isAuthenticated: bool)
    ensures BeforeEach(to, isAuthenticated).Redirect? ==>
      var target := Resolve(BeforeEach(to, isAuthenticated).name);
      target.Some? && BeforeEach(target.value, isAuthenticated) == Proceed
  {
    assert RouteNamed(Routes, "login") == Some(Routes[2]);
    assert RouteNamed(Routes, "dashboard") == Some(Routes[1]);
  }

  /**
   * Every navigation ends somewhere; a signed-out user never ends on a route
   * that requires authentication, and a signed-in user never ends on the login
   * page.
   */
  lemma DestinationSafe(to: Location, isAuthenticated: bool)
    ensures Destination(to, isAuthenticated).Some?
    ensures !isAuthenticated ==> !Destination(to, isAuthenticated).value.requiresAuth
    ensures isAuthenticated ==> Destination(to, isAuthenticated).value.name != Some("login")
    ensures BeforeEach(to, isAuthenticated).Proceed? ==> Destination(to, isAuthenticated) == Some(to)
  {
    RedirectsSettle(to, isAuthenticated);
  }
}
