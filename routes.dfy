/**
 * The route table and the access rule that decides, from the login state
 * alone, whether a route may be shown.
 */
module Routes {
  import opened Wrappers

  /** The page a route's loader produces. */
  datatype Page = Home | About | Add | Login | Register | Favorites | Offline

  /** `routes`: the path of every page and its loader. */
  const RouteTable: map<string, Page> := map[
    "/beranda" := Home, "/about" := About, "/add" := Add, "/login" := Login,
    "/register" := Register, "/favorites" := Favorites, "/offline" := Offline]

  const ProtectedRoutes: seq<string> := ["/beranda", "/add", "/favorites", "/offline"]
  const PublicRoutes: seq<string> := ["/about", "/login", "/register"]

  predicate IsProtectedRoute(route: string) {
    route in ProtectedRoutes
  }

  predicate IsPublicRoute(route: string) {
    route in PublicRoutes
  }

  /** `getFallbackRoute`. */
  function GetFallbackRoute(): (r: string)
    ensures r in RouteTable && IsPublicRoute(r)
  {
    "/about"
  }

  /** `getRouteLoader`: the loader of a path in the table, `null` for any other. */
  function GetRouteLoader(path: string): (r: Option<Page>)
    ensures r.Some? <==> path in RouteTable
    ensures r.Some? ==> r.value == RouteTable[path]
  {
    if path in RouteTable then Some(RouteTable[path]) else None
  }

  /**
   * `validateRouteAccess`: a protected route needs a login, and a logged-in
   * user may not open the login or registration page; anything else passes.
   */
  function ValidateRouteAccess(route: string, isLoggedIn: bool): (r: bool)
    ensures IsProtectedRoute(route) && !isLoggedIn ==> !r
    ensures isLoggedIn && (route == "/login" || route == "/register") ==> !r
    ensures !r ==> (IsProtectedRoute(route) && !isLoggedIn) || (isLoggedIn && (route == "/login" || route == "/register"))
  {
    if IsProtectedRoute(route) && !isLoggedIn then false
    else if IsPublicRoute(route) && isLoggedIn && (route == "/login" || route == "/register") then false
    else true
  }

  /** No route is both protected and public. */
  lemma ListsDisjoint(route: string)
    ensures !(IsProtectedRoute(route) && IsPublicRoute(route))
  {
  }

  /** Every listed route has a loader, and every route with a loader is listed. */
  lemma ListedRoutesHaveLoaders(route: string)
    ensures IsProtectedRoute(route) || IsPublicRoute(route) <==> GetRouteLoader(route).Some?
  {
  }

  /** The fallback route can be opened whether or not the user is logged in. */
  lemma FallbackAlwaysAccessible(isLoggedIn: bool)
    ensures ValidateRouteAccess(GetFallbackRoute(), isLoggedIn)
  {
  }
}
