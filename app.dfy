/**
 * The application shell's router: the redirect rules and re-entrancy guard
 * of `renderPage`, the transition direction between pages and the document
 * title. The active route, the login state and whether loading the page
 * throws are parameters; the DOM and the view transition are not modelled.
 */
module App {
  import opened Wrappers
  import opened Routes

  /** `_pageOrder`: the position of each page, used to pick the transition direction. */
  const PageOrderTable: map<string, nat> := map[
    "/beranda" := 1, "/about" := 2, "/add" := 3, "/favorites" := 4,
    "/offline" := 5, "/login" := 6, "/register" := 7]

  /** `this._pageOrder[route] || 0`: unknown routes count as 0. */
  function PageOrder(route: string): (r: nat)
    ensures r == 0 <==> route !in RouteTable
    ensures route in RouteTable ==> 1 <= r <= 7
  {
    if route in PageOrderTable then PageOrderTable[route] else 0
  }

  /** Different pages have different positions. */
  lemma PageOrderInjective(a: string, b: string)
    requires a in RouteTable && b in RouteTable && a != b
    ensures PageOrder(a) != PageOrder(b)
  {
  }

  datatype Direction = Forward | Backward | NoTransition

  /** `_getTransitionDirection`: `none` before the first page, otherwise by comparing positions. */
  function TransitionDirection(currentRoute: Option<string>, newRoute: string): (d: Direction)
    ensures currentRoute.None? ==> d == NoTransition
    ensures currentRoute.Some? ==> (d == Forward <==> PageOrder(newRoute) > PageOrder(currentRoute.value))
    ensures currentRoute.Some? ==> (d == Backward <==> PageOrder(newRoute) < PageOrder(currentRoute.value))
    ensures currentRoute.Some? ==> (d == NoTransition <==> PageOrder(newRoute) == PageOrder(currentRoute.value))
  {
    if currentRoute.None? then NoTransition
    else
      var currentOrder := PageOrder(currentRoute.value);
      var newOrder := PageOrder(newRoute);
      if newOrder > currentOrder then Forward
      else if newOrder < currentOrder then Backward
      else NoTransition
  }

  /** Going from `a` to `b` is forward exactly when going back from `b` to `a` is backward. */
  lemma TransitionReverses(a: string, b: string)
    ensures TransitionDirection(Some(a), b) == Forward <==> TransitionDirection(Some(b), a) == Backward
    ensures TransitionDirection(Some(a), b) == NoTransition <==> TransitionDirection(Some(b), a) == NoTransition
  {
  }

  /** Between two pages of the table there is no transition only when the page stays the same. */
  lemma NoTransitionBetweenPages(a: string, b: string)
    requires a in RouteTable && b in RouteTable
    ensures TransitionDirection(Some(a), b) == NoTransition <==> a == b
  {
    if a != b {
      PageOrderInjective(a, b);
    }
  }

  const AppTitle := "Cerita di Sekitarmu"

  /** The `titleMap` of `_updateDocumentTitle`: a page name, a dash and the application title. */
  const TitleMap: map<string, string> := map[
    "/beranda" := "Beranda - " + AppTitle, "/about" := "Tentang - " + AppTitle,
    "/add" := "Tambah Cerita - " + AppTitle, "/login" := "Masuk - " + AppTitle,
    "/register" := "Daftar - " + AppTitle, "/favorites" := "Favorit - " + AppTitle,
    "/offline" := "Offline - " + AppTitle]

  /** `_updateDocumentTitle`: the page's title, or the application title for a route it does not know. */
  function DocumentTitle(route: string): (r: string)
    ensures route !in RouteTable ==> r == AppTitle
    ensures route in RouteTable ==> |r| > |AppTitle| && r[|r| - |AppTitle|..] == AppTitle
  {
    if route in TitleMap then
      var t := TitleMap[route];
      SuffixOf(t[..|t| - |AppTitle|], AppTitle);
      t
    else AppTitle
  }

  lemma SuffixOf(p: string, s: string)
    ensures (p + s)[|p + s| - |s|..] == s
  {
  }

  /** What `renderPage` does with the active route once it may render. */
  datatype Decision = Redirect(target: string) | NotFound | Show(page: Page)

  /** The routes `renderPage` treats as "no route": empty, `#` and `/`. */
  predicate IsRootUrl(url: string) {
    url == "" || url == "#" || url == "/"
  }

  /**
   * `renderPage`'s branch chain: the root goes to the home page or the about
   * page, a logged-out user is sent from a protected route to the about
   * page, a logged-in user from login or registration to the home page; a
   * route without a loader is a 404.
   */
  function Decide(url: string, isLoggedIn: bool): (d: Decision)
    ensures IsRootUrl(url) ==> d == Redirect(if isLoggedIn then "/beranda" else "/about")
    ensures !IsRootUrl(url) && !isLoggedIn && IsProtectedRoute(url) ==> d == Redirect("/about")
    ensures !IsRootUrl(url) && isLoggedIn && (url == "/login" || url == "/register") ==> d == Redirect("/beranda")
    ensures d.NotFound? <==> !IsRootUrl(url) && ValidateRouteAccess(url, isLoggedIn) && url !in RouteTable
    ensures d.Show? <==> url in RouteTable && ValidateRouteAccess(url, isLoggedIn)
    ensures d.Show? ==> d.page == RouteTable[url]
  {
    if IsRootUrl(url) then
      if isLoggedIn then Redirect("/beranda") else Redirect("/about")
    else if !isLoggedIn && url in ["/beranda", "/add", "/favorites", "/offline"] then Redirect("/about")
    else if isLoggedIn && url in ["/login", "/register"] then Redirect("/beranda")
    else match GetRouteLoader(url)
      case None => NotFound
      case Some(page) => Show(page)
  }

  /** Apart from the root, the routes `renderPage` redirects away from are exactly those the access rule refuses. */
  lemma RedirectsAreRefusals(url: string, isLoggedIn: bool)
    requires !IsRootUrl(url)
    ensures Decide(url, isLoggedIn).Redirect? <==> !ValidateRouteAccess(url, isLoggedIn)
  {
  }

  /** Every redirect lands on a page that is shown at once, so redirects never chain. */
  lemma RedirectTargetsAreShown(url: string, isLoggedIn: bool)
    requires Decide(url, isLoggedIn).Redirect?
    ensures Decide(Decide(url, isLoggedIn).target, isLoggedIn).Show?
  {
    var t := Decide(url, isLoggedIn).target;
    assert t == "/beranda" || t == "/about";
    assert !IsRootUrl(t) by {
      assert |t| > 1;
    }
  }

  /** What one call of `renderPage` did. */
  datatype Outcome =
    | Skipped
    | Redirected(hash: string)
    | NotFoundShown
    | Rendered(page: Page, direction: Direction)
    | ErrorShown

  class App {
    /** Whether the content container exists. */
    const hasContent: bool
    var isRendering: bool
    var previousRoute: Option<string>
    var currentRoute: Option<string>
    /** `window.location.hash`. */
    var hash: string
    /** `document.title`. */
    var title: string

    constructor(hasContent: bool, hash: string, title: string)
      ensures this.hasContent == hasContent && this.hash == hash && this.title == title
      ensures !isRendering && previousRoute == None && currentRoute == None
    {
      this.hasContent := hasContent;
      isRendering := false;
      previousRoute := None;
      currentRoute := None;
      this.hash := hash;
      this.title := title;
    }

    /**
     * `renderPage`: nothing happens without a container or while another
     * render runs; otherwise the flag is set for the duration and cleared on
     * every path. A redirect only sets the hash; a 404 or a page that fails
     * to load shows an error page; a successful render sets the title and
     * moves the current route into the previous one.
     */
    method RenderPage(url: string, isLoggedIn: bool, loadFails: bool) returns (outcome: Outcome)
      modifies this`isRendering, this`previousRoute, this`currentRoute, this`hash, this`title
      ensures !hasContent || old(isRendering) ==>
        outcome == Skipped && isRendering == old(isRendering) && previousRoute == old(previousRoute) &&
        currentRoute == old(currentRoute) && hash == old(hash) && title == old(title)
      ensures hasContent && !old(isRendering) ==> !isRendering
      ensures hasContent && !old(isRendering) && Decide(url, isLoggedIn).Redirect? ==>
        outcome == Redirected("#" + Decide(url, isLoggedIn).target) && hash == "#" + Decide(url, isLoggedIn).target
      ensures hasContent && !old(isRendering) && !Decide(url, isLoggedIn).Redirect? ==> hash == old(hash)
      ensures hasContent && !old(isRendering) && Decide(url, isLoggedIn).NotFound? ==> outcome == NotFoundShown
      ensures hasContent && !old(isRendering) && Decide(url, isLoggedIn).Show? && loadFails ==> outcome == ErrorShown
      ensures hasContent && !old(isRendering) && !(Decide(url, isLoggedIn).Show? && !loadFails) ==>
        previousRoute == old(previousRoute) && currentRoute == old(currentRoute) && title == old(title)
      ensures hasContent && !old(isRendering) && Decide(url, isLoggedIn).Show? && !loadFails ==>
        outcome == Rendered(Decide(url, isLoggedIn).page, TransitionDirection(old(currentRoute), url)) &&
        previousRoute == old(currentRoute) && currentRoute == Some(url) && title == DocumentTitle(url)
    {
      if !hasContent || isRendering {
        return Skipped;
      }
      isRendering := true;
      var decision := Decide(url, isLoggedIn);
      match decision {
        case Redirect(target) =>
          hash := "#" + target;
          outcome := Redirected(hash);
        case NotFound =>
          outcome := NotFoundShown;
        case Show(page) =>
          var direction := TransitionDirection(currentRoute, url);
          if loadFails {
            outcome := ErrorShown;
          } else {
            title := DocumentTitle(url);
            previousRoute := currentRoute;
            currentRoute := Some(url);
            outcome := Rendered(page, direction);
          }
      }
      isRendering := false;
    }
  }
}
