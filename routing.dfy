/** The route table and the route guard (src/App.tsx). */
module Routing {
  import opened Collections
  import Auth

  datatype Page = IndexPage | TeamPage | ProjectsPage | DocumentsPage | MessagesPage | ReportsPage
                | AuthPage | NotFoundPage

  /** A `<Route>`: its path, its page and whether `ProtectedRoute` wraps it. */
  datatype Route = Route(path: string, page: Page, guarded: bool)

  /** The table, in declaration order; the catch-all `*` is `Resolve`'s
      fallback. */
  const Routes: seq<Route> := [
    Route("/auth", AuthPage, false),
    Route("/", IndexPage, true),
    Route("/team", TeamPage, true),
    Route("/projects", ProjectsPage, true),
    Route("/documents", DocumentsPage, true),
    Route("/messages", MessagesPage, true),
    Route("/reports", ReportsPage, true)
  ]

  const GuardedPaths: seq<string> := ["/", "/team", "/projects", "/documents", "/messages", "/reports"]

  function HasPath(path: string): Route -> bool { (r: Route) => r.path == path }

  /** The route a path selects: the first entry with that exact path, or the
      unguarded NotFound page. */
  function Resolve(path: string): (r: Route)
    ensures (exists i :: 0 <= i < |Routes| && Routes[i].path == path) ==> r.path == path && r in Routes
    ensures (forall i :: 0 <= i < |Routes| ==> Routes[i].path != path) ==> r == Route(path, NotFoundPage, false)
  {
    match Find(Routes, HasPath(path))
    case Some(route) => route
    case None => Route(path, NotFoundPage, false)
  }

  /** What `ProtectedRoute` shows. */
  datatype Decision = ShowLoading | Allow | RedirectTo(target: string)

  const LoginPath := "/auth"

  function Guard(loading: bool, user: Option<Auth.AuthUser>): (d: Decision)
    ensures d == ShowLoading <==> loading
    ensures d == Allow <==> !loading && user.Some?
    ensures d == RedirectTo(LoginPath) <==> !loading && user.None?
  {
    if loading then ShowLoading else if user.Some? then Allow else RedirectTo(LoginPath)
  }

  /** What the app shows for a path in an auth state. */
  datatype Screen = LoadingScreen | PageScreen(page: Page) | Navigate(target: string)

  function View(path: string, state: Auth.AuthState): Screen
  {
    var route := Resolve(path);
    if !route.guarded then PageScreen(route.page)
    else match Guard(state.loading, state.user)
      case ShowLoading => LoadingScreen
      case Allow => PageScreen(route.page)
      case RedirectTo(target) => Navigate(target)
  }

  /** The login page renders in every auth state. */
  lemma AuthPageUnguarded(state: Auth.AuthState)
    ensures View(LoginPath, state) == PageScreen(AuthPage)
  {
    ResolveFindsEntry(0);
  }

  /** The table's paths are the login path followed by the six feature
      paths, and no two entries share a path. */
  lemma RoutePaths()
    ensures Routes[0].path == LoginPath && !Routes[0].guarded
    ensures |Routes| == |GuardedPaths| + 1
    ensures forall k :: 0 <= k < |GuardedPaths| ==> Routes[k + 1].path == GuardedPaths[k] && Routes[k + 1].guarded
    ensures forall i, j :: 0 <= i < j < |Routes| ==> Routes[i].path != Routes[j].path
  {
  }

  /** With distinct paths, a path in the table selects its own entry. */
  lemma ResolveFindsEntry(i: nat)
    requires i < |Routes|
    ensures Resolve(Routes[i].path) == Routes[i]
  {
    RoutePaths();
    var path := Routes[i].path;
    var r := Resolve(path);
    var j :| 0 <= j < |Routes| && Routes[j] == r;
    assert Routes[j].path == path;
  }

  /** The six feature routes are all guarded: each shows the loading screen
      while loading, its page for a signed-in user, and the login redirect
      otherwise. */
  lemma FeatureRoutesGuarded(k: nat, state: Auth.AuthState)
    requires k < |GuardedPaths|
    ensures Resolve(GuardedPaths[k]).guarded
    ensures state.loading ==> View(GuardedPaths[k], state) == LoadingScreen
    ensures !state.loading && state.user.Some? ==>
              View(GuardedPaths[k], state) == PageScreen(Resolve(GuardedPaths[k]).page)
    ensures !state.loading && state.user.None? ==> View(GuardedPaths[k], state) == Navigate(LoginPath)
  {
    RoutePaths();
    ResolveFindsEntry(k + 1);
  }

  /** Any other path shows NotFound, signed in or not. */
  lemma UnknownPathNotFound(path: string, state: Auth.AuthState)
    requires path != LoginPath
    requires forall k :: 0 <= k < |GuardedPaths| ==> GuardedPaths[k] != path
    ensures View(path, state) == PageScreen(NotFoundPage)
  {
    RoutePaths();
    forall i | 0 <= i < |Routes| ensures Routes[i].path != path {
      if i > 0 {
        assert Routes[(i - 1) + 1].path == GuardedPaths[i - 1];
      }
    }
  }

  /** The guard only ever redirects to a page that renders without it, so
      a redirect cannot loop. */
  lemma RedirectLandsOnUnguardedPage(path: string, state: Auth.AuthState, other: Auth.AuthState)
    requires View(path, state).Navigate?
    ensures View(View(path, state).target, other) == PageScreen(AuthPage)
  {
    AuthPageUnguarded(other);
  }

  /** Signing out ends in the login redirect on a feature route: the
      auth-change event that follows the remote sign-out clears the user and
      the loading flag. */
  method SignOutThenVisit(provider: Auth.AuthProvider, k: nat) returns (screen: Screen)
    requires k < |GuardedPaths|
    modifies provider
    ensures screen == Navigate(LoginPath)
    ensures provider.user.None? && !provider.loading
  {
    var _ := provider.SignOut();
    provider.OnAuthStateChange(None);
    FeatureRoutesGuarded(k, provider.State());
    screen := View(GuardedPaths[k], provider.State());
  }
}
