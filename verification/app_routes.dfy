/**
 * The client router: the `ProtectedRoute` guard and the route table it wraps.
 * A guarded route shows a spinner while the session is being restored, sends
 * a visitor without a session to the login page and a user whose role is not
 * listed to the dashboard, and otherwise renders the route's element.
 */
module AppRoutes {
  import opened Js
  import opened Records

  const LOGIN := "/login"
  const DASHBOARD := "/dashboard"

  datatype Page = LoginPage | DashboardPage | UsersPage | StoresPage | ProductsPage | ProfilePage

  /** What the router shows for a location: a spinner, a redirect to another location, a page, or nothing. */
  datatype Screen = Spinner | Redirect(to: string) | Render(page: Page) | Blank

  /** A route: its path, whether `ProtectedRoute` wraps it (with its optional role list), and its element. */
  datatype Route = Route(path: string, guarded: bool, roles: Option<seq<string>>, element: Screen)

  /** The route table, in declaration order. The root path's element navigates to the dashboard. */
  const ROUTES: seq<Route> := [
    Route(LOGIN, false, None, Render(LoginPage)),
    Route("/", true, None, Redirect(DASHBOARD)),
    Route(DASHBOARD, true, None, Render(DashboardPage)),
    Route("/users", true, Some([ADMIN]), Render(UsersPage)),
    Route("/stores", true, None, Render(StoresPage)),
    Route("/products", true, None, Render(ProductsPage)),
    Route("/profile", true, None, Render(ProfilePage))
  ]

  /**
   * `ProtectedRoute`: the loading flag wins, then a missing user, then a role
   * list that does not name the user's role (an empty list names none).
   */
  function Guard(loading: bool, user: Option<PublicUser>, roles: Option<seq<string>>, element: Screen): (v: Screen)
    ensures loading ==> v == Spinner
    ensures !loading && user.None? ==> v == Redirect(LOGIN)
    ensures !loading && user.Some? && roles.Some? && user.value.role !in roles.value ==> v == Redirect(DASHBOARD)
    ensures !loading && user.Some? && (roles.None? || user.value.role in roles.value) ==> v == element
  {
    if loading then Spinner
    else if user.None? then Redirect(LOGIN)
    else if roles.Some? && user.value.role !in roles.value then Redirect(DASHBOARD)
    else element
  }

  /** The path without its trailing slashes. */
  function Trimmed(p: string): (t: string)
    ensures t <= p
    ensures t == [] || t[|t| - 1] != '/'
    ensures forall i :: |t| <= i < |p| ==> p[i] == '/'
    decreases |p|
  {
    if p != [] && p[|p| - 1] == '/' then Trimmed(p[..|p| - 1]) else p
  }

  /** What route matching compares: the path with trailing slashes dropped and ASCII case folded. */
  function Key(p: string): string {
    Lower(Trimmed(p))
  }

  /**
   * A route path matches a location the way React Router matches by default:
   * ignoring case and any trailing slashes.
   */
  predicate Matches(routePath: string, path: string) {
    Key(routePath) == Key(path)
  }

  /** The first route whose path matches `path`. */
  function Lookup(routes: seq<Route>, path: string): (r: Option<Route>)
    ensures r.None? <==> forall x :: x in routes ==> !Matches(x.path, path)
    ensures r.Some? ==> r.value in routes && Matches(r.value.path, path)
  {
    var i := FindIndex(routes, (x: Route) => Matches(x.path, path));
    if i < 0 then None else Some(routes[i])
  }

  /** Two locations with the same key find the same route. */
  lemma LookupByKey(routes: seq<Route>, p: string, q: string)
    requires Key(p) == Key(q)
    ensures Lookup(routes, p) == Lookup(routes, q)
  {
    var i := FindIndex(routes, (x: Route) => Matches(x.path, p));
    if i >= 0 {
      LookupFinds(routes, q, i);
    }
  }

  /**
   * The login page's own check: a signed-in user is sent on to the dashboard
   * and anybody else gets the form. It does not look at the loading flag.
   */
  function LoginScreen(user: Option<PublicUser>): (v: Screen)
    ensures v == Redirect(DASHBOARD) <==> user.Some?
    ensures v == Render(LoginPage) <==> user.None?
  {
    if user.Some? then Redirect(DASHBOARD) else Render(LoginPage)
  }

  /**
   * What visiting `path` shows: nothing for a path that matches no route, the
   * guard around a guarded route's element, and the login page's own check on
   * the one route without a guard.
   */
  function Visit(path: string, loading: bool, user: Option<PublicUser>): (v: Screen)
    ensures (forall x :: x in ROUTES ==> !Matches(x.path, path)) ==> v == Blank
    ensures Matches(LOGIN, path) ==> (v == Redirect(DASHBOARD) <==> user.Some?)
    ensures Matches(LOGIN, path) && user.None? ==> v == Render(LoginPage)
  {
    match Lookup(ROUTES, path)
    case None => Blank
    case Some(r) =>
      if r.guarded then Guard(loading, user, r.roles, r.element)
      else if r.element == Render(LoginPage) then LoginScreen(user)
      else r.element
  }

  /** Locations that differ only in letter case or trailing slashes show the same screen. */
  lemma VisitByKey(p: string, q: string, loading: bool, user: Option<PublicUser>)
    requires Key(p) == Key(q)
    ensures Visit(p, loading, user) == Visit(q, loading, user)
  {
    LookupByKey(ROUTES, p, q);
  }

  /** `/Users/` is the same guarded page as `/users`. */
  lemma UsersPathVariants(loading: bool, user: Option<PublicUser>)
    ensures Visit("/Users/", loading, user) == Visit("/users", loading, user)
  {
    assert Trimmed("/Users/") == "/Users";
    assert Key("/Users/") == Key("/users");
    VisitByKey("/Users/", "/users", loading, user);
  }

  /** Lookup returns the route at `k` when it is the first that matches. */
  lemma LookupFinds(routes: seq<Route>, path: string, k: nat)
    requires k < |routes| && Matches(routes[k].path, path)
    requires forall j :: 0 <= j < k ==> !Matches(routes[j].path, path)
    ensures Lookup(routes, path) == Some(routes[k])
  {
    var i := FindIndex(routes, (x: Route) => Matches(x.path, path));
    assert i == k;
  }

  /** Every route but the first, the login page, is guarded. */
  lemma OnlyLoginIsOpen(r: Route)
    requires r in ROUTES && r != ROUTES[0]
    ensures r.guarded && r.path != LOGIN && r.element != Render(LoginPage)
  {
  }

  /** Every route but the login page sends a visitor without a session to the login page. */
  lemma SignedOutGoesToLogin(path: string)
    requires !Matches(LOGIN, path) && exists x :: x in ROUTES && Matches(x.path, path)
    ensures Visit(path, false, None) == Redirect(LOGIN)
  {
    var r := Lookup(ROUTES, path);
    OnlyLoginIsOpen(r.value);
  }

  /** While the session is being restored, every route but the login page shows the spinner, whoever is signed in. */
  lemma LoadingShowsSpinner(path: string, user: Option<PublicUser>)
    requires !Matches(LOGIN, path) && exists x :: x in ROUTES && Matches(x.path, path)
    ensures Visit(path, true, user) == Spinner
  {
    var r := Lookup(ROUTES, path);
    OnlyLoginIsOpen(r.value);
  }

  /** The route keys, worked out once: they are pairwise different. */
  lemma RouteKeys()
    ensures Key(LOGIN) == LOGIN && Key("/") == "" && Key(DASHBOARD) == DASHBOARD && Key("/users") == "/users"
    ensures Key("/stores") == "/stores" && Key("/products") == "/products" && Key("/profile") == "/profile"
  {
    assert Trimmed("/") == "";
  }

  /** The user administration page renders exactly for admins; any other role is sent to the dashboard. */
  lemma OnlyAdminsSeeUsers(u: PublicUser)
    ensures Visit("/users", false, Some(u)) == Render(UsersPage) <==> u.role == ADMIN
    ensures u.role != ADMIN ==> Visit("/users", false, Some(u)) == Redirect(DASHBOARD)
  {
    RouteKeys();
    assert ROUTES[3].path == "/users";
    assert forall j :: 0 <= j < 3 ==> Key(ROUTES[j].path) != "/users";
    LookupFinds(ROUTES, "/users", 3);
    assert Visit("/users", false, Some(u)) == Guard(false, Some(u), Some([ADMIN]), Render(UsersPage));
  }

  /** A signed-in user of any role reaches the dashboard, stores, products and profile pages, each its own. */
  lemma SignedInReachesOpenPages(u: PublicUser, path: string)
    requires path in {DASHBOARD, "/stores", "/products", "/profile"}
    ensures Visit(path, false, Some(u)) == Render(
      if path == DASHBOARD then DashboardPage
      else if path == "/stores" then StoresPage
      else if path == "/products" then ProductsPage
      else ProfilePage)
  {
    RouteKeys();
    var k := if path == DASHBOARD then 2 else if path == "/stores" then 4 else if path == "/products" then 5 else 6;
    assert ROUTES[k].path == path && ROUTES[k].guarded && ROUTES[k].roles.None? && ROUTES[k].element.Render?;
    assert forall j :: 0 <= j < k ==> Key(ROUTES[j].path) != path;
    LookupFinds(ROUTES, path, k);
  }

  /** A signed-in user of any role who opens the root path is sent on to the dashboard. */
  lemma RootLeadsToDashboard(u: PublicUser)
    ensures Visit("/", false, Some(u)) == Redirect(DASHBOARD)
  {
    RouteKeys();
    LookupFinds(ROUTES, "/", 1);
  }

  /** A signed-in user never sees the login form, wherever it goes and whether or not the session is still loading. */
  lemma SignedInNeverSeesLoginForm(path: string, loading: bool, u: PublicUser)
    ensures Visit(path, loading, Some(u)) != Render(LoginPage)
  {
    var r := Lookup(ROUTES, path);
    if r.Some? && r.value != ROUTES[0] {
      OnlyLoginIsOpen(r.value);
    }
  }
}
