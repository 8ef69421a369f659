/**
 The two route tables of the client: the browser router (every page a child
 of the root layout at "/", each guarded page carrying its own optional role
 list) and the route list of the application shell (guarded pages behind the
 role-less shell guard). A path is given as its segments: "/project/42" is
 ["project", "42"] and "/" is [].
 */
module Routes {
  import opened Core
  import opened Types
  import opened RouteGuard

  /** A pattern segment: a literal, or a dynamic `:name` segment. */
  datatype Segment = Lit(text: string) | Param(name: string)

  datatype Page = Landing | Discover | Marketplace | ProjectDetails | Submit | Profile

  /** How a route is reached: directly, or through a guard with an optional role list. */
  datatype Access = Public | Guarded(allowedRoles: Option<seq<Role>>)

  datatype Route = Route(pattern: seq<Segment>, page: Page, access: Access)

  /** The root layout route and its children. */
  datatype Layout = Layout(path: string, children: seq<Route>)

  /** A dynamic segment matches any non-empty path segment. */
  predicate SegmentMatches(seg: Segment, part: string) {
    match seg
    case Lit(text) => part == text
    case Param(_) => part != ""
  }

  predicate Matches(pattern: seq<Segment>, path: seq<string>) {
    |pattern| == |path| && forall i :: 0 <= i < |pattern| ==> SegmentMatches(pattern[i], path[i])
  }

  /** The routes of the browser router, one per page. */
  const LandingRoute: Route := Route([], Landing, Public)
  const DiscoverRoute: Route := Route([Lit("discover")], Discover, Public)
  const MarketplaceRoute: Route := Route([Lit("marketplace")], Marketplace, Public)
  const ProjectRoute: Route := Route([Lit("project"), Param("id")], ProjectDetails, Guarded(None))
  const SubmitRoute: Route := Route([Lit("submit")], Submit, Guarded(Some([Seller, Admin])))
  const ProfileRoute: Route := Route([Lit("profile")], Profile, Guarded(None))

  /** The browser router: one root layout at "/" whose children are the pages. */
  const BrowserRouter: Layout := Layout("/", [
    LandingRoute, DiscoverRoute, MarketplaceRoute, ProjectRoute, SubmitRoute, ProfileRoute
  ])

  /** Every page is reached as a child of the one root layout at "/". */
  lemma EveryPageBelowRoot(p: Page)
    ensures BrowserRouter.path == "/"
    ensures exists k :: 0 <= k < |BrowserRouter.children| && BrowserRouter.children[k].page == p
  {
    var k := match p
      case Landing => 0
      case Discover => 1
      case Marketplace => 2
      case ProjectDetails => 3
      case Submit => 4
      case Profile => 5;
    assert BrowserRouter.children[k].page == p;
  }

  /** The route list of the application shell; its guard has no role list.
      It guards the marketplace and the submission page, and leaves project
      pages public. */
  const ShellRoutes: seq<Route> := [
    LandingRoute,
    DiscoverRoute,
    Route([Lit("marketplace")], Marketplace, Guarded(None)),
    Route([Lit("project"), Param("id")], ProjectDetails, Public),
    Route([Lit("submit")], Submit, Guarded(None)),
    ProfileRoute
  ]

  /** The first route of `routes` whose pattern matches `path`. */
  function Resolve(routes: seq<Route>, path: seq<string>): (r: Option<Route>)
    ensures r.Some? ==> r.value in routes && Matches(r.value.pattern, path)
    ensures r.None? ==> forall i :: 0 <= i < |routes| ==> !Matches(routes[i].pattern, path)
  {
    if |routes| == 0 then None
    else if Matches(routes[0].pattern, path) then Some(routes[0])
    else Resolve(routes[1..], path)
  }

  /** When the route at index `k` is the first to match, resolution picks it. */
  lemma {:induction false} ResolvePicksFirstMatch(routes: seq<Route>, k: nat, path: seq<string>)
    requires k < |routes| && Matches(routes[k].pattern, path)
    requires forall i :: 0 <= i < k ==> !Matches(routes[i].pattern, path)
    ensures Resolve(routes, path) == Some(routes[k])
    decreases k
  {
    if k > 0 {
      ResolvePicksFirstMatch(routes[1..], k - 1, path);
    }
  }

  /** No path matches two routes of the table, so the order of the table does
      not decide anything. */
  ghost predicate Unambiguous(routes: seq<Route>) {
    forall i, j, path ::
      0 <= i < j < |routes| && Matches(routes[i].pattern, path) ==> !Matches(routes[j].pattern, path)
  }

  /** Two patterns no single path can match: they differ in length, or in a
      literal first segment. */
  predicate Disjoint(p: seq<Segment>, q: seq<Segment>) {
    |p| != |q| || (|p| > 0 && p[0].Lit? && q[0].Lit? && p[0].text != q[0].text)
  }

  lemma DisjointPatternsShareNoPath(p: seq<Segment>, q: seq<Segment>, path: seq<string>)
    requires Disjoint(p, q) && Matches(p, path)
    ensures !Matches(q, path)
  {
    if |p| == |q| {
      assert SegmentMatches(p[0], path[0]);
    }
  }

  /** Every two routes of the table have disjoint patterns. */
  predicate PairwiseDisjoint(routes: seq<Route>) {
    forall i, j :: 0 <= i < j < |routes| ==> Disjoint(routes[i].pattern, routes[j].pattern)
  }

  /** Pairwise disjoint patterns make a table unambiguous. */
  lemma {:induction false} PairwiseDisjointIsUnambiguous(routes: seq<Route>)
    requires PairwiseDisjoint(routes)
    ensures Unambiguous(routes)
  {
    forall i, j, path | 0 <= i < j < |routes| && Matches(routes[i].pattern, path)
      ensures !Matches(routes[j].pattern, path)
    {
      DisjointPatternsShareNoPath(routes[i].pattern, routes[j].pattern, path);
    }
  }

  lemma TablesDisjoint()
    ensures PairwiseDisjoint(BrowserRouter.children)
    ensures PairwiseDisjoint(ShellRoutes)
  {
    BrowserTableDisjoint();
    ShellTableDisjoint();
  }

  /** The six page patterns both tables use, in table order. */
  const PagePatterns: seq<seq<Segment>> := [
    [], [Lit("discover")], [Lit("marketplace")], [Lit("project"), Param("id")], [Lit("submit")], [Lit("profile")]
  ]

  lemma PagePatternsDisjoint()
    ensures forall i, j :: 0 <= i < j < |PagePatterns| ==> Disjoint(PagePatterns[i], PagePatterns[j])
  {
  }

  lemma BrowserTableDisjoint()
    ensures PairwiseDisjoint(BrowserRouter.children)
  {
    assert |BrowserRouter.children| == |PagePatterns|;
    assert forall i :: 0 <= i < |PagePatterns| ==> BrowserRouter.children[i].pattern == PagePatterns[i];
    PagePatternsDisjoint();
  }

  lemma ShellTableDisjoint()
    ensures PairwiseDisjoint(ShellRoutes)
  {
    assert |ShellRoutes| == |PagePatterns|;
    assert forall i :: 0 <= i < |PagePatterns| ==> ShellRoutes[i].pattern == PagePatterns[i];
    PagePatternsDisjoint();
  }

  /** Neither table is ambiguous. */
  lemma TablesUnambiguous()
    ensures Unambiguous(BrowserRouter.children)
    ensures Unambiguous(ShellRoutes)
  {
    TablesDisjoint();
    PairwiseDisjointIsUnambiguous(BrowserRouter.children);
    PairwiseDisjointIsUnambiguous(ShellRoutes);
  }

  /** In a table of disjoint patterns, the one route that matches is the one resolved. */
  lemma ResolveUnique(routes: seq<Route>, k: nat, path: seq<string>)
    requires PairwiseDisjoint(routes)
    requires k < |routes| && Matches(routes[k].pattern, path)
    ensures Resolve(routes, path) == Some(routes[k])
  {
    forall i | 0 <= i < k
      ensures !Matches(routes[i].pattern, path)
    {
      if Matches(routes[i].pattern, path) {
        DisjointPatternsShareNoPath(routes[i].pattern, routes[k].pattern, path);
      }
    }
    ResolvePicksFirstMatch(routes, k, path);
  }

  /** The result of navigating the browser router to a path. */
  datatype Visit = NotFound | Visit(page: Page, outcome: GuardOutcome)

  /** Navigates the browser router: resolve below the root layout, then apply
      the role-aware guard of the route, if it has one. */
  function Navigate(layout: Layout, path: seq<string>, loading: bool, user: Option<User>,
                    location: Location): Visit
  {
    match Resolve(layout.children, path)
    case None => NotFound
    case Some(route) =>
      match route.access
      case Public => Visit(route.page, Render)
      case Guarded(roles) => Visit(route.page, Decide(loading, user, roles, location))
  }

  /** A path resolves, in the browser router, to the one route that matches it. */
  lemma BrowserRoute(k: nat, path: seq<string>)
    requires k < |BrowserRouter.children| && Matches(BrowserRouter.children[k].pattern, path)
    ensures Resolve(BrowserRouter.children, path) == Some(BrowserRouter.children[k])
  {
    TablesDisjoint();
    ResolveUnique(BrowserRouter.children, k, path);
  }

  /** A path resolves, in the shell's route list, to the one route that matches it. */
  lemma ShellRoute(k: nat, path: seq<string>)
    requires k < |ShellRoutes| && Matches(ShellRoutes[k].pattern, path)
    ensures Resolve(ShellRoutes, path) == Some(ShellRoutes[k])
  {
    TablesDisjoint();
    ResolveUnique(ShellRoutes, k, path);
  }

  lemma SellerAdminList(role: Role)
    ensures Includes([Seller, Admin], role) <==> role in {Seller, Admin}
  {
    if role == Seller {
      assert [Seller, Admin][0] == role;
    } else if role == Admin {
      assert [Seller, Admin][1] == role;
    }
  }

  /** In the browser router, "/submit" is the submission page, guarded with the
      roles seller and admin: it renders for exactly those roles, so a buyer or
      a plain user is sent home. */
  lemma SubmitOnlyForSellersAndAdmins(loading: bool, user: Option<User>, location: Location)
    ensures Resolve(BrowserRouter.children, ["submit"])
              == Some(Route([Lit("submit")], Submit, Guarded(Some([Seller, Admin]))))
    ensures (Navigate(BrowserRouter, ["submit"], loading, user, location) == Visit(Submit, Render))
              <==> (!loading && user.Some? && user.value.role in {Seller, Admin})
    ensures !loading && user.Some? && user.value.role in {Buyer, UserRole} ==>
              Navigate(BrowserRouter, ["submit"], loading, user, location)
                == Visit(Submit, Redirect("/", None, true))
  {
    BrowserRoute(4, ["submit"]);
    assert Navigate(BrowserRouter, ["submit"], loading, user, location)
             == Visit(Submit, Decide(loading, user, Some([Seller, Admin]), location));
    if user.Some? {
      SellerAdminList(user.value.role);
    }
  }

  /** In the browser router, a project page is guarded with no role list:
      once loading is over, any signed-in user gets it, and a visitor is sent
      home carrying the location. */
  lemma ProjectPageForAnySignedInUser(id: string, user: User, location: Location)
    requires id != ""
    ensures Navigate(BrowserRouter, ["project", id], false, Some(user), location)
              == Visit(ProjectDetails, Render)
    ensures Navigate(BrowserRouter, ["project", id], false, None, location)
              == Visit(ProjectDetails, Redirect("/", Some(location), true))
  {
    BrowserRoute(3, ["project", id]);
  }

  /** In the browser router, the profile is guarded with no role list: once
      loading is over, any signed-in user gets it and a visitor is sent home
      carrying the location; while loading, everyone sees the spinner. */
  lemma ProfileForAnySignedInUser(user: User, session: Option<User>, location: Location)
    ensures Navigate(BrowserRouter, ["profile"], false, Some(user), location)
              == Visit(Profile, Render)
    ensures Navigate(BrowserRouter, ["profile"], false, None, location)
              == Visit(Profile, Redirect("/", Some(location), true))
    ensures Navigate(BrowserRouter, ["profile"], true, session, location) == Visit(Profile, Spinner)
  {
    BrowserRoute(5, ["profile"]);
  }

  /** In the browser router, the landing, discover and marketplace pages are
      public: they render whatever the session is. */
  lemma PublicPagesOfBrowserRouter(loading: bool, user: Option<User>, location: Location)
    ensures Navigate(BrowserRouter, [], loading, user, location) == Visit(Landing, Render)
    ensures Navigate(BrowserRouter, ["discover"], loading, user, location) == Visit(Discover, Render)
    ensures Navigate(BrowserRouter, ["marketplace"], loading, user, location)
              == Visit(Marketplace, Render)
  {
    assert Resolve(BrowserRouter.children, []) == Some(BrowserRouter.children[0]) by {
      BrowserRoute(0, []);
    }
    assert Resolve(BrowserRouter.children, ["discover"]) == Some(BrowserRouter.children[1]) by {
      BrowserRoute(1, ["discover"]);
    }
    assert Resolve(BrowserRouter.children, ["marketplace"]) == Some(BrowserRouter.children[2]) by {
      BrowserRoute(2, ["marketplace"]);
    }
  }

  /** Navigates the shell's route list with the shell guard. */
  function NavigateShell(path: seq<string>, loading: bool, isAuthenticated: bool,
                         location: Location): Option<(Page, ShellOutcome)>
  {
    match Resolve(ShellRoutes, path)
    case None => None
    case Some(route) =>
      if route.access.Public? then Some((route.page, ShellRender))
      else Some((route.page, ShellDecide(loading, isAuthenticated, location)))
  }

  /** In the shell, the marketplace, submission and profile pages are guarded
      by the shell guard, with no role check. */
  lemma ShellGuardedPages(loading: bool, isAuthenticated: bool, location: Location)
    ensures NavigateShell(["marketplace"], loading, isAuthenticated, location)
              == Some((Marketplace, ShellDecide(loading, isAuthenticated, location)))
    ensures NavigateShell(["submit"], loading, isAuthenticated, location)
              == Some((Submit, ShellDecide(loading, isAuthenticated, location)))
    ensures NavigateShell(["profile"], loading, isAuthenticated, location)
              == Some((Profile, ShellDecide(loading, isAuthenticated, location)))
  {
    ShellVisit(2, ["marketplace"], loading, isAuthenticated, location);
    ShellVisit(4, ["submit"], loading, isAuthenticated, location);
    ShellVisit(5, ["profile"], loading, isAuthenticated, location);
  }

  /** In the shell, the landing, discover and project pages are public. */
  lemma ShellPublicPages(loading: bool, isAuthenticated: bool, location: Location, id: string)
    requires id != ""
    ensures NavigateShell([], loading, isAuthenticated, location) == Some((Landing, ShellRender))
    ensures NavigateShell(["discover"], loading, isAuthenticated, location)
              == Some((Discover, ShellRender))
    ensures NavigateShell(["project", id], loading, isAuthenticated, location)
              == Some((ProjectDetails, ShellRender))
  {
    ShellVisit(0, [], loading, isAuthenticated, location);
    ShellVisit(1, ["discover"], loading, isAuthenticated, location);
    ShellVisit(3, ["project", id], loading, isAuthenticated, location);
  }

  /** Navigating the shell to a path that the `k`-th route matches shows that
      route's page, through the shell guard when the route is guarded. */
  lemma ShellVisit(k: nat, path: seq<string>, loading: bool, isAuthenticated: bool, location: Location)
    requires k < |ShellRoutes| && Matches(ShellRoutes[k].pattern, path)
    ensures ShellRoutes[k].access.Public? ==>
              NavigateShell(path, loading, isAuthenticated, location) == Some((ShellRoutes[k].page, ShellRender))
    ensures ShellRoutes[k].access.Guarded? ==>
              NavigateShell(path, loading, isAuthenticated, location)
                == Some((ShellRoutes[k].page, ShellDecide(loading, isAuthenticated, location)))
  {
    ShellRoute(k, path);
  }

  /** The two tables disagree on "/submit": the shell admits every signed-in
      user, including a buyer, whom the browser router sends home. */
  lemma TablesDisagreeOnSubmit(buyer: User, location: Location)
    requires buyer.role == Buyer
    ensures NavigateShell(["submit"], false, true, location) == Some((Submit, ShellRender))
    ensures Navigate(BrowserRouter, ["submit"], false, Some(buyer), location)
              == Visit(Submit, Redirect("/", None, true))
  {
    ShellRoute(4, ["submit"]);
    SubmitOnlyForSellersAndAdmins(false, Some(buyer), location);
  }
}
