/**
 * The router of the front end (frontend/src/router/index.js): the route
 * table generated from the menu, the two base routes, and the navigation
 * guard that sends unauthenticated visitors to the login page.
 */
module Router {
  import opened Wrappers
  import Menu
  import MenuViews
  import ViewLoader
  import Auth

  /** The component of a route: the two statically imported views, or a lazy import of a view file. */
  datatype View = HomeView | LoginView | LazyView(file: string)

  datatype Meta = Meta(title: string, parentTitle: Option<string>)

  /** A route record; fields the source leaves out of the object literal are None. */
  datatype RouteRecord = RouteRecord(
    path: string, name: Option<string>, component: View,
    redirect: Option<string>, meta: Option<Meta>, children: Option<seq<RouteRecord>>)

  /** `s.slice(1)`: everything after the first character, "" for "". */
  function Slice1(s: string): (r: string)
    ensures s != [] ==> s == [s[0]] + r
    ensures s == [] ==> r == []
  {
    if s == [] then [] else s[1..]
  }

  /** A missing value interpolated into a template literal prints as `undefined`. */
  function TemplateText(v: Option<string>): string {
    if v.None? then "undefined" else v.value
  }

  /** `() => import(`@/views/${view}.vue`)`. */
  function LazyImport(view: string): View {
    LazyView("@/views/" + view + ".vue")
  }

  /** `generateRoutes` reads `item.children[0].path`, so a children list must not be empty. */
  predicate Generable(items: seq<Menu.MenuItem>) {
    forall i :: 0 <= i < |items| && items[i].children.Some? ==> |items[i].children.value| > 0
  }

  /** The route pushed for one child of a menu entry. */
  function ChildRoute(item: Menu.MenuItem, child: Menu.MenuChild): RouteRecord {
    RouteRecord(
      child.path, Some(Slice1(item.path) + "." + child.path), LazyImport(child.component),
      None, Some(Meta(child.name, Some(item.name))), None)
  }

  /** The route `generateRoutes` pushes for one menu entry. */
  function ItemRoute(item: Menu.MenuItem): RouteRecord
    requires item.children.Some? ==> |item.children.value| > 0
  {
    if item.children.Some? then
      var cs := item.children.value;
      RouteRecord(
        item.path, None, HomeView, Some(item.path + "/" + cs[0].path), Some(Meta(item.name, None)),
        Some(seq(|cs|, j requires 0 <= j < |cs| => ChildRoute(item, cs[j]))))
    else
      RouteRecord(
        item.path, Some(Slice1(item.path)), LazyImport(TemplateText(item.component)),
        None, Some(Meta(item.name, None)), None)
  }

  /** The route table `generateRoutes(items)` returns: one route per entry, in menu order. */
  function GeneratedRoutes(items: seq<Menu.MenuItem>): seq<RouteRecord>
    requires Generable(items)
  {
    seq(|items|, i requires 0 <= i < |items| => ItemRoute(items[i]))
  }

  /**
   * `generateRoutes(menuItems)`: walks the entries and, for an entry with
   * children, its children, pushing one route each time.
   */
  method GenerateRoutes(items: seq<Menu.MenuItem>) returns (routes: seq<RouteRecord>)
    requires Generable(items)
    ensures routes == GeneratedRoutes(items)
  {
    routes := [];
    var i := 0;
    while i < |items|
      invariant 0 <= i <= |items|
      invariant |routes| == i
      invariant forall k :: 0 <= k < i ==> routes[k] == ItemRoute(items[k])
    {
      var item := items[i];
      if item.children.Some? {
        var cs := item.children.value;
        var children: seq<RouteRecord> := [];
        var j := 0;
        while j < |cs|
          invariant 0 <= j <= |cs|
          invariant |children| == j
          invariant forall l :: 0 <= l < j ==> children[l] == ChildRoute(item, cs[l])
        {
          var child := cs[j];
          children := children + [RouteRecord(
            child.path, Some(Slice1(item.path) + "." + child.path),
            LazyView("@/views/" + child.component + ".vue"),
            None, Some(Meta(child.name, Some(item.name))), None)];
          j := j + 1;
        }
        assert children == ItemRoute(item).children.value;
        routes := routes + [RouteRecord(
          item.path, None, HomeView, Some(item.path + "/" + cs[0].path),
          Some(Meta(item.name, None)), Some(children))];
      } else {
        routes := routes + [RouteRecord(
          item.path, Some(Slice1(item.path)),
          LazyView("@/views/" + TemplateText(item.component) + ".vue"),
          None, Some(Meta(item.name, None)), None)];
      }
      i := i + 1;
    }
  }

  /** A well-formed menu never makes `generateRoutes` read past an empty children list. */
  lemma WellFormedIsGenerable(items: seq<Menu.MenuItem>)
    requires Menu.WellFormed(items)
    ensures Generable(items)
  {
    forall i | 0 <= i < |items| && items[i].children.Some?
      ensures |items[i].children.value| > 0
    {
      assert Menu.WellFormedItem(items[i]);
    }
  }

  /**
   * The routes follow the menu: same number and order, same paths and
   * titles; an entry has child routes exactly when it has children, one
   * per child in order, each titled by the child and carrying the entry's
   * name as parent title.
   */
  lemma GeneratedRoutesFollowMenu(items: seq<Menu.MenuItem>)
    requires Generable(items)
    ensures var r := GeneratedRoutes(items);
      && |r| == |items|
      && (forall i :: 0 <= i < |r| ==>
            && r[i].path == items[i].path
            && r[i].meta == Some(Meta(items[i].name, None))
            && (r[i].children.Some? <==> items[i].children.Some?))
      && (forall i, j :: 0 <= i < |r| && items[i].children.Some? && 0 <= j < |items[i].children.value| ==>
            && |r[i].children.value| == |items[i].children.value|
            && r[i].children.value[j].path == items[i].children.value[j].path
            && r[i].children.value[j].meta == Some(Meta(items[i].children.value[j].name, Some(items[i].name))))
  {
  }

  // ---------------------------------------------------------------------
  // Route names

  /** The position of the first `c` in `s`, or `|s|` when there is none. */
  function IndexOfChar(s: string, c: char): (r: int)
    ensures 0 <= r <= |s|
    decreases |s|
  {
    if s == [] then 0 else if s[0] == c then 0 else 1 + IndexOfChar(s[1..], c)
  }

  lemma {:induction false} IndexAfterPrefix(a: string, c: char, x: string)
    requires c !in a
    ensures IndexOfChar(a + [c] + x, c) == |a|
    decreases |a|
  {
    if a != [] {
      assert (a + [c] + x)[1..] == a[1..] + [c] + x;
      IndexAfterPrefix(a[1..], c, x);
    }
  }

  /** `a.b` names are split unambiguously at the first dot when `a` has none. */
  lemma DotJoinDistinct(a: string, x: string, b: string, y: string)
    requires '.' !in a && '.' !in b
    requires a != b || x != y
    ensures a + "." + x != b + "." + y
  {
    var s, t := a + "." + x, b + "." + y;
    IndexAfterPrefix(a, '.', x);
    IndexAfterPrefix(b, '.', y);
    assert s[..|a|] == a && t[..|b|] == b;
    assert s[|a| + 1..] == x && t[|b| + 1..] == y;
  }

  /** Two absolute paths that differ still differ without their leading slash. */
  lemma Slice1Distinct(p: string, q: string)
    requires |p| > 0 && |q| > 0 && p[0] == q[0] && p != q
    ensures Slice1(p) != Slice1(q)
  {
  }

  lemma DotFreeSlice(p: string)
    requires '.' !in p
    ensures '.' !in Slice1(p)
  {
    if p != [] {
      assert forall k :: 0 <= k < |Slice1(p)| ==> Slice1(p)[k] == p[k + 1];
    }
  }

  predicate ChildAt(routes: seq<RouteRecord>, i: int, j: int) {
    0 <= i < |routes| && routes[i].children.Some? && 0 <= j < |routes[i].children.value|
  }

  function ChildName(routes: seq<RouteRecord>, i: int, j: int): Option<string>
    requires ChildAt(routes, i, j)
  {
    routes[i].children.value[j].name
  }

  /**
   * No two routes share a name: top-level names differ from each other and
   * from child names, and child names differ across the whole table.
   */
  ghost predicate NamesDistinct(routes: seq<RouteRecord>) {
    && (forall i, k :: 0 <= i < k < |routes| && routes[i].name.Some? ==> routes[i].name != routes[k].name)
    && (forall i, j, k, l {:trigger ChildAt(routes, i, j), ChildAt(routes, k, l)} ::
          ChildAt(routes, i, j) && ChildAt(routes, k, l) && (i != k || j != l) ==>
          ChildName(routes, i, j) != ChildName(routes, k, l))
    && (forall i, k, l :: 0 <= i < |routes| && routes[i].name.Some? && ChildAt(routes, k, l) ==>
          routes[i].name != ChildName(routes, k, l))
  }

  lemma ChildNamesDiffer(items: seq<Menu.MenuItem>, i: int, j: int, k: int, l: int)
    requires Menu.WellFormed(items) && Generable(items)
    requires ChildAt(GeneratedRoutes(items), i, j) && ChildAt(GeneratedRoutes(items), k, l)
    requires i != k || j != l
    ensures ChildName(GeneratedRoutes(items), i, j) != ChildName(GeneratedRoutes(items), k, l)
  {
    var r := GeneratedRoutes(items);
    var a, b := items[i], items[k];
    assert Menu.WellFormedItem(a) && Menu.WellFormedItem(b);
    var x, y := a.children.value[j].path, b.children.value[l].path;
    assert ChildName(r, i, j) == Some(Slice1(a.path) + "." + x);
    assert ChildName(r, k, l) == Some(Slice1(b.path) + "." + y);
    DotFreeSlice(a.path);
    DotFreeSlice(b.path);
    if i != k {
      assert a.path != b.path by {
        if i < k { } else { }
      }
      Slice1Distinct(a.path, b.path);
    } else {
      assert Menu.WellFormedChildren(a.children.value);
      assert x != y by {
        if j < l { } else { }
      }
    }
    DotJoinDistinct(Slice1(a.path), x, Slice1(b.path), y);
  }

  lemma TopNameDiffersFromChild(items: seq<Menu.MenuItem>, i: int, k: int, l: int)
    requires Menu.WellFormed(items) && Generable(items)
    requires 0 <= i < |GeneratedRoutes(items)| && GeneratedRoutes(items)[i].name.Some?
    requires ChildAt(GeneratedRoutes(items), k, l)
    ensures GeneratedRoutes(items)[i].name != ChildName(GeneratedRoutes(items), k, l)
  {
    var r := GeneratedRoutes(items);
    assert Menu.WellFormedItem(items[i]) && Menu.WellFormedItem(items[k]);
    DotFreeSlice(items[i].path);
    var child := Slice1(items[k].path) + "." + items[k].children.value[l].path;
    assert child[|Slice1(items[k].path)|] == '.';
    assert r[i].name == Some(Slice1(items[i].path));
  }

  /**
   * For a well-formed menu the generated route names are all distinct, so
   * no named route shadows another.
   */
  lemma GeneratedNamesDistinct(items: seq<Menu.MenuItem>)
    requires Menu.WellFormed(items)
    ensures Generable(items) && NamesDistinct(GeneratedRoutes(items))
  {
    WellFormedIsGenerable(items);
    var r := GeneratedRoutes(items);
    forall i, k | 0 <= i < k < |r| && r[i].name.Some?
      ensures r[i].name != r[k].name
    {
      assert Menu.WellFormedItem(items[i]) && Menu.WellFormedItem(items[k]);
      Slice1Distinct(items[i].path, items[k].path);
    }
    forall i, j, k, l | ChildAt(r, i, j) && ChildAt(r, k, l) && (i != k || j != l)
      ensures ChildName(r, i, j) != ChildName(r, k, l)
    {
      ChildNamesDiffer(items, i, j, k, l);
    }
    forall i, k, l | 0 <= i < |r| && r[i].name.Some? && ChildAt(r, k, l)
      ensures r[i].name != ChildName(r, k, l)
    {
      TopNameDiffersFromChild(items, i, k, l);
    }
  }

  /**
   * A parent route redirects to the full path of its first child route,
   * so the redirect always lands on a route of the table.
   */
  lemma ParentRedirectsToFirstChild(items: seq<Menu.MenuItem>, i: int)
    requires Generable(items) && 0 <= i < |items|
    requires GeneratedRoutes(items)[i].children.Some?
    ensures var p := GeneratedRoutes(items)[i];
      && |p.children.value| > 0
      && p.redirect == Some(p.path + "/" + p.children.value[0].path)
      && p.component == HomeView && p.name.None?
  {
  }

  /** For the real menu every lazily imported view is one `loadView` resolves to the same file. */
  lemma MenuRoutesLoadThroughTable()
    ensures Generable(Menu.MenuItems())
    ensures var items, r := Menu.MenuItems(), GeneratedRoutes(Menu.MenuItems());
      && (forall i :: 0 <= i < |r| && items[i].component.Some? ==>
            && ViewLoader.LoadView(items[i].component.value).Ok?
            && r[i].component == LazyView(ViewLoader.LoadView(items[i].component.value).value))
      && (forall i, j :: ChildAt(r, i, j) ==>
            && ViewLoader.LoadView(items[i].children.value[j].component).Ok?
            && r[i].children.value[j].component == LazyView(ViewLoader.LoadView(items[i].children.value[j].component).value))
  {
    var items := Menu.MenuItems();
    Menu.MenuIsWellFormed();
    WellFormedIsGenerable(items);
    MenuViews.MenuViewsAreKeys();
    var r := GeneratedRoutes(items);
    forall i, j | ChildAt(r, i, j)
      ensures ViewLoader.LoadView(items[i].children.value[j].component).Ok?
    {
      assert MenuViews.ViewsAreKeys(items[i]);
      assert items[i].children.value[j] in items[i].children.value;
    }
  }

  // ---------------------------------------------------------------------
  // Base routes

  const LoginRoute := RouteRecord("/login", Some("login"), LoginView, None, Some(Meta("登录", None)), None)

  /** `baseRoutes`: the login page and the root layout holding the generated routes. */
  function BaseRoutes(): (routes: seq<RouteRecord>)
    ensures |routes| == 2 && routes[0].name != routes[1].name
    ensures routes[1].children.Some? && NamesDistinct(routes[1].children.value)
  {
    Menu.MenuIsWellFormed();
    GeneratedNamesDistinct(Menu.MenuItems());
    [ LoginRoute,
      RouteRecord("/", Some("root"), HomeView, Some("/dashboard"), None, Some(GeneratedRoutes(Menu.MenuItems()))) ]
  }

  /**
   * The top level has exactly the login route and the root route; the root
   * redirect `/dashboard` lands on a generated route that renders a view
   * and redirects no further.
   */
  lemma RootRedirectResolves()
    ensures var b := BaseRoutes();
      && |b| == 2 && b[0].path == "/login" && b[0].name == Some("login")
      && b[1].path == "/" && b[1].name == Some("root") && b[1].children.Some?
      && b[1].redirect.Some?
      && exists i :: 0 <= i < |b[1].children.value| && b[1].children.value[i].path == b[1].redirect.value
           && b[1].children.value[i].redirect.None?
           && b[1].children.value[i].component == LazyView(ViewLoader.ViewFile("Dashboard"))
  {
    Menu.MenuIsWellFormed();
    WellFormedIsGenerable(Menu.MenuItems());
    var r := GeneratedRoutes(Menu.MenuItems());
    assert Menu.MenuItems()[0] == Menu.DashboardItem();
    assert r[0].path == "/dashboard";
  }

  // ---------------------------------------------------------------------
  // Navigation guard

  datatype Navigation = Proceed | RedirectTo(target: string)

  /**
   * `router.beforeEach`: the login page is open only without a token and
   * every other page only with one; the redirect goes to `/` or `/login`.
   */
  function BeforeEach(toPath: string, token: Option<string>): (nav: Navigation)
    ensures nav == Proceed <==> ((toPath == "/login") == !Auth.Truthy(token))
    ensures nav.RedirectTo? ==> nav.target == (if Auth.Truthy(token) then "/" else "/login")
  {
    if toPath == "/login" then
      if Auth.Truthy(token) then RedirectTo("/") else Proceed
    else
      if Auth.Truthy(token) then Proceed else RedirectTo("/login")
  }

  /** A redirect of the guard is never redirected again: one hop settles every navigation. */
  lemma GuardSettles(toPath: string, token: Option<string>)
    requires BeforeEach(toPath, token).RedirectTo?
    ensures BeforeEach(BeforeEach(toPath, token).target, token) == Proceed
  {
  }

  /** Once the session is cleared, only the login page can be reached. */
  lemma ClearedSessionReachesOnlyLogin(items: map<string, string>, toPath: string)
    ensures var token := Auth.TokenOf(items - {Auth.TokenKey, Auth.UserInfoKey});
      BeforeEach(toPath, token) == (if toPath == "/login" then Proceed else RedirectTo("/login"))
  {
    Auth.ClearAuthForgetsSession(items);
  }
}
