/**
 * The application's routes: a guard that shows a page only to the right audience (public pages
 * to visitors without a user, private pages to logged-in users) and otherwise redirects, and
 * the table that assigns a guarded element to each path.
 */
module Routes {
  import opened Wrappers

  /** The screens the route table can show. */
  datatype Page = LoginPage | ComposerPage

  /** What a guarded route shows when it lets the visitor in: a page or a redirect. */
  datatype Child = Screen(page: Page) | NavigateTo(target: string)

  /** A route's element: a guarded route (with the optional `pub` flag) or a bare redirect. */
  datatype Element = ApplicationRoute(pub: Option<bool>, children: Child) | Redirect(to: string)

  datatype Route = Route(path: string, element: Element)

  /** The guard's verdict. */
  datatype Decision = RenderChildren | RedirectTo(path: string)

  /** The catch-all path of the route table. */
  const CatchAll: string := "*"

  /** The route table, in declaration order. */
  const Router: seq<Route> := [
    Route("/login", ApplicationRoute(Some(true), Screen(LoginPage))),
    Route("/app", ApplicationRoute(None, Screen(ComposerPage))),
    Route("/", ApplicationRoute(None, NavigateTo("/app"))),
    Route(CatchAll, Redirect("/"))
  ]

  /**
   * The guard of a route: its children are shown exactly when the route's audience (public when
   * `pub`, which defaults to false) is the visitor's; otherwise a logged-in user goes to `/` and
   * a visitor without a user to `/login`.
   */
  function Guard(pub: Option<bool>, hasUser: bool): (d: Decision)
    ensures d == RenderChildren <==> pub.GetOr(false) == !hasUser
    ensures d.RedirectTo? ==> d.path == (if hasUser then "/" else "/login")
  {
    if pub.GetOr(false) == !hasUser then RenderChildren
    else RedirectTo(if hasUser then "/" else "/login")
  }

  /** The two ways the guard turns a visitor away. */
  lemma GuardRedirects(hasUser: bool)
    ensures Guard(Some(true), true) == RedirectTo("/")
    ensures Guard(None, false) == RedirectTo("/login") && Guard(Some(false), false) == RedirectTo("/login")
    ensures Guard(None, hasUser) == Guard(Some(false), hasUser)
  {
  }

  /** The element of the first route whose path is `path`, falling back to the catch-all route. */
  function Match(routes: seq<Route>, path: string): Option<Element> {
    if routes == [] then None
    else if routes[0].path == path || routes[0].path == CatchAll then Some(routes[0].element)
    else Match(routes[1..], path)
  }

  /** The route table matches every path; the three named paths get their own guarded element. */
  lemma {:induction false} RouterTable(path: string)
    ensures Match(Router, path) == Some(
              if path == "/login" then ApplicationRoute(Some(true), Screen(LoginPage))
              else if path == "/app" then ApplicationRoute(None, Screen(ComposerPage))
              else if path == "/" then ApplicationRoute(None, NavigateTo("/app"))
              else Redirect("/"))
  {
    var rest1 := Router[1..];
    var rest2 := rest1[1..];
    var rest3 := rest2[1..];
    assert rest1[0].path == "/app" && rest2[0].path == "/";
    assert rest3 == [Route(CatchAll, Redirect("/"))];
    if path != "/login" {
      assert Match(Router, path) == Match(rest1, path);
      if path != "/app" {
        assert Match(rest1, path) == Match(rest2, path);
        if path != "/" {
          assert Match(rest2, path) == Match(rest3, path);
        }
      }
    }
  }

  /** What one route renders for a visitor: a page, or the path it navigates to. */
  datatype Rendered = Shown(page: Page) | Navigated(to: string)

  /** What a route element renders for a visitor with or without a user. */
  function Render(element: Element, hasUser: bool): (r: Rendered)
    ensures element.ApplicationRoute? && element.children.Screen? ==>
              (r.Shown? <==> element.pub.GetOr(false) == !hasUser)
    ensures element.ApplicationRoute? && element.pub.GetOr(false) == !hasUser ==>
              r == (match element.children
                    case Screen(page) => Shown(page)
                    case NavigateTo(to) => Navigated(to))
    ensures element.ApplicationRoute? && element.pub.GetOr(false) != !hasUser ==>
              r == Navigated(if hasUser then "/" else "/login")
    ensures element.Redirect? ==> r == Navigated(element.to)
  {
    match element
    case Redirect(to) => Navigated(to)
    case ApplicationRoute(pub, children) =>
      match Guard(pub, hasUser)
      case RedirectTo(to) => Navigated(to)
      case RenderChildren =>
        match children
        case Screen(page) => Shown(page)
        case NavigateTo(to) => Navigated(to)
  }

  /** Follows redirects from `path` for at most `hops` steps; `None` when no page is reached. */
  function Resolve(path: string, hasUser: bool, hops: nat): Option<Page>
    decreases hops
  {
    match Match(Router, path)
    case None => None
    case Some(element) =>
      match Render(element, hasUser)
      case Shown(page) => Some(page)
      case Navigated(to) => if hops == 0 then None else Resolve(to, hasUser, hops - 1)
  }

  /**
   * Every path, after at most three redirects, shows the composer to a logged-in user and the
   * login page to a visitor without a user: the guards never send anyone round in a loop.
   */
  lemma EveryPathLands(path: string, hasUser: bool)
    ensures Resolve(path, hasUser, 3) == Some(if hasUser then ComposerPage else LoginPage)
  {
    RouterTable(path);
    RouterTable("/");
    RouterTable("/app");
    RouterTable("/login");
  }
}
