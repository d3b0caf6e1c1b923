/** The application shell: the route table from pathnames to pages, the one-way boot flag
    cleared by a single timer, the scroll-to-origin effect on every pathname change, and the
    page content that ties the header, the effect and the routes to one router location. */
module App {
  import Navigation

  datatype Page =
    | IndexPage | AboutPage | ExperiencePage | ExpertisePage | EducationPage
    | PublicationsPage | LanguagesPage | ContactPage | NotFoundPage

  datatype RouteEntry = RouteEntry(path: string, page: Page)

  /** The exact-path routes, in the order they are declared; the catch-all `*` is not an
      entry but the NotFound fallback of Lookup. */
  const RouteTable: seq<RouteEntry> := [
    RouteEntry("/", IndexPage),
    RouteEntry("/about", AboutPage),
    RouteEntry("/experience", ExperiencePage),
    RouteEntry("/expertise", ExpertisePage),
    RouteEntry("/education", EducationPage),
    RouteEntry("/publications", PublicationsPage),
    RouteEntry("/languages", LanguagesPage),
    RouteEntry("/contact", ContactPage)
  ]

  /** The page of the first entry whose path is exactly `path`, or NotFound when none is
      (LookupSpec, LookupAt). */
  function Lookup(table: seq<RouteEntry>, path: string): Page
    decreases |table|
  {
    if table == [] then NotFoundPage
    else if table[0].path == path then table[0].page
    else Lookup(table[1..], path)
  }

  /** A page that is found comes from an entry with that very path; with no such entry the
      result is NotFound. */
  lemma {:induction false} LookupSpec(table: seq<RouteEntry>, path: string)
    ensures var p := Lookup(table, path);
            p == NotFoundPage || exists i :: 0 <= i < |table| && table[i] == RouteEntry(path, p)
    ensures (forall i :: 0 <= i < |table| ==> table[i].path != path) ==> Lookup(table, path) == NotFoundPage
    decreases |table|
  {
    if table != [] && table[0].path != path {
      LookupSpec(table[1..], path);
      assert forall i :: 1 <= i < |table| ==> table[i] == table[1..][i - 1];
    }
  }

  /** The first entry with the path decides the page. */
  lemma {:induction false} LookupAt(table: seq<RouteEntry>, path: string, i: nat)
    requires i < |table| && table[i].path == path
    requires forall j :: 0 <= j < i ==> table[j].path != path
    ensures Lookup(table, path) == table[i].page
    decreases i
  {
    if i > 0 {
      assert table[1..][i - 1] == table[i];
      assert forall j :: 0 <= j < i - 1 ==> table[1..][j] == table[j + 1];
      LookupAt(table[1..], path, i - 1);
    }
  }

  /** The page the router renders for a pathname. */
  function Route(path: string): Page
  {
    Lookup(RouteTable, path)
  }

  /** The path each routed page is declared under, written out page by page; NotFound has
      none. */
  function PathOf(page: Page): (r: string)
    requires page != NotFoundPage
    ensures r != []
  {
    match page
    case IndexPage => "/"
    case AboutPage => "/about"
    case ExperiencePage => "/experience"
    case ExpertisePage => "/expertise"
    case EducationPage => "/education"
    case PublicationsPage => "/publications"
    case LanguagesPage => "/languages"
    case ContactPage => "/contact"
  }

  /** The routes and the header's links list the same paths in the same order, and each
      entry routes a real page under the path PathOf gives it. */
  lemma TableAgrees()
    ensures |Navigation.NavLinks| == |RouteTable|
    ensures forall i :: 0 <= i < |RouteTable| ==> Navigation.NavLinks[i].path == RouteTable[i].path
    ensures forall i :: 0 <= i < |RouteTable| ==>
              RouteTable[i].page != NotFoundPage && RouteTable[i].path == PathOf(RouteTable[i].page)
  {
  }

  /** Each declared path reaches its own page, and every other pathname reaches NotFound. */
  lemma RouteIsTable(path: string)
    ensures forall i :: 0 <= i < |RouteTable| ==> Route(RouteTable[i].path) == RouteTable[i].page
    ensures (forall i :: 0 <= i < |RouteTable| ==> RouteTable[i].path != path) ==> Route(path) == NotFoundPage
  {
    TableAgrees();
    Navigation.NavPathsDistinct();
    forall i | 0 <= i < |RouteTable|
      ensures Route(RouteTable[i].path) == RouteTable[i].page
    {
      LookupAt(RouteTable, RouteTable[i].path, i);
    }
    LookupSpec(RouteTable, path);
  }

  /** Every routed page is reached from its declared path. */
  lemma RoutePathOf(page: Page)
    requires page != NotFoundPage
    ensures Route(PathOf(page)) == page
  {
    RouteIsTable(PathOf(page));
    TableAgrees();
    var i := match page
      case IndexPage => 0
      case AboutPage => 1
      case ExperiencePage => 2
      case ExpertisePage => 3
      case EducationPage => 4
      case PublicationsPage => 5
      case LanguagesPage => 6
      case ContactPage => 7;
    assert RouteTable[i].page == page;
  }

  /** A pathname that reaches a page is that page's declared path: under exact matching no
      other spelling, and no longer path with it as a prefix, reaches it. */
  lemma PathOfRoute(path: string)
    requires Route(path) != NotFoundPage
    ensures PathOf(Route(path)) == path
  {
    LookupSpec(RouteTable, path);
    TableAgrees();
  }

  /** The eight routed pages are eight different pages. */
  lemma PagesDistinct()
    ensures forall i, j :: 0 <= i < j < |RouteTable| ==> RouteTable[i].page != RouteTable[j].page
  {
  }

  /** Every header link leads to a real page, and the pathnames that reach a real page are
      exactly the header's paths. */
  lemma NavLinksRouted()
    ensures forall i :: 0 <= i < |Navigation.NavLinks| ==> Route(Navigation.NavLinks[i].path) != NotFoundPage
    ensures forall path :: Route(path) != NotFoundPage <==> Navigation.Listed(path)
  {
    TableAgrees();
    RouteIsTable("");
    forall path
      ensures Route(path) != NotFoundPage <==> Navigation.Listed(path)
    {
      LookupSpec(RouteTable, path);
      if Route(path) != NotFoundPage {
        var i :| 0 <= i < |RouteTable| && RouteTable[i] == RouteEntry(path, Route(path));
        assert Navigation.NavLinks[i].path == path;
      }
    }
  }

  // ---------------------------------------------------------------------------
  // The boot flag

  /** The boot timer: waiting, already fired, or cancelled before firing. */
  datatype TimerState = Pending | Fired | Cancelled

  /** The root component's `isLoading` cell and the timer its mount effect starts. The
      loading screen is shown while `isLoading` holds. */
  class AppShell {
    var isLoading: bool
    var timer: TimerState

    /** The flag is down exactly when the timer has fired. */
    ghost predicate Valid()
      reads this
    {
      !isLoading <==> timer == Fired
    }

    /** Mounting: loading, with the 2000 ms timer started. */
    constructor ()
      ensures Valid() && isLoading && timer == Pending
    {
      isLoading := true;
      timer := Pending;
    }

    /** The timer's callback runs once, if it was neither run nor cancelled: loading ends. */
    method TimerElapsed()
      requires Valid()
      modifies this
      ensures Valid()
      ensures old(timer) == Pending ==> !isLoading && timer == Fired
      ensures old(timer) != Pending ==> isLoading == old(isLoading) && timer == old(timer)
      ensures !old(isLoading) ==> !isLoading
    {
      if timer == Pending {
        isLoading := false;
        timer := Fired;
      }
    }

    /** Unmounting: the effect's cleanup clears the timer; a pending one will never fire. */
    method Teardown()
      requires Valid()
      modifies this
      ensures Valid()
      ensures timer == if old(timer) == Pending then Cancelled else old(timer)
      ensures isLoading == old(isLoading)
    {
      if timer == Pending {
        timer := Cancelled;
      }
    }
  }

  // ---------------------------------------------------------------------------
  // Scroll to top

  /** The effect component that scrolls the window to the origin. `calls` logs each
      `window.scrollTo` as its coordinates; `seen` is the sequence of pathnames the effect ran
      for (each differs from the one before). */
  class ScrollToTop {
    var pathname: string
    ghost var calls: seq<(int, int)>
    ghost var seen: seq<string>

    /** One call per pathname seen, always to the origin. */
    ghost predicate Valid()
      reads this
    {
      && |calls| == |seen|
      && seen != [] && seen[|seen| - 1] == pathname
      && (forall k :: 0 <= k < |calls| ==> calls[k] == (0, 0))
      && (forall k :: 0 < k < |seen| ==> seen[k] != seen[k - 1])
    }

    /** Mounting: the effect runs once for the first pathname. */
    constructor (pathname: string)
      ensures Valid() && this.pathname == pathname
      ensures calls == [(0, 0)] && seen == [pathname]
    {
      this.pathname := pathname;
      calls := [(0, 0)];
      seen := [pathname];
    }

    /** A new router location: the effect runs again exactly when the pathname differs. */
    method LocationChanged(p: string)
      requires Valid()
      modifies this
      ensures Valid() && pathname == p
      ensures calls == old(calls) + (if p != old(pathname) then [(0, 0)] else [])
      ensures seen == old(seen) + (if p != old(pathname) then [p] else [])
    {
      if p != pathname {
        calls := calls + [(0, 0)];
        seen := seen + [p];
      }
      pathname := p;
    }
  }

  // ---------------------------------------------------------------------------
  // The page content

  /** The content under the router: the scroll effect, the header and the routed page all
      follow one router location. */
  class AppContent {
    const scroller: ScrollToTop
    const nav: Navigation.NavigationState
    var pathname: string

    ghost predicate Valid()
      reads this, scroller, nav
    {
      && scroller.Valid()
      && scroller.pathname == pathname
      && nav.pathname == pathname
    }

    constructor (pathname: string)
      ensures Valid() && fresh(scroller) && fresh(nav) && this.pathname == pathname
      ensures scroller.calls == [(0, 0)]
      ensures !nav.isOpen && !nav.isScrolled && nav.listening
    {
      this.pathname := pathname;
      scroller := new ScrollToTop(pathname);
      nav := new Navigation.NavigationState(pathname);
    }

    /** The page the router shows now. */
    function CurrentPage(): Page
      reads this
    {
      Route(pathname)
    }

    /** Following a link or typing an address: on a new pathname the menu is closed and the
        window is scrolled to the origin exactly once; the same pathname changes nothing. */
    method Navigate(to: string)
      requires Valid()
      modifies this, scroller, nav
      ensures Valid() && pathname == to && CurrentPage() == Route(to)
      ensures to != old(pathname) ==> !nav.isOpen && scroller.calls == old(scroller.calls) + [(0, 0)]
      ensures to == old(pathname) ==> nav.isOpen == old(nav.isOpen) && scroller.calls == old(scroller.calls)
      ensures nav.isScrolled == old(nav.isScrolled) && nav.listening == old(nav.listening)
    {
      scroller.LocationChanged(to);
      nav.LocationChanged(to);
      pathname := to;
    }
  }

  /** Opening the menu and following the "About" link closes it, scrolls once and shows the
      About page; following the same link again scrolls no more. */
  method NavigationExample()
  {
    var app := new AppContent("/");
    app.nav.ToggleMenu();
    app.Navigate(Navigation.NavLinks[1].path);
    RoutePathOf(AboutPage);
    assert app.CurrentPage() == AboutPage;
    assert !app.nav.isOpen && app.scroller.calls == [(0, 0), (0, 0)];
    app.Navigate("/about");
    assert app.scroller.calls == [(0, 0), (0, 0)];
  }
}
