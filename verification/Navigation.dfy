/** The site header: its fixed table of links, the exact-match test that marks a link as the
    current page, and the two state cells the header keeps (the mobile menu and the
    "scrolled" look). */
module Navigation {

  datatype NavLink = NavLink(path: string, name: string)  // `name` is the displayed label

  /** The header's links, in display order. */
  const NavLinks: seq<NavLink> := [
    NavLink("/", "Home"),
    NavLink("/about", "About"),
    NavLink("/experience", "Experience"),
    NavLink("/expertise", "Expertise"),
    NavLink("/education", "Education"),
    NavLink("/publications", "Publications"),
    NavLink("/languages", "Languages"),
    NavLink("/contact", "Contact")
  ]

  /** The scroll offset, in pixels, beyond which the header takes its "scrolled" look. */
  const ScrollThreshold: real := 50.0

  /** A link is highlighted exactly when its path is the current pathname: no prefix matching. */
  predicate IsActive(pathname: string, link: NavLink)
  {
    pathname == link.path
  }

  /** Whether some link of the table has this path. */
  predicate Listed(pathname: string)
  {
    exists i :: 0 <= i < |NavLinks| && NavLinks[i].path == pathname
  }

  /** The position of the link with this path, found by scanning the table from `from`, or
      -1 when no later link has it. */
  function IndexOfPath(pathname: string, from: nat): (r: int)
    requires from <= |NavLinks|
    ensures r == -1 || (from <= r < |NavLinks| && NavLinks[r].path == pathname)
    ensures r == -1 ==> forall i :: from <= i < |NavLinks| ==> NavLinks[i].path != pathname
    decreases |NavLinks| - from
  {
    if from == |NavLinks| then -1
    else if NavLinks[from].path == pathname then from
    else IndexOfPath(pathname, from + 1)
  }

  /** Scanning the table for each link's path stops at that very link. */
  lemma IndexOfOwnPath()
    ensures forall i :: 0 <= i < |NavLinks| ==> IndexOfPath(NavLinks[i].path, 0) == i
  {
    assert IndexOfPath("/", 0) == 0;
    assert IndexOfPath("/about", 0) == 1;
    assert IndexOfPath("/experience", 0) == 2;
    assert IndexOfPath("/expertise", 0) == 3;
    assert IndexOfPath("/education", 0) == 4;
    assert IndexOfPath("/publications", 0) == 5;
    assert IndexOfPath("/languages", 0) == 6;
    assert IndexOfPath("/contact", 0) == 7;
  }

  /** No two links share a path. */
  lemma NavPathsDistinct()
    ensures forall i, j :: 0 <= i < j < |NavLinks| ==> NavLinks[i].path != NavLinks[j].path
  {
    IndexOfOwnPath();
  }

  /** At most one link is highlighted, whatever the pathname. */
  lemma AtMostOneActive(pathname: string)
    ensures forall i, j :: (0 <= i < |NavLinks| && 0 <= j < |NavLinks|
              && IsActive(pathname, NavLinks[i]) && IsActive(pathname, NavLinks[j])) ==> i == j
  {
    NavPathsDistinct();
  }

  /** How many of the links from position `from` on are highlighted for a pathname. */
  function ActiveCount(pathname: string, from: nat): nat
    requires from <= |NavLinks|
    decreases |NavLinks| - from
  {
    if from == |NavLinks| then 0
    else (if IsActive(pathname, NavLinks[from]) then 1 else 0) + ActiveCount(pathname, from + 1)
  }

  lemma {:induction false} ActiveCountFrom(pathname: string, from: nat)
    requires from <= |NavLinks|
    ensures ActiveCount(pathname, from) ==
              if exists i :: from <= i < |NavLinks| && NavLinks[i].path == pathname then 1 else 0
    decreases |NavLinks| - from
  {
    if from < |NavLinks| {
      ActiveCountFrom(pathname, from + 1);
      if IsActive(pathname, NavLinks[from]) {
        NavPathsDistinct();
      } else {
        assert (exists i :: from <= i < |NavLinks| && NavLinks[i].path == pathname)
           <==> (exists i :: from + 1 <= i < |NavLinks| && NavLinks[i].path == pathname);
      }
    }
  }

  /** The header highlights exactly one link on a listed path and none on any other path. */
  lemma ActiveCountIsListed(pathname: string)
    ensures ActiveCount(pathname, 0) == if Listed(pathname) then 1 else 0
  {
    ActiveCountFrom(pathname, 0);
  }

  /** "Home" is highlighted on "/" only, not on every path that starts with "/". */
  lemma HomeOnlyOnRoot(pathname: string)
    ensures IsActive(pathname, NavLinks[0]) <==> pathname == "/"
    ensures IsActive("/about", NavLinks[1]) && !IsActive("/about", NavLinks[0])
  {
  }

  /** The header's state cells. `listening` records whether the scroll listener installed on
      mount is still registered. The pathname is the router location the header last saw. */
  class NavigationState {
    var isOpen: bool
    var isScrolled: bool
    var pathname: string
    var listening: bool

    /** Mounting: both cells start false and the scroll listener is added; the path effect's
        first run closes the (already closed) menu. */
    constructor (pathname: string)
      ensures !isOpen && !isScrolled && this.pathname == pathname && listening
    {
      isOpen := false;
      isScrolled := false;
      this.pathname := pathname;
      listening := true;
    }

    /** A scroll event reaching the listener: the header is "scrolled" exactly when the offset
        is strictly beyond 50 pixels. After unmounting the event is not heard. */
    method Scroll(scrollY: real)
      modifies this
      ensures isScrolled == if old(listening) then scrollY > ScrollThreshold else old(isScrolled)
      ensures isOpen == old(isOpen) && pathname == old(pathname) && listening == old(listening)
    {
      if listening {
        isScrolled := scrollY > ScrollThreshold;
      }
    }

    /** The menu button: flips the mobile menu. */
    method ToggleMenu()
      modifies this
      ensures isOpen == !old(isOpen)
      ensures isScrolled == old(isScrolled) && pathname == old(pathname) && listening == old(listening)
    {
      isOpen := !isOpen;
    }

    /** The router location changes: the path effect runs only when the pathname differs, and
        then closes the menu whatever its state. Following a link to the current page leaves
        the menu as it was. */
    method LocationChanged(p: string)
      modifies this
      ensures pathname == p
      ensures isOpen == if p != old(pathname) then false else old(isOpen)
      ensures isScrolled == old(isScrolled) && listening == old(listening)
    {
      if p != pathname {
        isOpen := false;
      }
      pathname := p;
    }

    /** Unmounting: the scroll effect's cleanup removes the listener. */
    method Unmount()
      modifies this
      ensures !listening
      ensures isOpen == old(isOpen) && isScrolled == old(isScrolled) && pathname == old(pathname)
    {
      listening := false;
    }

    /** The link the header currently highlights. */
    predicate Highlights(link: NavLink)
      reads this
    {
      IsActive(pathname, link)
    }
  }

  /** Scrolling to exactly 50 pixels does not count as scrolled; 50.5 does. */
  method ThresholdExample()
  {
    var nav := new NavigationState("/");
    nav.Scroll(50.0);
    assert !nav.isScrolled;
    nav.Scroll(50.5);
    assert nav.isScrolled;
    nav.ToggleMenu();
    nav.LocationChanged("/");
    assert nav.isOpen;
    nav.LocationChanged("/about");
    assert !nav.isOpen && nav.isScrolled;
    nav.Unmount();
    nav.Scroll(0.0);
    assert nav.isScrolled;
  }
}
