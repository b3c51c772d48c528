/** The application shell: which sidebar navigation item is highlighted for
    the current location, and the sidebar's collapse toggle. The location's
    pathname comes from the router and is a parameter here. */
module Layout {
  import opened Text

  datatype NavItem = NavItem(path: string, caption: string)

  const NavItems: seq<NavItem> := [
    NavItem("/", "Home"),
    NavItem("/sandbox", "Sandbox"),
    NavItem("/missions", "Mission Builder"),
    NavItem("/analytics", "Analytics"),
    NavItem("/educator", "Educator")
  ]

  /** The paths the router serves. */
  const RoutePaths: seq<string> :=
    ["/", "/sandbox", "/missions", "/missions/result", "/analytics", "/educator"]

  /** isActive: the root item is highlighted only at the root itself, every
      other item exactly where its path is a prefix of the pathname. */
  predicate IsActive(pathname: string, path: string): (b: bool)
    ensures path == "/" ==> (b <==> pathname == "/")
    ensures path != "/" ==> (b <==> path <= pathname)
  {
    if path == "/" then pathname == "/" else StartsWith(pathname, path)
  }

  /** The items among `items` highlighted at `pathname`, in order. */
  function ActiveAmong(items: seq<NavItem>, pathname: string): (r: seq<NavItem>)
    ensures |r| <= |items|
    ensures forall it :: it in r <==> it in items && IsActive(pathname, it.path)
  {
    if items == [] then []
    else (if IsActive(pathname, items[0].path) then [items[0]] else [])
         + ActiveAmong(items[1..], pathname)
  }


  /** The match is by characters, not by path segments: the Mission Builder
      item is highlighted on the result page, and also on "/missionsX". */
  lemma PrefixMatchIsNotSegmentAware()
    ensures IsActive("/missions/result", "/missions")
    ensures IsActive("/missionsX", "/missions")
  {
    assert "/missions/result"[..9] == "/missions";
    assert "/missionsX"[..9] == "/missions";
  }

  /** A highlighted item other than Home fixes the pathname's second character. */
  lemma ActiveFixesSecondChar(pathname: string, k: nat)
    requires 1 <= k < |NavItems| && IsActive(pathname, NavItems[k].path)
    ensures |pathname| >= 2 && pathname[1] == NavItems[k].path[1]
  {
    var path := NavItems[k].path;
    assert |path| >= 2 && pathname[..|path|] == path;
    assert pathname[1] == pathname[..|path|][1];
  }

  /** No two sidebar items are highlighted at the same pathname. */
  lemma Exclusive(pathname: string, i: nat, j: nat)
    requires i < j < |NavItems|
    ensures !(IsActive(pathname, NavItems[i].path) && IsActive(pathname, NavItems[j].path))
  {
    if IsActive(pathname, NavItems[i].path) && IsActive(pathname, NavItems[j].path) {
      ActiveFixesSecondChar(pathname, j);
      if i > 0 {
        ActiveFixesSecondChar(pathname, i);
      }
      assert false;
    }
  }

  lemma {:induction false} NoneActiveAmong(items: seq<NavItem>, pathname: string)
    requires forall it :: it in items ==> !IsActive(pathname, it.path)
    ensures ActiveAmong(items, pathname) == []
  {
    if items != [] {
      assert items[0] in items;
      NoneActiveAmong(items[1..], pathname);
    }
  }

  lemma {:induction false} AtMostOneAmong(items: seq<NavItem>, pathname: string)
    requires forall i, j :: 0 <= i < j < |items| ==>
               !(IsActive(pathname, items[i].path) && IsActive(pathname, items[j].path))
    ensures |ActiveAmong(items, pathname)| <= 1
  {
    if items != [] {
      var rest := ActiveAmong(items[1..], pathname);
      AtMostOneAmong(items[1..], pathname);
      if IsActive(pathname, items[0].path) {
        forall it | it in items[1..] ensures !IsActive(pathname, it.path) {
          var k :| 0 <= k < |items[1..]| && items[1..][k] == it;
          assert items[k + 1] == it;
        }
        NoneActiveAmong(items[1..], pathname);
      }
    }
  }

  /** At any location at most one sidebar item is highlighted. */
  lemma AtMostOneActive(pathname: string)
    ensures |ActiveAmong(NavItems, pathname)| <= 1
  {
    forall i, j | 0 <= i < j < |NavItems|
      ensures !(IsActive(pathname, NavItems[i].path) && IsActive(pathname, NavItems[j].path))
    {
      Exclusive(pathname, i, j);
    }
    AtMostOneAmong(NavItems, pathname);
  }

  /** The highlighted sidebar items at `pathname`: those whose path is
      active, and never more than one. */
  function ActiveItems(pathname: string): (r: seq<NavItem>)
    ensures |r| <= 1
    ensures forall it :: it in r <==> it in NavItems && IsActive(pathname, it.path)
  {
    AtMostOneActive(pathname);
    ActiveAmong(NavItems, pathname)
  }

  /** When item `k` is highlighted it is the only one. */
  lemma OnlyActive(pathname: string, k: nat)
    requires k < |NavItems| && IsActive(pathname, NavItems[k].path)
    ensures ActiveItems(pathname) == [NavItems[k]]
  {
    var it := NavItems[k];
    assert it in NavItems;
    SoleMember(ActiveItems(pathname), it);
  }

  lemma SoleMember(r: seq<NavItem>, it: NavItem)
    requires |r| <= 1 && it in r
    ensures r == [it]
  {
  }

  /** At the root Home is the only highlighted item. */
  lemma HomeOnlyAtRoot()
    ensures ActiveItems("/") == [NavItems[0]]
  {
    OnlyActive("/", 0);
  }

  /** The index of the sidebar item each served route should highlight. */
  const RouteItem: seq<nat> := [0, 1, 2, 2, 3, 4]

  /** Every route the router serves highlights exactly one sidebar item; the
      result page "/missions/result" highlights Mission Builder. */
  lemma RouteHighlightsOneItem(r: nat)
    requires r < |RoutePaths|
    ensures ActiveItems(RoutePaths[r]) == [NavItems[RouteItem[r]]]
  {
    var k := RouteItem[r];
    if k > 0 {
      var path := NavItems[k].path;
      assert RoutePaths[r][..|path|] == path;
    }
    OnlyActive(RoutePaths[r], k);
  }

  /** The sidebar's collapse flag. */
  class Sidebar {
    var collapsed: bool

    /** The sidebar starts expanded. */
    constructor ()
      ensures !collapsed
    {
      collapsed := false;
    }

    /** A click on the toggle button negates the flag. */
    method Toggle()
      modifies this
      ensures collapsed == !old(collapsed)
    {
      collapsed := !collapsed;
    }
  }

  /** Two clicks on the toggle restore the original state. */
  method ToggleTwiceRestores(sidebar: Sidebar)
    modifies sidebar
    ensures sidebar.collapsed == old(sidebar.collapsed)
  {
    sidebar.Toggle();
    sidebar.Toggle();
  }
}
