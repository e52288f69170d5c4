/**
 * The main navigation bar: a fixed list of links, a background that turns
 * solid once the page has scrolled, and a mobile menu that the menu button
 * opens and closes and that closes whenever the route changes.
 */
module Navbar {
  import opened Seqs

  datatype NavItem = NavItem(name: string, href: string)

  /** The links, in the order they are rendered. */
  const NavItems: seq<NavItem> := [
    NavItem("Home", "/"),
    NavItem("About", "/about"),
    NavItem("Services", "/services"),
    NavItem("Products", "/products"),
    NavItem("Careers", "/careers"),
    NavItem("Blog", "/blog"),
    NavItem("Contact", "/contact")
  ]

  /** Offsets strictly above this count as scrolled. */
  const ScrollThreshold := 50

  /** `window.scrollY > 50`. */
  function IsScrolled(scrollY: int): (r: bool)
    ensures r ==> scrollY >= ScrollThreshold + 1
    ensures !r ==> scrollY <= ScrollThreshold
  {
    scrollY > ScrollThreshold
  }

  /** A link is highlighted when the current path is its `href`. */
  predicate IsActive(item: NavItem, pathname: string) {
    pathname == item.href
  }

  predicate HrefsDistinct(items: seq<NavItem>) {
    forall i, j :: 0 <= i < j < |items| ==> items[i].href != items[j].href
  }

  /** The highlighted links for `pathname`: the links whose `href` is the path, and all of them. */
  function ActiveLinks(items: seq<NavItem>, pathname: string): (r: seq<NavItem>)
    ensures forall i :: 0 <= i < |r| ==> r[i] in items && r[i].href == pathname
    ensures forall i :: 0 <= i < |items| && items[i].href == pathname ==> items[i] in r
  {
    Filter(items, item => IsActive(item, pathname))
  }

  /** With distinct `href`s, at most one link is highlighted. */
  lemma {:induction false} AtMostOneActive(items: seq<NavItem>, pathname: string)
    requires HrefsDistinct(items)
    ensures |ActiveLinks(items, pathname)| <= 1
  {
    if items != [] {
      assert HrefsDistinct(items[1..]);
      AtMostOneActive(items[1..], pathname);
      if IsActive(items[0], pathname) {
        forall k | 0 <= k < |items[1..]| ensures !IsActive(items[1..][k], pathname) {
          assert items[1..][k] == items[k + 1];
        }
        FilterKeepsNone(items[1..], item => IsActive(item, pathname));
      }
    }
  }

  /** The site's links have distinct targets; each route highlights exactly its own link. */
  lemma NavItemsHighlightOne(k: nat)
    requires k < |NavItems|
    ensures HrefsDistinct(NavItems)
    ensures ActiveLinks(NavItems, NavItems[k].href) == [NavItems[k]]
  {
    assert HrefsDistinct(NavItems);
    AtMostOneActive(NavItems, NavItems[k].href);
    assert NavItems[k] in ActiveLinks(NavItems, NavItems[k].href);
  }

  class MainNavbar {
    var isOpen: bool
    var scrolled: bool

    /** Mounted with the menu closed and the background transparent. */
    constructor ()
      ensures !isOpen && !scrolled
    {
      isOpen := false;
      scrolled := false;
    }

    /** `handleScroll`: never touches the menu. */
    method OnScroll(scrollY: int)
      modifies this
      ensures scrolled == IsScrolled(scrollY)
      ensures isOpen == old(isOpen)
    {
      scrolled := scrollY > ScrollThreshold;
    }

    /** The mobile menu button: flips the menu, never touches the background. */
    method ToggleMenu()
      modifies this
      ensures isOpen == !old(isOpen)
      ensures scrolled == old(scrolled)
    {
      isOpen := !isOpen;
    }

    /** The effect keyed on the location: a route change closes the menu. */
    method OnRouteChange()
      modifies this
      ensures !isOpen
      ensures scrolled == old(scrolled)
    {
      isOpen := false;
    }
  }

  /** Two presses of the menu button restore the menu to how it was. */
  method ToggleTwice(nav: MainNavbar)
    modifies nav
    ensures nav.isOpen == old(nav.isOpen) && nav.scrolled == old(nav.scrolled)
  {
    nav.ToggleMenu();
    nav.ToggleMenu();
  }
}
