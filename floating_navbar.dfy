/**
 * The floating navigation bar: it hides while the page scrolls down and
 * reappears when the page scrolls up or comes near the top. Each scroll
 * event is one atomic call carrying the new vertical offset.
 */
module FloatingNavbar {

  datatype NavItem = NavItem(name: string, href: string)

  /** Offsets strictly below this keep the bar shown whatever the direction. */
  const TopZone := 100

  /** The visibility `controlNavbar` chooses for a move from `lastScrollY` to `currentScrollY`. */
  function ShowsBar(lastScrollY: int, currentScrollY: int): (r: bool)
    ensures currentScrollY < TopZone ==> r
    ensures currentScrollY >= TopZone ==> (r <==> currentScrollY < lastScrollY)
  {
    currentScrollY < lastScrollY || currentScrollY < TopZone
  }

  /** How a link is drawn: highlighted, and with the moving indicator behind it. */
  datatype LinkLook = LinkLook(highlighted: bool, indicator: bool)

  /** A link is highlighted, and carries the indicator, exactly when it points at the current path. */
  function LinkLookFor(item: NavItem, pathname: string): (r: LinkLook)
    ensures r.highlighted <==> pathname == item.href
    ensures r.indicator == r.highlighted
  {
    var active := pathname == item.href;
    LinkLook(active, active)
  }

  class FloatingBar {
    var visible: bool
    var lastScrollY: int

    /** Mounted shown, remembering offset 0. */
    constructor ()
      ensures visible && lastScrollY == 0
    {
      visible := true;
      lastScrollY := 0;
    }

    /** `controlNavbar`, run on each scroll event with `window.scrollY`. */
    method OnScroll(currentScrollY: int)
      modifies this
      ensures visible == ShowsBar(old(lastScrollY), currentScrollY)
      ensures lastScrollY == currentScrollY
    {
      if currentScrollY < lastScrollY || currentScrollY < TopZone {
        visible := true;
      } else {
        visible := false;
      }
      lastScrollY := currentScrollY;
    }
  }

  /** Two events at one offset at or past the top zone leave the bar hidden, however it was before. */
  method ScrollTwiceTo(bar: FloatingBar, y: int)
    requires y >= TopZone
    modifies bar
    ensures !bar.visible && bar.lastScrollY == y
  {
    bar.OnScroll(y);
    bar.OnScroll(y);
  }
}
