/**
 * The navigation bar of src/components/Navbar.tsx: a scrolled flag driven by
 * the window's scroll position and the mobile menu's open flag.
 */
module Navbar {

  /** Scroll offset, in CSS pixels, past which the bar counts as scrolled. */
  const ScrollThreshold: real := 10.0

  /** The value `handleScroll` gives `isScrolled` for a scroll offset. */
  predicate ScrolledAt(scrollY: real) {
    scrollY > ScrollThreshold
  }

  class Navbar {
    var isScrolled: bool
    var mobileMenuOpen: bool

    constructor ()
      ensures !isScrolled && !mobileMenuOpen
    {
      isScrolled := false;
      mobileMenuOpen := false;
    }

    method HandleScroll(scrollY: real)
      modifies this`isScrolled
      ensures isScrolled == ScrolledAt(scrollY)
    {
      if scrollY > 10.0 {
        isScrolled := true;
      } else {
        isScrolled := false;
      }
    }

    /** The menu button flips the menu. */
    method ToggleMenu()
      modifies this`mobileMenuOpen
      ensures mobileMenuOpen == !old(mobileMenuOpen)
    {
      mobileMenuOpen := !mobileMenuOpen;
    }

    /** Each section link of the mobile menu closes it; the social links and the resume button leave it open. */
    method CloseMenu()
      modifies this`mobileMenuOpen
      ensures !mobileMenuOpen
    {
      mobileMenuOpen := false;
    }

    /** The mobile menu is rendered exactly when it is open. */
    predicate MenuRendered()
      reads this
    {
      mobileMenuOpen
    }
  }

  /** Two presses of the menu button restore the menu; closing twice is closing once. */
  method TogglesCancel(nav: Navbar)
    modifies nav
    ensures nav.mobileMenuOpen == old(nav.mobileMenuOpen) && nav.isScrolled == old(nav.isScrolled)
  {
    nav.ToggleMenu();
    nav.ToggleMenu();
  }

  method CloseIdempotent(nav: Navbar)
    modifies nav
    ensures !nav.mobileMenuOpen && !nav.MenuRendered() && nav.isScrolled == old(nav.isScrolled)
  {
    nav.CloseMenu();
    nav.CloseMenu();
  }
}
