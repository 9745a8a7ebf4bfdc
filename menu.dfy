/**
 * The mobile navigation menu: the `active` class on the hamburger button and
 * on the navigation list, and the ARIA attributes that mirror them.
 */
module MobileMenu {
  import opened Common

  /** What the menu shows: the two `active` flags and the two ARIA attributes. */
  datatype MenuView = MenuView(
    hamburgerActive: bool,
    navActive: bool,
    ariaExpanded: string,
    ariaHidden: string)

  /** Both `active` flags agree: the button is open exactly when the list is shown. */
  predicate Consistent(v: MenuView) {
    v.hamburgerActive == v.navActive
  }

  /** The view after `toggleMobileMenu`. */
  function Toggled(v: MenuView): MenuView {
    MenuView(!v.hamburgerActive, !v.navActive, AttrText(!v.hamburgerActive), AttrText(v.hamburgerActive))
  }

  /** The closed view that the link-click and Escape handlers write. */
  const ClosedView := MenuView(false, false, "false", "true")

  /** The view written by the link-click and Escape handlers is consistent,
      closed, and its attributes say so (not expanded, hidden). */
  lemma ClosedViewDescribesClosedMenu()
    ensures Consistent(ClosedView) && !ClosedView.navActive
    ensures ClosedView.ariaExpanded == AttrText(ClosedView.navActive)
    ensures ClosedView.ariaHidden == AttrText(!ClosedView.navActive)
  {
  }

  /** Toggle keeps the flags consistent, opens iff it was closed, and the
      attributes describe the new state (expanded) and the old one (hidden). */
  lemma ToggleKeepsConsistent(v: MenuView)
    requires Consistent(v)
    ensures Consistent(Toggled(v))
    ensures Toggled(v).navActive == !v.navActive
    ensures Toggled(v).ariaExpanded == AttrText(Toggled(v).navActive)
    ensures Toggled(v).ariaHidden == AttrText(v.navActive)
  {
  }

  /** Two toggles restore the open/closed state, and leave the attributes in
      the form a single toggle writes. */
  lemma ToggleTwiceRestoresFlags(v: MenuView)
    requires Consistent(v)
    ensures Toggled(Toggled(v)).navActive == v.navActive
    ensures Toggled(Toggled(v)).hamburgerActive == v.hamburgerActive
    ensures Toggled(Toggled(v)).ariaExpanded == AttrText(v.navActive)
    ensures Toggled(Toggled(v)).ariaHidden == AttrText(!v.navActive)
  {
  }

  /** The menu object: the two DOM elements' flags and attributes, plus
      whether the Escape handler moved focus to the button. */
  class Menu {
    var hamburgerActive: bool
    var navActive: bool
    var ariaExpanded: string
    var ariaHidden: string
    var hamburgerFocused: bool

    ghost predicate Valid()
      reads this
    {
      Consistent(View())
    }

    ghost function View(): MenuView
      reads this
    {
      MenuView(hamburgerActive, navActive, ariaExpanded, ariaHidden)
    }

    /** The page loads with the menu closed; the markup supplies the initial
        ARIA attribute values. */
    constructor (expanded: string, hidden: string)
      ensures Valid()
      ensures View() == MenuView(false, false, expanded, hidden)
      ensures !hamburgerFocused
    {
      hamburgerActive, navActive := false, false;
      ariaExpanded, ariaHidden := expanded, hidden;
      hamburgerFocused := false;
    }

    /** `toggleMobileMenu`: flip both classes, then write aria-expanded from
        the new state and aria-hidden from the old one. */
    method Toggle()
      requires Valid()
      modifies this
      ensures Valid()
      ensures View() == Toggled(old(View()))
      ensures hamburgerFocused == old(hamburgerFocused)
    {
      var isActive := hamburgerActive;
      hamburgerActive := !hamburgerActive;
      navActive := !navActive;
      ariaExpanded := AttrText(!isActive);
      ariaHidden := AttrText(isActive);
      ToggleKeepsConsistent(old(View()));
    }

    /** The button's keydown handler: Enter or Space toggles, any other key
        does nothing. */
    method OnHamburgerKey(key: string)
      requires Valid()
      modifies this
      ensures Valid()
      ensures View() == if key == "Enter" || key == " " then Toggled(old(View())) else old(View())
      ensures hamburgerFocused == old(hamburgerFocused)
    {
      if key == "Enter" || key == " " {
        Toggle();
      }
    }

    /** A click on any navigation link closes the menu unconditionally. */
    method OnLinkClick()
      requires Valid()
      modifies this
      ensures Valid()
      ensures View() == ClosedView
      ensures hamburgerFocused == old(hamburgerFocused)
    {
      hamburgerActive := false;
      navActive := false;
      ariaExpanded := "false";
      ariaHidden := "true";
    }

    /** The document keydown handler: Escape closes the menu and focuses the
        button, but only when the list is shown; otherwise nothing changes. */
    method OnDocumentKey(key: string)
      requires Valid()
      modifies this
      ensures Valid()
      ensures key == "Escape" && old(navActive) ==>
        View() == ClosedView && hamburgerFocused
      ensures !(key == "Escape" && old(navActive)) ==>
        View() == old(View()) && hamburgerFocused == old(hamburgerFocused)
    {
      if key == "Escape" && navActive {
        hamburgerActive := false;
        navActive := false;
        ariaExpanded := "false";
        ariaHidden := "true";
        hamburgerFocused := true;
      }
    }
  }
}
