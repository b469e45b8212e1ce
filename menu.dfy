/**
 * The mobile navigation toggle: an open/closed flag owned by the
 * controller, mirrored by the `active` class of the toggle button.
 */
module Menu {

  const ActiveClass := "active"

  class MobileMenu {
    /** Whether the navigation menu is shown as an overlay. */
    var isOpen: bool
    /** The class list of the toggle button. */
    var toggleClasses: set<string>
    /** Whether the page has a `.nav-menu` element. */
    const hasNavMenu: bool

    /** The button's `active` class shows the flag. */
    predicate InSync()
      reads this
    {
      (ActiveClass in toggleClasses) == isOpen
    }

    /** Starts closed; the button keeps the classes the page gave it. */
    constructor (navMenuPresent: bool, buttonClasses: set<string>)
      ensures !isOpen
      ensures hasNavMenu == navMenuPresent
      ensures toggleClasses == buttonClasses
    {
      isOpen := false;
      hasNavMenu := navMenuPresent;
      toggleClasses := buttonClasses;
    }

    /**
     * The click handler: flips the flag, then adds or removes `active` on
     * the button. Every other class of the button is left alone.
     */
    method Toggle()
      requires hasNavMenu
      modifies this
      ensures isOpen == !old(isOpen)
      ensures InSync()
      ensures toggleClasses - {ActiveClass} == old(toggleClasses) - {ActiveClass}
    {
      isOpen := !isOpen;
      if isOpen {
        toggleClasses := toggleClasses + {ActiveClass};
      } else {
        toggleClasses := toggleClasses - {ActiveClass};
      }
    }

    /** Two clicks from a state in sync restore the flag and the button's classes. */
    method ToggleTwice()
      requires hasNavMenu && InSync()
      modifies this
      ensures isOpen == old(isOpen)
      ensures toggleClasses == old(toggleClasses)
    {
      ghost var before := toggleClasses;
      Toggle();
      Toggle();
      forall c
        ensures c in toggleClasses <==> c in before
      {
        if c != ActiveClass {
          assert c in toggleClasses <==> c in toggleClasses - {ActiveClass};
        }
      }
    }
  }
}
