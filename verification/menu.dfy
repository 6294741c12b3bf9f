/** The site-switcher menu: the `is-open` class of the switcher, the
    `aria-expanded` attribute of its toggle, and the click and key handlers
    that open and close it. */
module Menu {
  import opened Optional

  /** Where a click lands: on the toggle (whose handler stops the event
      there), elsewhere inside the switcher, or outside it. */
  datatype ClickTarget = OnToggle | InsideSwitcher | Outside

  /** Where a key press happens: on the toggle (the event then bubbles to
      the document), or anywhere else in the document. */
  datatype KeyTarget = ToggleFocused | Elsewhere

  /** The `aria-expanded` text for an open or closed menu. */
  function ExpandedText(open: bool): (t: string)
    ensures t == "true" <==> open
    ensures !open ==> t == "false"
  {
    if open then "true" else "false"
  }

  /** The menu state after a click: a click on the toggle flips it, a click
      outside the switcher closes it, any other click leaves it. */
  function AfterClick(open: bool, target: ClickTarget): (o: bool)
    ensures target == Outside ==> !o
    ensures target == OnToggle ==> o != open
    ensures target == InsideSwitcher ==> o == open
  {
    match target
    case OnToggle => !open
    case InsideSwitcher => open
    case Outside => false
  }

  /** Enter and Space on the toggle activate it. */
  predicate Activates(key: string, target: KeyTarget) {
    target == ToggleFocused && (key == "Enter" || key == " ")
  }

  /** The menu state after a key press, the toggle's handler running before
      the document's: Escape anywhere closes it, Enter or Space on the
      toggle flips it, any other key leaves it. */
  function AfterKey(open: bool, key: string, target: KeyTarget): (o: bool)
    ensures key == "Escape" ==> !o
    ensures Activates(key, target) ==> o != open
    ensures key != "Escape" && !Activates(key, target) ==> o == open
  {
    if Activates(key, target) then !open
    else if key == "Escape" then false
    else open
  }

  /** Escape closes the menu whatever state and focus it starts from, and a
      click outside the switcher does too: once closed, pressing Escape or
      clicking outside again keeps it closed. */
  lemma DismissIsIdempotent(open: bool, target: KeyTarget)
    ensures !AfterKey(AfterKey(open, "Escape", target), "Escape", target)
    ensures !AfterClick(AfterClick(open, Outside), Outside)
    ensures AfterKey(open, "Escape", target) == AfterClick(open, Outside)
  {
  }

  /** Activating the toggle twice, by click or by key, restores the menu. */
  lemma ToggleTwiceRestores(open: bool, key: string)
    requires key == "Enter" || key == " "
    ensures AfterClick(AfterClick(open, OnToggle), OnToggle) == open
    ensures AfterKey(AfterKey(open, key, ToggleFocused), key, ToggleFocused) == open
    ensures AfterKey(open, key, ToggleFocused) == AfterClick(open, OnToggle)
  {
  }

  /** The switcher and its toggle. */
  class SiteSwitcher {
    var isOpen: bool
    var ariaExpanded: Option<string>

    /** `aria-expanded` mirrors the `is-open` class. */
    predicate Mirrored()
      reads this
    {
      ariaExpanded == Some(ExpandedText(isOpen))
    }

    /** The switcher as the markup delivers it: closed, with whatever
        `aria-expanded` the markup carries. */
    constructor (ariaExpanded: Option<string>)
      ensures !isOpen && this.ariaExpanded == ariaExpanded
    {
      isOpen := false;
      this.ariaExpanded := ariaExpanded;
    }

    /** openMenu. */
    method OpenMenu()
      modifies this
      ensures isOpen && Mirrored()
    {
      isOpen := true;
      ariaExpanded := Some("true");
    }

    /** closeMenu. */
    method CloseMenu()
      modifies this
      ensures !isOpen && Mirrored()
    {
      isOpen := false;
      ariaExpanded := Some("false");
    }

    /** toggleMenu: close an open menu, open a closed one. */
    method ToggleMenu()
      modifies this
      ensures isOpen == !old(isOpen) && Mirrored()
    {
      if isOpen {
        CloseMenu();
      } else {
        OpenMenu();
      }
    }

    /** A click, as the toggle's click handler (which stops propagation) and
        the document's click handler see it. */
    method Click(target: ClickTarget)
      modifies this
      ensures isOpen == AfterClick(old(isOpen), target)
      ensures target != InsideSwitcher ==> Mirrored()
      ensures target == InsideSwitcher ==> unchanged(this)
    {
      match target
      case OnToggle =>
        ToggleMenu();
      case InsideSwitcher =>
      case Outside =>
        CloseMenu();
    }

    /** A key press, as the toggle's keydown handler and then the document's
        keydown handler see it; returns whether the default action was
        prevented (only for Enter and Space on the toggle). */
    method KeyDown(key: string, target: KeyTarget) returns (defaultPrevented: bool)
      modifies this
      ensures isOpen == AfterKey(old(isOpen), key, target)
      ensures defaultPrevented <==> Activates(key, target)
      ensures key == "Escape" || Activates(key, target) ==> Mirrored()
      ensures key != "Escape" && !Activates(key, target) ==> unchanged(this)
    {
      defaultPrevented := false;
      if target == ToggleFocused {
        if key == "Enter" || key == " " {
          defaultPrevented := true;
          ToggleMenu();
        } else if key == "Escape" {
          CloseMenu();
        }
      }
      if key == "Escape" {
        CloseMenu();
      }
    }
  }
}
