/**
 * The "Sections" dropdown: an open flag, one remembered close-timer handle,
 * the browser's table of pending close timers, and the submenu's style.
 * Layout measurements (the toggle's left offset, the submenu's width, the
 * viewport's width) arrive as integer inputs.
 */
module Dropdown {
  import opened Common

  /** Which edge the submenu is pinned to: `left: 0; right: auto` or `left: auto; right: 0`. */
  datatype Anchor = LeftEdge | RightEdge

  class Controller {
    var isOpen: bool
    /** The one remembered close-timer handle (`null` until the first close is scheduled). */
    var closeTimeout: Option<nat>
    /** Close timers scheduled and neither fired nor cleared. */
    var pending: set<nat>
    /** The handle the next scheduled timer receives. */
    var nextTimer: nat
    var display: Display
    var visible: bool
    var anchor: Anchor

    /** The open flag agrees with the submenu's display, and handles are ones already issued. */
    ghost predicate Valid()
      reads this
    {
      (isOpen <==> display == Block)
      && (isOpen ==> visible)
      && (forall t :: t in pending ==> t < nextTimer)
      && (closeTimeout.Some? ==> closeTimeout.value < nextTimer)
    }

    /** The controller as set up at start: closed, no timer remembered or pending. */
    constructor ()
      ensures Valid()
      ensures !isOpen && closeTimeout == None && pending == {} && display == Default
    {
      isOpen := false;
      closeTimeout := None;
      pending := {};
      nextTimer := 0;
      display := Default;
      visible := false;
      anchor := LeftEdge;
    }

    /**
     * Clears the remembered close timer (only that one), places the submenu
     * by the placement rule and opens it.
     */
    method ShowMenu(left: int, menuWidth: int, viewportWidth: int)
      requires Valid()
      modifies this
      ensures Valid()
      ensures isOpen && display == Block && visible
      ensures anchor == RightEdge <==> left + menuWidth > viewportWidth
      ensures pending == if old(closeTimeout).Some? then old(pending) - {old(closeTimeout).value} else old(pending)
      ensures closeTimeout == old(closeTimeout) && nextTimer == old(nextTimer)
    {
      if closeTimeout.Some? {
        pending := pending - {closeTimeout.value};
      }
      // measured while display is block and visibility hidden
      visible := false;
      display := Block;
      anchor := LeftEdge;
      if left + menuWidth > viewportWidth {
        anchor := RightEdge;
      } else {
        anchor := LeftEdge;
      }
      visible := true;
      display := Block;
      isOpen := true;
    }

    /**
     * Schedules a close and remembers its handle in place of the previous
     * one; nothing is closed yet.
     */
    method HideMenu()
      requires Valid()
      modifies this
      ensures Valid()
      ensures closeTimeout == Some(old(nextTimer)) && old(nextTimer) !in old(pending)
      ensures pending == old(pending) + {old(nextTimer)} && nextTimer == old(nextTimer) + 1
      ensures isOpen == old(isOpen) && display == old(display) && visible == old(visible) && anchor == old(anchor)
    {
      closeTimeout := Some(nextTimer);
      pending := pending + {nextTimer};
      nextTimer := nextTimer + 1;
    }

    /** A pending close timer fires: the submenu is hidden and the controller closed. */
    method OnCloseTimer(timer: nat)
      requires Valid()
      requires timer in pending
      modifies this
      ensures Valid()
      ensures !isOpen && display == DisplayNone
      ensures pending == old(pending) - {timer}
      ensures closeTimeout == old(closeTimeout) && nextTimer == old(nextTimer)
      ensures anchor == old(anchor) && visible == old(visible)
    {
      pending := pending - {timer};
      display := DisplayNone;
      isOpen := false;
    }

    /** A click on the toggle: schedules a close when open, opens when closed. */
    method OnToggleClick(left: int, menuWidth: int, viewportWidth: int)
      requires Valid()
      modifies this
      ensures Valid()
      ensures old(isOpen) ==> (isOpen && display == old(display) && visible == old(visible) && anchor == old(anchor)
        && closeTimeout == Some(old(nextTimer))
        && pending == old(pending) + {old(nextTimer)} && nextTimer == old(nextTimer) + 1)
      ensures !old(isOpen) ==> (isOpen && visible && (anchor == RightEdge <==> left + menuWidth > viewportWidth)
        && pending == (if old(closeTimeout).Some? then old(pending) - {old(closeTimeout).value} else old(pending))
        && closeTimeout == old(closeTimeout) && nextTimer == old(nextTimer))
    {
      if isOpen {
        HideMenu();
      } else {
        ShowMenu(left, menuWidth, viewportWidth);
      }
    }

    /**
     * A click anywhere in the document: outside the dropdown it schedules a
     * close, whether or not the menu is open; inside it does nothing.
     */
    method OnDocumentClick(insideDropdown: bool)
      requires Valid()
      modifies this
      ensures Valid()
      ensures isOpen == old(isOpen) && display == old(display) && visible == old(visible) && anchor == old(anchor)
      ensures !insideDropdown ==> (closeTimeout == Some(old(nextTimer))
        && pending == old(pending) + {old(nextTimer)} && nextTimer == old(nextTimer) + 1)
      ensures insideDropdown ==> closeTimeout == old(closeTimeout) && pending == old(pending) && nextTimer == old(nextTimer)
    {
      if !insideDropdown {
        HideMenu();
      }
    }

    /** A viewport resize re-places the submenu only when it is open. */
    method OnResize(left: int, menuWidth: int, viewportWidth: int)
      requires Valid()
      modifies this
      ensures Valid()
      ensures isOpen == old(isOpen) && nextTimer == old(nextTimer) && closeTimeout == old(closeTimeout)
      ensures old(isOpen) ==> ((anchor == RightEdge <==> left + menuWidth > viewportWidth)
        && pending == (if old(closeTimeout).Some? then old(pending) - {old(closeTimeout).value} else old(pending)))
      ensures !old(isOpen) ==> (pending == old(pending) && anchor == old(anchor) && display == old(display)
        && visible == old(visible))
    {
      if isOpen {
        ShowMenu(left, menuWidth, viewportWidth);
      }
    }
  }

  /**
   * Because only the latest handle is remembered, an earlier close timer
   * survives `ShowMenu`: two outside clicks followed by a toggle click open
   * the menu, and the first click's timer then closes it again.
   */
  method StaleCloseTimer() returns (openAfterToggle: bool, openAfterFirstTimer: bool)
    ensures openAfterToggle && !openAfterFirstTimer
  {
    var d := new Controller();
    d.OnDocumentClick(false);
    var first := d.closeTimeout.value;
    d.OnDocumentClick(false);
    d.OnToggleClick(0, 200, 1000);
    openAfterToggle := d.isOpen;
    d.OnCloseTimer(first);
    openAfterFirstTimer := d.isOpen;
  }

  /**
   * With a single close scheduled, re-showing the menu cancels it: after an
   * outside click and a resize the menu is open and that timer can no
   * longer fire.
   */
  method SingleCloseCancelled() returns (open: bool, closeStillPending: bool)
    ensures open && !closeStillPending
  {
    var d := new Controller();
    d.OnToggleClick(900, 200, 1000);
    d.OnDocumentClick(false);
    var timer := d.closeTimeout.value;
    d.OnResize(900, 200, 1000);
    open := d.isOpen;
    closeStillPending := timer in d.pending;
  }
}
