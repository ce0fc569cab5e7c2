/**
 * Event sequences on one page, proved from the handlers' contracts alone:
 * what a visitor sees after several events in a row.
 */
module Scenarios {
  import opened Wrappers
  import Theme
  import Catalog
  import opened PageState

  /** Two clicks on the theme toggle give back the original theme; the slot holds that theme's value. */
  method ToggleTwice(p: Page)
    modifies p
    ensures p.dark == old(p.dark)
    ensures p.storedTheme == Some(Theme.StoredValue(old(p.dark)))
  {
    p.ThemeToggleClick();
    p.ThemeToggleClick();
  }

  /** After a toggle, the next page load starts with the theme the visitor chose. */
  method ReloadAfterToggle(p: Page) returns (next: Page)
    modifies p
    ensures p.dark == !old(p.dark)
    ensures next.dark == p.dark
  {
    p.ThemeToggleClick();
    next := new Page(p.storedTheme, [], [], "");
  }

  /** A nav-link click closes the menu; a second one leaves it closed. */
  method NavLinkTwice(p: Page)
    modifies p
    ensures !p.menuActive
  {
    p.NavLinkClick();
    p.NavLinkClick();
  }

  /**
   * The skill animation on a fresh page: the first scroll with the section in
   * view zeroes the bars, the timers restore them, and later scrolls leave
   * them alone.
   */
  method SkillAnimationOnce(p: Page)
    requires p.Valid() && !p.skillsAnimated
    modifies p, p.bars
    ensures p.Valid() && p.skillsAnimated
    ensures p.Widths() == old(p.Widths()) && p.pendingRestore == None
  {
    ghost var original := p.Widths();
    p.SkillsOnScroll(true);
    assert p.Widths() == Zeroed(p.bars.Length);
    p.SkillTimersFire();
    assert p.Widths() == original;
    p.SkillsOnScroll(true);
  }

  /**
   * The contact form from idle: submit, the send timer, then the hide timer.
   */
  method ContactLifecycle(p: Page)
    requires p.FormConsistent() && !p.buttonDisabled
    requires p.pendingHides == 0 && p.messageClass == MessageClass
    modifies p
    ensures p.Phase() == Idle && p.FormConsistent()
    ensures p.fields == Cleared(old(p.fields))
    ensures p.buttonLabel == old(p.buttonLabel) && !p.buttonDisabled
    ensures p.messageText == ThankYouText
  {
    ghost var original := p.buttonLabel;
    p.ContactSubmit();
    assert p.Phase() == Submitting && p.buttonDisabled && p.buttonLabel == SendingLabel;
    p.SendTimerFires();
    assert p.Phase() == Success && p.buttonLabel == original;
    p.HideTimerFires();
  }

  /**
   * The modal from closed: an unknown id leaves it closed, a known one opens
   * it, a click on its content keeps it open, and Escape closes it; a second
   * Escape finds it closed and changes nothing.
   */
  method ModalSession(p: Page, known: string, unknown: string)
    requires known in p.projects && unknown !in p.projects && !p.modalActive
    modifies p
    ensures !p.modalActive && p.bodyOverflow == "auto"
    ensures p.modalBody == Catalog.ModalHtml(p.projects[known])
  {
    p.OpenModal(unknown);
    assert !p.modalActive;
    p.OpenModal(known);
    assert p.modalActive && p.bodyOverflow == "hidden";
    p.ModalClick(false);
    assert p.modalActive;
    p.KeyDown("Escape");
    p.KeyDown("Escape");
  }
}
