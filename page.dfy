/**
 * The page's view state and its event handlers. Each browser event the
 * script listens for is a method of `Page`; every `setTimeout` callback is a
 * separate "timer fires" method, so an event sequence is a sequence of calls.
 */
module PageState {
  import opened Wrappers
  import Theme
  import Scrolling
  import Catalog

  const SendingLabel := "Sending..."
  const MessageClass := "form-message"
  const SuccessClass := "form-message success"
  const ThankYouText := "Thank you for your message! I'll get back to you soon."
  const ZeroWidth := "0"

  /** What the contact form shows, read off the page state. */
  datatype FormPhase = Idle | Submitting | Success

  /** The value every control of the form takes on reset. */
  function Cleared(fields: seq<string>): (r: seq<string>)
    ensures |r| == |fields|
    ensures forall i :: 0 <= i < |r| ==> r[i] == ""
  {
    seq(|fields|, _ => "")
  }

  /** The width every skill bar is given when the animation starts. */
  function Zeroed(n: nat): (r: seq<string>)
    ensures |r| == n
    ensures forall i :: 0 <= i < n ==> r[i] == ZeroWidth
  {
    seq(n, _ => ZeroWidth)
  }

  class Page {
    // Theme: whether the body carries `dark-theme`, and the storage slot "theme".
    var dark: bool
    var storedTheme: Option<string>

    // Navigation: whether the menu carries `active`, and the destinations
    // passed to `window.scrollTo`, oldest first.
    var menuActive: bool
    var scrollRequests: seq<int>

    // Scroll effects.
    var navbarScrolled: bool
    var lastScroll: int
    var scrollTopVisible: bool

    // Skill bars: each bar's inline width, the one-shot flag, and the widths
    // captured by the restore timers that are still pending.
    const bars: array<string>
    var skillsAnimated: bool
    var pendingRestore: Option<seq<string>>

    // Project modal: the catalog it reads, whether it carries `active`, the
    // body's `overflow` style and the modal body's markup.
    const projects: map<string, Catalog.Project>
    var modalActive: bool
    var bodyOverflow: string
    var modalBody: string

    // Contact form: the controls' values, the submit button, the message
    // element, the label captured by the pending send timer, if any, and the
    // number of pending hide timers.
    var fields: seq<string>
    var buttonLabel: string
    var buttonDisabled: bool
    var messageClass: string
    var messageText: string
    var pendingSend: Option<string>
    var pendingHides: nat

    /** Restore timers exist only after the one-shot animation ran, one per bar. */
    ghost predicate Valid()
      reads this
    {
      pendingRestore.Some? ==> skillsAnimated && |pendingRestore.value| == bars.Length
    }

    /**
     * The submit button is disabled exactly while the send timer is pending.
     */
    ghost predicate FormConsistent()
      reads this
    {
      buttonDisabled <==> pendingSend.Some?
    }

    /** The inline widths of the skill bars, in document order. */
    function Widths(): seq<string>
      reads this, bars
    {
      bars[..]
    }

    /** The phase of the contact form. */
    function Phase(): (ph: FormPhase)
      reads this
      ensures ph == Submitting <==> pendingSend.Some?
      ensures ph == Success <==> pendingSend.None? && messageClass == SuccessClass
    {
      if pendingSend.Some? then Submitting
      else if messageClass == SuccessClass then Success
      else Idle
    }

    /**
     * Page load: the theme comes from the stored preference; everything else
     * is in the state the markup gives it (menu closed, navbar unstyled,
     * scroll-to-top hidden, modal closed, message hidden).
     */
    constructor (stored: Option<string>, widths: seq<string>, formFields: seq<string>, submitLabel: string)
      ensures Valid() && FormConsistent()
      ensures dark == Theme.InitiallyDark(stored) && storedTheme == stored
      ensures !menuActive && scrollRequests == []
      ensures !navbarScrolled && lastScroll == 0 && !scrollTopVisible
      ensures fresh(bars) && bars[..] == widths && !skillsAnimated && pendingRestore == None
      ensures projects == Catalog.Projects() && !modalActive && bodyOverflow == "" && modalBody == ""
      ensures fields == formFields && buttonLabel == submitLabel && !buttonDisabled
      ensures messageClass == MessageClass && messageText == ""
      ensures pendingSend == None && pendingHides == 0
    {
      dark := Theme.InitiallyDark(stored);
      storedTheme := stored;
      menuActive := false;
      scrollRequests := [];
      navbarScrolled := false;
      lastScroll := 0;
      scrollTopVisible := false;
      bars := new string[|widths|](i requires 0 <= i < |widths| => widths[i]);
      skillsAnimated := false;
      pendingRestore := None;
      projects := Catalog.Projects();
      modalActive := false;
      bodyOverflow := "";
      modalBody := "";
      fields := formFields;
      buttonLabel := submitLabel;
      buttonDisabled := false;
      messageClass := MessageClass;
      messageText := "";
      pendingSend := None;
      pendingHides := 0;
    }

    /** Click on the theme toggle: flip the theme and store the new one. */
    method ThemeToggleClick()
      modifies this`dark, this`storedTheme
      ensures dark == !old(dark)
      ensures storedTheme == Some(Theme.StoredValue(dark))
    {
      dark := !dark;
      storedTheme := Some(Theme.StoredValue(dark));
    }

    /** Click on the hamburger: flip the mobile menu. */
    method MobileToggleClick()
      modifies this`menuActive
      ensures menuActive == !old(menuActive)
    {
      menuActive := !menuActive;
    }

    /** Click on a nav link: the mobile menu closes, whatever its state. */
    method NavLinkClick()
      modifies this`menuActive
      ensures !menuActive
    {
      menuActive := false;
    }

    /**
     * Click on an in-page anchor whose target has `offsetTop` targetTop, or
     * does not resolve: one scroll request, or none.
     */
    method AnchorClick(targetTop: Option<int>)
      modifies this`scrollRequests
      ensures targetTop.Some? ==> scrollRequests == old(scrollRequests) + [targetTop.value - Scrolling.NavbarOffset]
      ensures targetTop.None? ==> scrollRequests == old(scrollRequests)
    {
      scrollRequests := scrollRequests + Scrolling.Requests(Scrolling.ScrollDestination(targetTop));
    }

    /** The navbar's scroll listener. */
    method NavbarOnScroll(offset: int)
      modifies this`navbarScrolled, this`lastScroll
      ensures navbarScrolled <==> offset > Scrolling.NavbarThreshold
      ensures lastScroll == offset
    {
      if offset > Scrolling.NavbarThreshold {
        navbarScrolled := true;
      } else {
        navbarScrolled := false;
      }
      lastScroll := offset;
    }

    /**
     * The skills section's scroll listener. inView stands for "the section's
     * top is above 1/1.3 of the viewport height". The first time it holds,
     * every bar is set to zero width and its old width is kept for the
     * restore timer; afterwards nothing happens again.
     */
    method SkillsOnScroll(inView: bool)
      requires Valid()
      modifies this`skillsAnimated, this`pendingRestore, bars
      ensures Valid()
      ensures old(skillsAnimated) ==> skillsAnimated
      ensures inView && !old(skillsAnimated) ==>
                skillsAnimated && Widths() == Zeroed(bars.Length) && pendingRestore == Some(old(Widths()))
      ensures !(inView && !old(skillsAnimated)) ==>
                skillsAnimated == old(skillsAnimated) && Widths() == old(Widths())
                && pendingRestore == old(pendingRestore)
    {
      if inView && !skillsAnimated {
        var captured: seq<string> := [];
        for i := 0 to bars.Length
          invariant captured == old(bars[..])[..i]
          invariant forall j :: 0 <= j < i ==> bars[j] == ZeroWidth
          invariant forall j :: i <= j < bars.Length ==> bars[j] == old(bars[j])
        {
          captured := captured + [bars[i]];
          bars[i] := ZeroWidth;
        }
        assert captured == old(bars[..]);
        assert bars[..] == Zeroed(bars.Length);
        pendingRestore := Some(captured);
        skillsAnimated := true;
      }
    }

    /** The restore timers fire: every bar gets back the width captured for it. */
    method SkillTimersFire()
      requires Valid()
      modifies this`pendingRestore, bars
      ensures Valid()
      ensures old(pendingRestore).Some? ==> Widths() == old(pendingRestore).value && pendingRestore == None
      ensures old(pendingRestore).None? ==> Widths() == old(Widths()) && pendingRestore == None
    {
      match pendingRestore
      case None =>
      case Some(captured) =>
        for i := 0 to bars.Length
          invariant forall j :: 0 <= j < i ==> bars[j] == captured[j]
        {
          bars[i] := captured[i];
        }
        pendingRestore := None;
    }

    /** The scroll-to-top button's scroll listener. */
    method ScrollTopOnScroll(offset: int)
      modifies this`scrollTopVisible
      ensures scrollTopVisible <==> offset > Scrolling.ScrollTopThreshold
    {
      if offset > Scrolling.ScrollTopThreshold {
        scrollTopVisible := true;
      } else {
        scrollTopVisible := false;
      }
    }

    /** Click on the scroll-to-top button: a request to scroll to the top. */
    method ScrollTopClick()
      modifies this`scrollRequests
      ensures scrollRequests == old(scrollRequests) + [0]
    {
      scrollRequests := scrollRequests + [0];
    }

    /** One scroll event: the three scroll listeners in the order they were registered. */
    method Scroll(offset: int, skillsInView: bool)
      requires Valid()
      modifies this`navbarScrolled, this`lastScroll, this`skillsAnimated, this`pendingRestore, bars,
               this`scrollTopVisible
      ensures Valid()
      ensures navbarScrolled <==> offset > Scrolling.NavbarThreshold
      ensures lastScroll == offset
      ensures scrollTopVisible <==> offset > Scrolling.ScrollTopThreshold
      ensures scrollTopVisible ==> navbarScrolled
      ensures old(skillsAnimated) ==>
                (skillsAnimated && Widths() == old(Widths()) && pendingRestore == old(pendingRestore))
      ensures skillsInView ==> skillsAnimated
      ensures skillsInView && !old(skillsAnimated) ==>
                Widths() == Zeroed(bars.Length) && pendingRestore == Some(old(Widths()))
      ensures !skillsInView ==>
                skillsAnimated == old(skillsAnimated) && Widths() == old(Widths()) && pendingRestore == old(pendingRestore)
    {
      NavbarOnScroll(offset);
      SkillsOnScroll(skillsInView);
      ScrollTopOnScroll(offset);
    }

    /**
     * Open the modal for a project id. An id missing from the catalog changes
     * nothing; a known one renders the entry, shows the modal and locks the
     * page's scrolling.
     */
    method OpenModal(id: string)
      modifies this`modalActive, this`bodyOverflow, this`modalBody
      ensures id in projects ==>
                modalBody == Catalog.ModalHtml(projects[id]) && modalActive && bodyOverflow == "hidden"
      ensures id !in projects ==>
                modalBody == old(modalBody) && modalActive == old(modalActive) && bodyOverflow == old(bodyOverflow)
    {
      if id in projects {
        modalBody := Catalog.ModalHtml(projects[id]);
        modalActive := true;
        bodyOverflow := "hidden";
      }
    }

    /** Close the modal and give the page its scrolling back. */
    method CloseModal()
      modifies this`modalActive, this`bodyOverflow
      ensures !modalActive && bodyOverflow == "auto"
    {
      modalActive := false;
      bodyOverflow := "auto";
    }

    /** Click on a "view project" button; it stops propagation, so the card does not also react. */
    method ViewProjectClick(id: string)
      modifies this`modalActive, this`bodyOverflow, this`modalBody
      ensures id in projects ==>
                modalBody == Catalog.ModalHtml(projects[id]) && modalActive && bodyOverflow == "hidden"
      ensures id !in projects ==>
                modalBody == old(modalBody) && modalActive == old(modalActive) && bodyOverflow == old(bodyOverflow)
    {
      OpenModal(id);
    }

    /**
     * Click that reaches a project card. onViewButton tells whether the click
     * target lies inside the card's "view project" button; such a click is
     * left to that button.
     */
    method ProjectCardClick(id: string, onViewButton: bool)
      modifies this`modalActive, this`bodyOverflow, this`modalBody
      ensures !onViewButton && id in projects ==>
                modalBody == Catalog.ModalHtml(projects[id]) && modalActive && bodyOverflow == "hidden"
      ensures onViewButton || id !in projects ==>
                modalBody == old(modalBody) && modalActive == old(modalActive) && bodyOverflow == old(bodyOverflow)
    {
      if !onViewButton {
        OpenModal(id);
      }
    }

    /** Click on the modal's close button. */
    method CloseButtonClick()
      modifies this`modalActive, this`bodyOverflow
      ensures !modalActive && bodyOverflow == "auto"
    {
      CloseModal();
    }

    /** Click inside the modal: it closes only when the target is the backdrop itself. */
    method ModalClick(targetIsBackdrop: bool)
      modifies this`modalActive, this`bodyOverflow
      ensures targetIsBackdrop ==> !modalActive && bodyOverflow == "auto"
      ensures !targetIsBackdrop ==> modalActive == old(modalActive) && bodyOverflow == old(bodyOverflow)
    {
      if targetIsBackdrop {
        CloseModal();
      }
    }

    /** A key press anywhere: Escape closes the modal, only while it is shown. */
    method KeyDown(key: string)
      modifies this`modalActive, this`bodyOverflow
      ensures key == "Escape" && old(modalActive) ==> !modalActive && bodyOverflow == "auto"
      ensures !(key == "Escape" && old(modalActive)) ==>
                modalActive == old(modalActive) && bodyOverflow == old(bodyOverflow)
    {
      if key == "Escape" && modalActive {
        CloseModal();
      }
    }

    /**
     * The contact form is submitted: the button shows the busy label and is
     * disabled, and a send timer is scheduled holding the label it replaced.
     * The button is enabled, since a disabled submit button lets no
     * submission through; so no other send timer is pending.
     */
    method ContactSubmit()
      requires FormConsistent() && !buttonDisabled
      modifies this`buttonLabel, this`buttonDisabled, this`pendingSend
      ensures FormConsistent()
      ensures buttonLabel == SendingLabel && buttonDisabled
      ensures pendingSend == Some(old(buttonLabel))
    {
      var originalText := buttonLabel;
      buttonLabel := SendingLabel;
      buttonDisabled := true;
      pendingSend := Some(originalText);
    }

    /**
     * The pending send timer fires: the success message shows, the
     * form is reset, the button gets back its captured label and is enabled,
     * and a hide timer is scheduled. With no send pending nothing happens.
     */
    method SendTimerFires()
      requires FormConsistent()
      modifies this`messageClass, this`messageText, this`fields, this`buttonLabel, this`buttonDisabled,
               this`pendingSend, this`pendingHides
      ensures FormConsistent() && pendingSend == None
      ensures old(pendingSend).Some? ==>
                messageClass == SuccessClass && messageText == ThankYouText
                && fields == Cleared(old(fields))
                && buttonLabel == old(pendingSend).value && !buttonDisabled
                && pendingHides == old(pendingHides) + 1
      ensures old(pendingSend).None? ==>
                messageClass == old(messageClass) && messageText == old(messageText) && fields == old(fields)
                && buttonLabel == old(buttonLabel) && buttonDisabled == old(buttonDisabled)
                && pendingHides == old(pendingHides)
    {
      if pendingSend.None? {
        return;
      }
      var originalText := pendingSend.value;
      pendingSend := None;
      messageClass := SuccessClass;
      messageText := ThankYouText;
      fields := Cleared(fields);
      buttonLabel := originalText;
      buttonDisabled := false;
      pendingHides := pendingHides + 1;
    }

    /** A pending hide timer fires: the message loses its success class. */
    method HideTimerFires()
      requires FormConsistent()
      modifies this`messageClass, this`pendingHides
      ensures FormConsistent()
      ensures old(pendingHides) > 0 ==> messageClass == MessageClass && pendingHides == old(pendingHides) - 1
      ensures old(pendingHides) == 0 ==> messageClass == old(messageClass) && pendingHides == 0
    {
      if pendingHides > 0 {
        messageClass := MessageClass;
        pendingHides := pendingHides - 1;
      }
    }
  }
}
