# Portfolio page view state, in Dafny

A model of the client-side script of a personal portfolio site (`script.js`):
the page's view state and the event handlers that change it. The state is one
object, `PageState.Page`, with a field per piece of visual state (theme and its
stored preference, mobile menu, navbar styling, scroll-to-top button, skill
bars, project modal, contact form). Every browser event the script listens for
is a method of `Page`, and every `setTimeout` callback is a separate "timer
fires" method, so a visit is a sequence of method calls.

Beside the class:

- `Theme`: reading the stored preference (`localStorage.getItem('theme') || 'light'`)
  and the value the toggle writes back.
- `Scrolling`: the anchor scroll destination (`offsetTop - 70`) and the two
  scroll thresholds (100 for the navbar, 300 for the scroll-to-top button).
- `Render`: the `map(...).join('')` serialiser of the modal's feature list and
  tag list, with a parser as its partner; the two are proved inverse on items
  without markup, in both directions.
- `Catalog`: the two-entry project catalog and the template the modal body
  receives, with the proof that the body shows the entry's title, features
  and technologies.
- `Scenarios`: event sequences proved from the handlers' contracts alone
  (two toggles, reload after a toggle, the one-shot skill animation, the
  contact form's idle, submitting, success, idle cycle, a modal session).

Notes on what the script does:

- The navbar threshold is 100 and the anchor offset 70; another variant of
  this script uses 50 and 80, and that variant is not modelled.
- After two theme toggles the storage slot holds `"dark"` or `"light"` for the
  original theme. That is the value stored before only when the slot already
  held one of those two strings; a missing or other value comes back as
  `"light"` (`Scenarios.ToggleTwice`).
- The script has no active-section link highlighting, so the model has none.

## Model

| member | source | states |
|---|---|---|
| `Theme.OrFallback` | script.js:8 | JavaScript `||` on the stored value: no value and the empty string give the fallback; any other string is kept |
| `Theme.InitiallyDark` | script.js:8-11 | the page starts dark exactly when the stored value is the string "dark"; no value or any other string gives light |
| `Theme.StoredValue` | script.js:17-18 | the toggle writes "dark" exactly when dark and "light" otherwise, and a page loaded from that value starts with the same theme |
| `PageState.Page.constructor` | script.js:8-11 | page load: theme from the stored preference, slot untouched, menu closed, nothing scrolled, bars untouched and not animated, modal closed, form idle |
| `PageState.Page.ThemeToggleClick` | script.js:13-19 | the theme flips and the slot then holds the value for the new theme; nothing else changes |
| `PageState.Page.MobileToggleClick` | script.js:28-30 | the mobile menu's `active` state flips; nothing else changes |
| `PageState.Page.NavLinkClick` | script.js:33-37 | a nav-link click always leaves the menu closed, whatever it was, so a second click changes nothing |
| `Scrolling.ScrollDestination` | script.js:44-52 | a destination exists exactly when the target resolves, and then lies one navbar height (70) above the target's top |
| `PageState.Page.AnchorClick` | script.js:42-54 | a resolved target adds one scroll request to `offsetTop - 70`; an unresolved one requests nothing and changes nothing |
| `PageState.Page.NavbarOnScroll` | script.js:62-72 | the navbar is `scrolled` exactly when the offset is above 100; the offset is remembered as the last scroll |
| `PageState.Zeroed` | script.js:89 | the widths the bars get when the animation starts: one "0" per bar |
| `PageState.Page.SkillsOnScroll` | script.js:82-96 | the first time the section is in view, every bar goes to width 0, the old widths are kept for the restore timers and the one-shot flag is set; otherwise nothing changes; the flag never resets |
| `PageState.Page.SkillTimersFire` | script.js:90-92 | the restore timers give every bar back the width captured before the reset; with no timers pending nothing changes |
| `PageState.Page.ScrollTopOnScroll` | script.js:315-321 | the scroll-to-top button is visible exactly when the offset is above 300 (300 hidden, 301 visible) |
| `PageState.Page.ScrollTopClick` | script.js:323-328 | a click adds one scroll request to destination 0 |
| `PageState.Page.Scroll` | script.js:62-98 | one scroll event runs the navbar and skill listeners (and the scroll-to-top listener of line 315) in registration order; a visible button implies a scrolled navbar; the first scroll with the section in view zeroes the bars and captures their widths; with the section out of view, or once animated, the bars, the flag and the pending restore are left as they were |
| `Render.RenderAll` | script.js:175-176 | `items.map(x => open + x + close).join('')`: each item contributes its own text and exactly one pair of markup, nothing is put between items, and a non-empty list starts with the opening markup |
| `Render.FeaturesHtml` | script.js:175 | the `<li>` list of the features: nine characters of markup per feature, and markup-free features read back from it in their original order |
| `Render.TagsHtml` | script.js:176 | the `<span class="tag">` list of the technologies: 25 characters of markup per tag, and markup-free tags read back from it in their original order |
| `Render.ParseSound` | script.js:175-176 | whatever the parser reads from a string is a list of markup-free items whose rendering is that string |
| `Render.ParseRender` | script.js:175-176 | rendering markup-free items with `open + x + close` for each, joined with nothing, and parsing the result gives back the same items in the same order |
| `Render.ParseExact` | script.js:175-176 | the parser returns a list for a string exactly when the string is that list's rendering and its items carry no markup |
| `Render.RenderAppend` | script.js:175-176 | rendering two lists one after the other is rendering their concatenation: the output keeps the input order |
| `Render.RenderSplitAt` | script.js:175-176 | the rendering of a list is the rendering of the items before position n, then `open + item n + close`, then the rest |
| `Catalog.Projects` | script.js:109-150 | the catalog holds exactly the ids "1" and "2" ("999" is not one), titled "Bank Dashboard" and "Shopping Site Dashboard", each with eight features and five technologies |
| `Catalog.ModalHtml` | script.js:178-192 | the modal body template: it contains the entry's title heading, its `<ul>` of rendered features and its tag container |
| `PageState.Page.OpenModal` | script.js:171-196 | an id missing from the catalog leaves the modal flag, overflow and body unchanged; a known id renders that entry into the body, shows the modal and sets overflow to hidden |
| `PageState.Page.ViewProjectClick` | script.js:153-159 | a "view project" click opens the modal for the button's id, with the same outcome as opening it |
| `PageState.Page.ProjectCardClick` | script.js:162-169 | a card click opens the card's project only when the click did not come from inside its view button |
| `PageState.Page.CloseModal` | script.js:207-210 | the modal is hidden and the overflow set to auto |
| `PageState.Page.CloseButtonClick` | script.js:199 | the close button closes the modal |
| `PageState.Page.ModalClick` | script.js:201-205 | a click inside the modal closes it only when its target is the modal backdrop itself |
| `PageState.Page.KeyDown` | script.js:213-217 | Escape closes the modal only while it is shown; any other key, or Escape on a closed modal, changes nothing |
| `PageState.Page.ContactSubmit` | script.js:225-240 | submitting an enabled form disables the button, sets its label to "Sending..." and schedules the send timer holding the label it replaced; the button stays disabled exactly while that timer is pending |
| `PageState.Cleared` | script.js:249 | a form reset gives every control the empty value, keeping their number |
| `PageState.Page.SendTimerFires` | script.js:243-254 | the send timer shows the success message, clears the fields, restores the label captured at submit, re-enables the button and schedules the hide timer; with none pending nothing changes; the button is enabled exactly when no send is pending |
| `PageState.Page.HideTimerFires` | script.js:256-258 | the hide timer resets the message class to `form-message`; with none pending nothing changes |
| `PageState.Page.Phase` | script.js:236-258 | the form is submitting exactly while the send timer is pending, and showing success exactly when none is pending and the message has the success class |
| `Scenarios.ToggleTwice` | script.js:13-19 | two toggles restore the original theme and leave the slot holding that theme's value |
| `Scenarios.ReloadAfterToggle` | script.js:8-18 | after a toggle, a page loaded from the slot starts with the chosen theme |
| `Scenarios.NavLinkTwice` | script.js:33-37 | repeated nav-link clicks leave the menu closed |
| `Scenarios.SkillAnimationOnce` | script.js:80-96 | animate then restore gives back every bar's original width; a later in-view scroll changes nothing: the bars keep their original widths and no restore is pending |
| `Scenarios.ContactLifecycle` | script.js:225-260 | submit, then the send timer, then the hide timer: fields cleared, label restored, button enabled, form idle again |
| `Scenarios.ModalSession` | script.js:171-217 | unknown id keeps the modal closed, a known id opens it, a content click keeps it open, Escape closes it |

## Left out

- DOM lookup and wiring (`getElementById`, `querySelectorAll`, `addEventListener`, `closest`, `stopPropagation`, `preventDefault`): modelled as which method is called with which argument.
- Real `localStorage` I/O: the slot is the field `storedTheme`.
- `window.scrollTo` and its smooth animation: a call is recorded as an entry of `scrollRequests`.
- Timer durations (100 ms, 1500 ms, 5000 ms) and the timing of overlapping timers: each callback is a method the caller invokes. Hide timers can overlap (a second submit after the first send timer), and are counted.
- The per-bar restore timers of the skill animation, all of the same delay, fire together as one step (`SkillTimersFire`).
- `PageState.Page.SkillsOnScroll`: the float comparison `sectionPos < innerHeight / 1.3` is taken as the boolean input `inView`.
- The scroll offset and element tops are integers; JavaScript's `pageYOffset` can be fractional.
- The entrance animation with `IntersectionObserver` (lines 265-286): it only sets opacity and transform styles.
- Scroll-to-top styling and hover transforms (lines 291-313, 330-336) and the console messages (lines 341-342).
- The catalog's image markup and description text are placeholder strings; titles, features and technologies are the source's.
- `Render.FeaturesHtml`: the read-back is proved for every markup-free list, not instantiated on the catalog's literal strings.
- `Render.TagsHtml`: the read-back is proved for every markup-free list, not instantiated on the catalog's literal strings.
- `PageState.Page.ContactSubmit`: requires an enabled button. A disabled submit button receives no click and blocks implicit (Enter) submission, so no second submit reaches the handler while the send timer is pending; a submit event dispatched by other script (`requestSubmit()`) during that window is not modelled.
- Exceptions thrown by the browser: if `localStorage.getItem` throws at page load (line 8) the rest of the script never runs, and if `setItem` throws on a toggle (line 18) the class stays toggled while the slot keeps its old value; neither is modelled. An anchor `href` that is not a valid selector (such as `"#"`) makes `querySelector` throw after `preventDefault` (line 45); the outcome, no scroll, is the model's unresolved target.
- Project ids are plain keys of a map; a JavaScript lookup of an inherited property name such as "toString" is not modelled.
- The values visitors type into the form are not modelled as events; the fields' values are set at page load and cleared by the send timer, and a reset is taken to restore empty defaults.
- Initial markup classes (body theme class, menu, navbar, body overflow, message) are assumed to be the unstyled defaults.
- `lastScroll` is kept as the source keeps it, but nothing in the script reads it.
