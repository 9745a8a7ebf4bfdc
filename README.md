# Portfolio page view state, modelled in Dafny

This project models the client-side behaviour of a personal-portfolio web
page (`script.js`). It covers only the rules that decide what the page shows,
not the browser calls that show it:

- the mobile navigation menu (the `active` classes and their ARIA attributes);
- the colour theme (initial theme from the stored preference, the toggle, the
  persisted value, the button glyph, `aria-pressed`/`aria-label`, the navbar
  background);
- the active navigation link chosen from the scroll offset;
- the terminal typing effect and the command cycler;
- contact-form validation, including the email pattern;
- the scroll throttle (`ticking`);
- the single notification pop-up.

The DOM, `localStorage`, the window's scroll offset and timers are replaced by
explicit state. Elements whose attributes the script updates in place become
classes (`Menu`, `ThemeController`, `NavLinks`, `Terminal`, `CommandCycler`,
`NotificationLayer`, `ScrollEffects`). Each class's methods are tied to pure
functions of the old state. Those functions carry the lemmas. Each timer
callback is one method call, or one step of a replay function. The delays
themselves are not modelled.

Files: `common.dfy` (the `Option` type and the text `setAttribute` writes
for a boolean), `menu.dfy`, `theme.dfy`, `activelink.dfy`, `typing.dfy`,
`form.dfy`, `notification.dfy`, `scroll.dfy`.

Notes on the code:

- The theme is a string. A stored value other than `dark` or `light` is
  applied unchanged (script.js:65). The first toggle turns it into `dark`.
  An empty stored string counts as absent, because of JavaScript's `||`.
- Page load writes the glyph and `aria-pressed`, but not `aria-label`
  (script.js:94-96). `aria-label` names the opposite mode only after the
  first toggle. Until then it keeps the markup's text. The markup is not part
  of this model.
- When no section has been reached, the current id is `''`. Links whose href
  is the bare `#` are then highlighted (`ActiveLink.NothingReachedHighlightsBareHash`).
- The cycler starts at index 0, but the startup run already typed command 1.
  So the first interval tick types the same command again
  (`Typing.FirstIntervalRetypesStartupCommand`).

## Model

| member | source | states |
|---|---|---|
| `Common.AttrText` | script.js:11-12 | a boolean is written as the attribute text "true" exactly when it is true and "false" exactly when it is false |
| `MobileMenu.ToggleKeepsConsistent` | script.js:5-13 | a toggle keeps the button's and the list's `active` flags equal and inverts them; aria-expanded gives the new state and aria-hidden the old one |
| `MobileMenu.ToggleTwiceRestoresFlags` | script.js:5-13 | two toggles restore the open/closed state |
| `MobileMenu.ClosedViewDescribesClosedMenu` | script.js:26-41 | the view written on link click and Escape is closed, consistent, not expanded and hidden |
| `MobileMenu.Menu.constructor` | script.js:2-3 | the page starts with the menu closed and consistent |
| `MobileMenu.Menu.Toggle` | script.js:5-13 | `toggleMobileMenu` produces the toggled view and keeps the flags consistent |
| `MobileMenu.Menu.OnHamburgerKey` | script.js:18-23 | Enter or Space toggles; any other key changes nothing |
| `MobileMenu.Menu.OnLinkClick` | script.js:26-31 | a link click closes the menu unconditionally |
| `MobileMenu.Menu.OnDocumentKey` | script.js:34-42 | Escape closes the menu and focuses the button only when the list is active; otherwise nothing changes |
| `Theme.InitialTheme` | script.js:64-66 | the initial theme is the stored value when it is present and non-empty, otherwise dark; it is never empty |
| `Theme.NextTheme` | script.js:103-104 | a toggle gives light exactly from dark and dark from anything else |
| `Theme.IconFor` | script.js:69-75 | the glyph is the moon exactly for the dark theme, the sun otherwise |
| `Theme.LabelFor` | script.js:119-120 | the accessible label is "Switch to light mode" in dark mode and "Switch to dark mode" in any other theme |
| `Theme.NavbarBackground` | script.js:78-92 | the background is one of the four colours; alpha 0.98 exactly when scrolled past 100 px (0.95 otherwise); the dark palette exactly for the dark theme and the light one for every other theme |
| `Theme.NavbarBackgroundDependsOnModeAndScroll` | script.js:78-92 | the background depends only on (theme is dark, scrollY > 100) |
| `Theme.ReloadAfterToggle` | script.js:102-111 | the value a toggle stores is read back unchanged on reload |
| `Theme.ToggleTwiceRestores` | script.js:102-104 | two toggles restore a dark or light theme |
| `Theme.ToggleTwiceFromOtherValue` | script.js:104 | any other stored value becomes dark after one toggle and light after two, so it is not restored |
| `Theme.ThemeController.constructor` | script.js:64-99 | page load applies the initial theme, its glyph, aria-pressed and navbar background, leaves storage and aria-label alone, and establishes the invariant (reload reproduces the theme; glyph and aria-pressed match it) |
| `Theme.ThemeController.RefreshNavbar` | script.js:78-92 | `updateNavbarBackground` recomputes the background from the theme and scroll offset |
| `Theme.ThemeController.Toggle` | script.js:102-131 | `toggleTheme` switches the theme and persists it; glyph, background, aria-pressed (true iff light) and aria-label (the opposite mode) follow the new theme; it starts the transition with one more pending timer |
| `Theme.ThemeController.OnToggleKey` | script.js:137-142 | Enter or Space toggles: the theme flips, is stored, and the glyph, `aria-pressed`, `aria-label`, navbar background and transition class follow; other keys change nothing |
| `Theme.ThemeController.TransitionTimerFires` | script.js:122-125 | a 600 ms timer removes the `transitioning` class, even if another is pending |
| `ActiveLink.LastReached` | script.js:471-476 | the index chosen is a reached section (scrollY >= top - 200), or -1, and no later section is reached |
| `ActiveLink.CurrentSection` | script.js:469-476 | the forward scan that overwrites `current` returns the id of the last reached section in document order, or '' |
| `ActiveLink.NothingReachedGivesEmptyId` | script.js:469-476 | with no section reached the current id is '' |
| `ActiveLink.LastReachedMonotone` | script.js:471-476 | scrolling further down never selects an earlier section |
| `ActiveLink.MiddleSectionExample` | script.js:471-476 | sections at 0, 500, 1200 scrolled to 650 select the middle one |
| `ActiveLink.DistinctHrefsHighlightAtMostOne` | script.js:478-483 | with distinct hrefs at most one link is active |
| `ActiveLink.NothingReachedHighlightsBareHash` | script.js:478-483 | with no section reached, exactly the links with href "#" are active |
| `ActiveLink.NavLinks.constructor` | script.js:464-466 | the links are the page's `.nav-link` elements, each starting with the `active` class the markup gave it |
| `ActiveLink.NavLinks.OnScroll` | script.js:468-484 | after a scroll event a link is active iff its href is '#' plus the current id; no other link stays active |
| `Typing.TypingKeepsPrefix` | script.js:145-158 | starting a run and each callback keep the text equal to the first `i` characters of the command, so always a prefix of it |
| `Typing.TypedAfterTicks` | script.js:145-158 | after the start and k callbacks the text is the first min(k+1, n) characters; a callback is pending iff k < n, so the run appends n characters and then stops scheduling |
| `Typing.TicksFromStart` | script.js:145-158 | the start and k callbacks reach the expected state: min(k+1, n) characters shown, a callback pending iff k < n |
| `Typing.TypingCompletes` | script.js:149-155 | after n callbacks the whole command is shown and nothing is scheduled |
| `Typing.Terminal.constructor` | script.js:398 | the markup's text counts as a finished run |
| `Typing.Terminal.TypeNextChar` | script.js:149-155 | the `type` callback appends the next character and schedules, or stops |
| `Typing.Terminal.TypeCommand` | script.js:145-158 | the Finding's corrected definition of `typeCommand` (the code as written is `StartAsWritten`): it clears the text and starts a run that supersedes the previous one, keeping the prefix invariant |
| `Typing.Terminal.Tick` | script.js:149-155 | a pending callback of the current run fires and keeps the prefix invariant |
| `Typing.RestartKeepsEarlierRuns` | script.js:145-147 | `typeCommand` as written (`StartAsWritten`) shows at most the command's first character, and every callback already scheduled stays scheduled, ahead of the new run's |
| `Typing.FireRunAppendsAndKeepsOthers` | script.js:149-155 | any scheduled run's callback (`FireRun`), whichever fires first by due time, only appends to the text, at most one character, and every other run stays scheduled |
| `Typing.FireSeqOnlyAppends` | script.js:149-155 | whatever order the scheduled callbacks fire in (`FireSeq`, each step a `FireRun` of the run due next), the text only grows |
| `Typing.LoneRunAsWritten` | script.js:145-158 | a run with no other run overlapping it has shown the first k+1 characters after k callbacks, with its next callback pending |
| `Typing.LoneRunCallbacks` | script.js:149-155 | from a lone run showing one character, k callbacks show k+1 characters |
| `Typing.RestartMidRunInterleaves` | script.js:145-158 | restarting a command while an earlier run of it has shown k characters leaves both runs scheduled; in either firing order the earlier run's (k+1)-th character follows the new run's first one or two |
| `Typing.OverlappingRunsGarbleText` | script.js:160-168 | as written, the startup run's leftover callback writes into the cycler's new run: in due-time order the element shows "sqb", or "sd" had only 25 characters been shown; neither is a prefix of the command |
| `Typing.StrayCharacterNeverFits` | script.js:166 | whenever the new run has shown 1 to 24 characters, any of the startup run's last three characters appended after them leaves a text that is not a prefix of the command |
| `Typing.StartupCommandLayout` | script.js:166 | the startup command has 28 characters, ends in "dbs", and none of d, b, s occurs in positions 1 to 24 |
| `Typing.NextCommand` | script.js:402 | the next index is one further along the list and wraps to 0 after the last; it is always below 5 |
| `Typing.AfterIntervalsIsModular` | script.js:401-404 | after n interval ticks the index is (start + n) mod 5 |
| `Typing.FirstIntervalRetypesStartupCommand` | script.js:388-405 | the first tick retypes the startup command; index 0 comes back only at the fifth tick |
| `Typing.CommandCycler.constructor` | script.js:397 | the cycler starts at index 0 |
| `Typing.CommandCycler.IntervalTick` | script.js:401-404 | a tick advances the index and starts typing its command |
| `ContactForm.IsValidEmail` | script.js:245-246 | an address the check accepts has at least five characters and neither begins nor ends with '@' |
| `ContactForm.EmailCheckSound` | script.js:245-246 | every string the check accepts matches `^[^\s@]+@[^\s@]+\.[^\s@]+$` |
| `ContactForm.EmailCheckComplete` | script.js:245-246 | every string the pattern matches passes the check: exactly one '@', no white space, a non-empty local part, and a '.' inside the domain |
| `ContactForm.EmailCheckMatchesPattern` | script.js:244-246 | the check and the pattern agree in both directions |
| `ContactForm.DotAfterAtRejected` | script.js:245 | "a@.com" is rejected: the domain's dot may not come first |
| `ContactForm.SecondDotAccepted` | script.js:245 | "a@b.c.d" is accepted: the runs may contain dots |
| `ContactForm.SpaceOrSecondAtRejected` | script.js:245 | "a b@c.d" (white space) and "a@b@c.d" (a second '@') are rejected |
| `ContactForm.Validate` | script.js:238-249 | a submission proceeds iff all four fields are non-empty and the email matches; a missing field is reported before a bad email |
| `ContactForm.OnSubmit` | script.js:231-249 | a rejected form raises exactly one error notification with the matching message and returns early; an accepted one raises none synchronously; the delayed success notification is left out (see "## Left out") |
| `Notifications.NotificationLayer.Show` | script.js:274-292 | `showNotification` removes any existing notification and appends the new one, not yet shown; at most one exists |
| `Notifications.NotificationLayer.Reveal` | script.js:295 | the 100 ms timer adds `show` to its own notification only if it is still in the document |
| `Notifications.NotificationLayer.Hide` | script.js:298-305 | the 5 s timer or the close button removes `show` from its own notification only |
| `Notifications.NotificationLayer.Remove` | script.js:300-306 | the removal 300 ms after hiding removes only its own notification, never a newer one |
| `Notifications.ShowTwiceKeepsLatest` | script.js:274-308 | showing "A" then "B" leaves only "B", even after A's removal timer fires |
| `ScrollThrottle.AtMostOneFramePending` | script.js:343-372 | any sequence of scroll events and frames leaves at most one frame pending; `ticking` is set exactly while one is pending; frames never outnumber scroll events |
| `ScrollThrottle.BurstRequestsOneFrame` | script.js:367-372 | scroll events while `ticking` is set request no further frames |
| `ScrollThrottle.ScrollEffects.constructor` | script.js:343 | `ticking` starts false with no frame pending |
| `ScrollThrottle.ScrollEffects.RequestTick` | script.js:367-372 | `requestTick` requests a frame and sets the flag only when it is clear |
| `ScrollThrottle.ScrollEffects.UpdateScrollEffects` | script.js:345-365 | the frame callback refreshes the navbar background for the current offset and clears the flag |

## Findings

| source | as written | input that shows it | evidently intended | confidence | as-written member | corrected member |
|---|---|---|---|---|---|---|
| script.js:145-168 | `typeCommand` starts a new run without cancelling the previous run's scheduled callback. Both runs then append to the same element. | The startup run types `sqlmap -u "target.com" --dbs` (28 characters, one per 80 ms from the 2 s mark). Its 26th character lands at 4000 ms, and its next callback is due at 4080 ms. The 4 s interval restarts the same command at 4000 ms: "s", next due at 4060 ms. In due-time order the element shows "s", then "sq", then "sqb". | Starting a run supersedes the previous one, so the text is always a prefix of the command being typed. | not executed; medium: timer drift changes the interleaving and the stray characters (e.g. "sd" if the startup run's 4000 ms callback fires after the restart), but every stray character breaks the prefix | `Typing.OverlappingRunsGarbleText` | `Typing.Terminal.TypeCommand` |

## Left out

- Smooth scrolling for anchor links (script.js:44-56): it calls the browser's `scrollIntoView`.
- Reveal animations, skill bars, the skill observer and the one-second opacity fallback (script.js:170-183, 409-461, 493-508). They depend on browser layout and observer timing.
- The counter animation and the stats observer (script.js:187-224). They use floating-point increments, `parseInt` and animation frames.
- The parallax transforms in the scroll frame (script.js:354-362). They use floating-point offsets and the hero's layout height.
- Hover effects and the page fade-in (script.js:310-340, 377-385). They are styling only.
- The accepted path of the contact form (script.js:251-268): the button spinner, the 2 s simulated send, the success notification and the form reset.
- The notification's HTML markup (script.js:282-289): only its message, kind and `show` state are kept.
- The `'info'` default of `showNotification`'s `type` parameter (script.js:274): every call in the script passes a type, so `Notice.kind` is always given.
- Theme.ThemeController.Toggle: does not model the haptic `navigator.vibrate(50)` call. It is a platform capability with no effect on page state.
- All timer delays (2000, 4000, 80, 60, 600, 100, 5000, 300 ms). Each callback is one step; their relative timing appears only in the Finding.
- Scroll offsets and section tops are integers. Browsers may report fractional `scrollY`.
- Strings are sequences of Unicode scalar values, while JavaScript strings are UTF-16. `\s` is modelled as JavaScript's set of white-space and line-terminator characters.
- Reading `FormData` is modelled as a map from field name to text. A missing field and an empty one are both falsy.
