# Landing-page behaviour: lightbox, contact form, handle check, health URL

This project models the logic inside `script.js`, the client-side script of a
marketing landing page, and proves properties of that model in Dafny. The
script has four pieces of logic:

- **The proof-screenshot lightbox.** An overlay with a cursor into a fixed,
  non-empty list of image paths. Next and previous wrap cyclically. Opening
  always starts at the first image and locks page scrolling. Closing restores
  scrolling and keeps the cursor. Keys act only while the overlay is active.
  Every cursor change sets the `changing` transition class and schedules a
  swap. When the swap fires, it shows the image and a `position / total`
  counter. When the image loads (or fails to), the load handler clears
  `changing`.
- **The Telegram-handle check.** The handle is trimmed, then tested against
  `^@?[a-zA-Z0-9_]{5,32}$`.
- **The contact-form controller.** The email/Telegram mode toggle decides
  which input is required and shown. The submit handler then runs a decision
  sequence: honeypot, handle check, submit-button state, request record, and
  the mapping from the outcome to feedback and button state.
- **The health-URL derivation.** A trailing `/api/contact` or `/api/contact/`
  of the endpoint becomes `/api/health`.

Files:

- `wrappers.dfy`: `Option`, used where the script uses `null`.
- `decimal.dfy`: decimal numerals, as a template literal writes a
  non-negative integer, and their reading back.
- `lightbox.dfy`: cursor arithmetic, the counter label, key and wheel
  dispatch as functions with lemmas, and class `Lightbox` for the overlay's
  mutable state.
- `telegram_handle.dfy`: ASCII trimming and the handle pattern as
  predicates, with lemmas.
- `health_url.dfy`: the suffix rewrite, with lemmas relating it to where the
  pattern matches.
- `contact_form.dfy`: the pure decision functions and class `Form` for the
  form's mutable state.

Things outside the script become inputs of the model:

- **Network result.** The result of the request is an abstract `Outcome`:
  `Ok` (a 2xx response), `NotOk` (another status, which the script turns into
  a thrown error), `Abort` (the 60-second timeout) or `NetworkError`.
- **Asynchronous steps.** Each one is a separate method the environment
  calls:
  - `Form.Respond(outcome)` is the handler resuming after `await fetch`;
  - `Form.ResetTimerFired()` is the 2-second re-enable timer;
  - `Lightbox.SwapTimerFired()` is the 250 ms image-swap timer;
  - `Lightbox.ImageLoadFinished()` is the image's `onload` or `onerror`.
- **Events.** A keydown carries its `key` string. A wheel event carries its
  `deltaY`. A click on the lightbox says whether its target was the lightbox
  element itself. The user typing into the inputs is `Form.Fill(entries)`.
- **Markup.** What the HTML supplies is a constructor parameter: the image's
  initial `src` and counter text, the initially checked radio, the inputs'
  default values, whether the honeypot input exists, and the button's text.
- **Image list.** The four screenshot paths are a constant of the script,
  `Lightbox.ScreenshotPaths`. The `Lightbox` class takes any non-empty list,
  and `Lightbox.NewPageLightbox` builds the page's own lightbox over those four.

The model follows the code as written, including these details of it:

- The next/previous buttons and the wheel act whether or not the overlay is
  active. Only the keydown listener checks the `active` class.
- A wheel event with `deltaY == 0` moves backward, not forward.
- On success, the button's opacity returns to `1` at once, but its cursor
  style only changes when the 2-second timer fires.
- The handle is checked after trimming, but the record carries the input as
  typed, surrounding whitespace included (`ContactForm.HandleSentUntrimmed`).
- The record always includes `honeypot`, and in a sent record it is always
  `""`: a non-empty value never gets that far.
- With no radio checked, the handler reads `.checked.value` of `null` at
  script.js:306. That throws after the button was already disabled and
  labelled `Sending...`. The model calls this result `Crashed`: no request is
  sent and the button stays disabled.
- Several swap timers can be pending at once. Each one shows the image at the
  cursor's position when it fires, not when it was scheduled.

## Model

| member | source | states |
|---|---|---|
| `Lightbox.Next` | script.js:123-126 | the next index is below N, and it is i + 1 except that N - 1 wraps to 0 |
| `Lightbox.Prev` | script.js:131-134 | the previous index is below N, and it is i - 1 except that 0 wraps to N - 1 |
| `Lightbox.PrevAfterNext` | script.js:123-134 | prevImage undoes nextImage |
| `Lightbox.NextAfterPrev` | script.js:123-134 | nextImage undoes prevImage |
| `Lightbox.NextTimesWrapsOnce` | script.js:123-126 | k ≤ N forward steps from i land on i + k, less N once it passes the end |
| `Lightbox.PrevTimesWrapsOnce` | script.js:131-134 | k ≤ N backward steps from i land on i - k, plus N once it passes the start |
| `Lightbox.FullTurnIsIdentity` | script.js:123-134 | N forward steps, and N backward steps, return the cursor to where it started |
| `Lightbox.EveryImageReachable` | script.js:78-86 | from the first image, j forward steps reach image j for every j < N |
| `Lightbox.CounterLabelShowsPosition` | script.js:105 | the counter text reads back as position i + 1 out of N, so it lies in 1..N |
| `Lightbox.ParseCounterOfDigits` | script.js:105 | a `digits / digits` label reads back as the two numbers it was built from |
| `Lightbox.CounterLabel` | script.js:105 | the counter text; `CounterLabelShowsPosition` states that it reads back as position i + 1 out of N |
| `Lightbox.NewPageLightbox` | script.js:42-49 | the page's lightbox is built over the four listed screenshots, starts closed at cursor 0, and satisfies the class invariant |
| `Lightbox.KeyAction` | script.js:179-185 | ArrowRight means next, ArrowLeft previous, Escape close, only while active; any other key, or any key while inactive, is ignored |
| `Lightbox.WheelAction` | script.js:168-175 | a positive deltaY goes forward; any other value goes back |
| `Lightbox.Lightbox.constructor` | script.js:41-73 | the overlay starts closed, at the first image, with no transition or timers |
| `Lightbox.Lightbox.UpdateImage` | script.js:100-103 | sets `changing` and schedules one swap; changes nothing else |
| `Lightbox.Lightbox.SwapTimerFired` | script.js:103-117 | shows the image at the current cursor with its counter label, and installs the load handlers |
| `Lightbox.Lightbox.ImageLoadFinished` | script.js:108-116 | a load or a load error clears `changing` once the handlers are installed; the cursor is unaffected |
| `Lightbox.Lightbox.Open` | script.js:78-86 | whatever the prior state: cursor 0, overlay and backdrop active, scrolling locked, a swap scheduled |
| `Lightbox.Lightbox.Close` | script.js:91-95 | overlay and backdrop inactive, scrolling restored, cursor and everything else unchanged |
| `Lightbox.Lightbox.NextImage` | script.js:123-126 | the cursor becomes `Next` of the old one and a swap is scheduled |
| `Lightbox.Lightbox.PrevImage` | script.js:131-134 | the cursor becomes `Prev` of the old one and a swap is scheduled |
| `Lightbox.Lightbox.HandleLightboxClick` | script.js:158-164 | only a click whose target is the lightbox element itself closes it |
| `Lightbox.Lightbox.HandleWheel` | script.js:167-176 | moves the cursor as `WheelAction` says, active or not |
| `Lightbox.Lightbox.HandleKey` | script.js:179-185 | does what `KeyAction` says; an ignored key leaves the whole state unchanged |
| `Decimal.Numeral` | script.js:105 | a non-empty string of digits with no leading zero, one digit exactly below 10 |
| `Decimal.ValueOfNumeral` | script.js:105 | reading the numeral of n gives back n |
| `Decimal.NumeralInjective` | script.js:105 | different numbers render differently |
| `Decimal.DigitRun` | script.js:105 | the longest digit prefix: all digits, followed by a non-digit or the end |
| `Decimal.DigitRunOfDigitsThenOther` | script.js:105 | the digit run of digits followed by a non-digit is exactly those digits |
| `TelegramHandle.TrimStart` | script.js:283 | no longer than the input, and starts with a non-space if it is not empty |
| `TelegramHandle.TrimEnd` | script.js:283 | no longer than the input, keeps its first character, and ends with a non-space if it is not empty |
| `TelegramHandle.Trim` | script.js:283 | the trimmed value neither starts nor ends with whitespace and is no longer than the input |
| `TelegramHandle.TrimStartSplits` | script.js:283 | the input is some whitespace followed by TrimStart's result |
| `TelegramHandle.TrimEndSplits` | script.js:283 | the input is TrimEnd's result followed by some whitespace |
| `TelegramHandle.TrimSplits` | script.js:283 | the input is whitespace, then the trimmed value, then whitespace |
| `TelegramHandle.TrimStartOfPadded` | script.js:283 | TrimStart removes exactly a whitespace prefix in front of a non-space |
| `TelegramHandle.TrimEndOfPadded` | script.js:283 | TrimEnd removes exactly a whitespace suffix behind a non-space |
| `TelegramHandle.TrimOfPadded` | script.js:283 | whitespace, then a trimmed core, then whitespace, trims to that core |
| `TelegramHandle.TrimIgnoresPadding` | script.js:283 | extra whitespace around any string does not change its trimmed value |
| `TelegramHandle.TrimIdempotent` | script.js:283 | trimming twice is trimming once |
| `TelegramHandle.MatchesHandlePattern` | script.js:284 | `^@?[a-zA-Z0-9_]{5,32}$` over the whole string; `PatternIsDeterministic` and `PatternExcludesEmpty` state what it accepts |
| `TelegramHandle.IsValidHandle` | script.js:283-285 | the submit handler's check; `ValidHandleCharacterised` states exactly which values it accepts |
| `TelegramHandle.PatternIsDeterministic` | script.js:284 | `@?` never needs backtracking: a leading `@` is consumed, otherwise the whole string is the body |
| `TelegramHandle.PatternExcludesEmpty` | script.js:285 | a match is non-empty and 5 to 33 characters long, so the `!telegramValue` test is redundant |
| `TelegramHandle.ValidHandleCharacterised` | script.js:283-285 | accepted exactly when the trimmed value, after one optional leading `@`, is 5 to 32 characters from `[A-Za-z0-9_]` |
| `TelegramHandle.AtSignIsOptional` | script.js:284 | a leading `@` does not count towards the length |
| `TelegramHandle.ValidHandleIgnoresPadding` | script.js:283-285 | whitespace around a handle does not change the verdict |
| `TelegramHandle.TwoCharactersRejected` | script.js:283-285 | "ab" is rejected |
| `TelegramHandle.ValidUser1Accepted` | script.js:283-285 | "valid_user1" is accepted |
| `TelegramHandle.ValidUser1WithAtAccepted` | script.js:283-285 | "@valid_user1" is accepted |
| `TelegramHandle.PaddedValidUser1Accepted` | script.js:283-285 | "  valid_user1\n" is accepted |
| `TelegramHandle.DoubleAtRejected` | script.js:283-285 | "@@valid_user1" is rejected: only one `@` is optional |
| `HealthUrl.HealthUrlOf` | script.js:7 | the derived URL is strictly shorter than the input or equal to it |
| `HealthUrl.MatchEnd` | script.js:7 | a match covers the last 12 characters (ending in `t`) or the last 13 (ending in `/`) |
| `HealthUrl.MatchIsUnique` | script.js:7 | the pattern matches at one position at most |
| `HealthUrl.ReplacesTheMatch` | script.js:7 | where the pattern matches, the result is what precedes the match followed by `/api/health` |
| `HealthUrl.NoMatchUnchanged` | script.js:7 | where the pattern matches nowhere, the string is unchanged |
| `HealthUrl.HealthUrlIdempotent` | script.js:7 | deriving twice is deriving once |
| `HealthUrl.BackendHealthUrl` | script.js:6-7 | the page's endpoint maps to `https://greyroomchats-backend.onrender.com/api/health` |
| `ContactForm.LayoutFor` | script.js:248-258 | email mode: email required and shown, Telegram neither; Telegram mode the reverse; exactly one of them either way |
| `ContactForm.LayoutDeterminedByMode` | script.js:245-259 | the mode's layout is the only one with exactly one input active and that input shown |
| `ContactForm.OrNull` | script.js:307-309 | the `or null` fallback: null exactly for the empty string, the value as typed otherwise |
| `ContactForm.IsBot` | script.js:274-275 | a non-empty value in an existing decoy field; `HoneypotDominates` and `Decide` state its effect |
| `ContactForm.BuildRecord` | script.js:305-312 | the request body; `Decide` states that a sent record has the checked mode, the `or null` fields and an empty honeypot, and `HandleSentUntrimmed` that the handle goes out as typed |
| `ContactForm.Decide` | script.js:273-312 | dropped exactly when the honeypot is filled; otherwise rejected exactly for Telegram mode with an invalid handle; crashed exactly when no mode is checked; otherwise sent. A sent record has an empty honeypot, and in Telegram mode it carries a valid, non-null handle |
| `ContactForm.EmailModeIgnoresHandle` | script.js:280-290 | in email mode the handle field never blocks a request |
| `ContactForm.HandleSentUntrimmed` | script.js:283-308 | with the decoy field absent or empty, a valid handle with whitespace around it is sent, with the whitespace kept |
| `ContactForm.HoneypotDominates` | script.js:274-278 | a filled honeypot drops the submission whatever else was typed |
| `ContactForm.OutcomeFeedback` | script.js:334-365 | Ok gives the success message; Abort the timeout message; NotOk and NetworkError the generic failure message; class `success` only for Ok |
| `ContactForm.Form.constructor` | script.js:235-267 | the form starts with the markup's radio and values, runs updateFormState once, and has an enabled button with its own text and no feedback |
| `ContactForm.Form.UpdateFormState` | script.js:245-259 | sets the layout of the checked mode, so exactly one input is active; with no mode checked nothing changes |
| `ContactForm.Form.SelectMethod` | script.js:261-264 | checking a radio applies that mode's layout |
| `ContactForm.Form.Submit` | script.js:270-333 | follows `Decide`. A bot submission changes nothing. A rejected handle sets the error feedback and leaves the button enabled with its text and no request. A sent one clears feedback, disables the button as `Sending...` and posts exactly one record |
| `ContactForm.Form.Respond` | script.js:334-371 | feedback per `OutcomeFeedback`. On Ok: `✓ Sent!`, still disabled, form reset to its defaults and mode layout, re-enable pending. Otherwise: enabled at once with the original text. No further request either way |
| `ContactForm.Form.ResetTimerFired` | script.js:345-350 | re-enables the button with its original text and pointer cursor |

Every event method of `Form` (the constructor, `SelectMethod`, `Fill`,
`Submit`, `ClickSubmit`, `Respond`, `ResetTimerFired`) establishes or preserves
`Form.Valid()`. That invariant states four
things:

- the layout always matches the checked mode;
- an enabled button always shows its original text;
- an in-flight submission keeps the button disabled as `Sending...`;
- a pending re-enable keeps it disabled as `✓ Sent!`, remembering the
  original text.

## Left out

- Section reveal (script.js:14-39): it is an `IntersectionObserver` callback
  with no logic of its own.
- The ripple effect (script.js:188-220): it is floating-point layout geometry
  and DOM node insertion and removal, purely decorative.
- The pulse animation and the logo's smooth scroll (script.js:222-232,
  376-383): they only assign styles and scroll the browser.
- `fetch`, `AbortController`, `JSON.stringify`, the warm-up ping and timer
  durations (script.js:1-5, 9-12, 318-332): they are network and clock
  behaviour. The request is an abstract `Outcome`, and each timer firing is
  an explicit method call.
- The record's `timestamp` (script.js:310): it comes from the wall clock.
- `console` logging (script.js:115, 276, 356): it is output only.
- `closeBtn.focus()` (script.js:84): focus is browser state the script never
  reads back.
- Creating the backdrop and moving the lightbox under `document.body`
  (script.js:62-73): this is DOM placement. The model takes both elements as
  present.
- The lightbox's null checks on optional elements (`if (viewGalleryBtn)`
  and so on): the model has all of them present.
- Which element a click or a key event hits, beyond the facts the handlers
  test: this is browser event routing.
- The contact script's early return when the page has no `contact-form`
  element (script.js:242): the model has the form present.
- The `closest('.form-group')` lookups (script.js:251-257): the model
  assumes each input sits in a form group, so the lookups succeed.
- `e.preventDefault()` in the wheel and submit listeners (script.js:169,
  271): it suppresses browser default actions (page scroll, native form
  submission), which the model does not have.
- The browser's own constraint validation of `required` inputs before it
  dispatches `submit`: it is browser behaviour, not the script's.
- `Form.ClickSubmit` models the browser's rule that a disabled submit button
  does not submit. It is not script.js code, so it has no row above.
- `TelegramHandle.IsTrimSpace`: it covers only ASCII whitespace (tab, LF,
  VT, FF, CR, space). The no-break space, the BOM and the other Unicode
  spaces that `String.prototype.trim` also strips are not modelled.
- `Lightbox.WheelAction`: it takes `deltaY` as a real number and does not
  model the NaN of floating point.
- Overlapping submissions are not modelled. `Form.Submit` requires an enabled
  button, and the button is disabled while a submission is in flight.
