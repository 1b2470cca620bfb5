# Lead-form wizard: a Dafny model

The script `script.js` drives a multi-step lead-capture form. It shows one
`.form-step` at a time. It checks each step's required controls and its
telephone control before moving on. At submit time it rewrites the phone
number as `(DDD) DDD-DDDD` and posts the collected fields to a remote
endpoint. A `sending` flag keeps a second submission out while one is in
flight.

This project lifts that logic out of the DOM and states it over plain values:

- `Text` (`text.dfy`): `trim()`, the `\s` and `\d` classes, `replace(/\D/g, '')` and
  `split(' ')[0]`. White space is the fixed ECMAScript WhiteSpace and
  LineTerminator set, which is what both `trim()` and `\s` use.
- `Phone` (`phone.dfy`): the step-advance pattern
  `^\(?\d{3}\)?[-\.\s]?\d{3}[-\.\s]?\d{4}$`. It is modelled as a recogniser `Parse`
  that recovers the parts of a matching string, together with a renderer
  `Render` that rebuilds the string. The module also holds the submit-time
  normaliser `Normalise`.
- `PhoneCases` (`phone_cases.dfy`): the worked phone values, and ten digits
  grouped by `/`, which pass the submit-time check but not the pattern.
- `Fields` (`fields.dfy`): form controls, `validateRequiredFields`, and the
  `querySelector` lookups the script makes.
- `Navigator` (`navigator.dfy`): the step wizard. This covers `showStep`, the
  next and previous handlers, the Enter-key rule, and runs of user events from
  the initial state.
- `Submission` (`submission.dfy`): `sendEmail` and the submit handler. The
  handler suspends at the network request and again while reading the response
  body; the model splits it at the request and folds both waits into the
  request's outcome.
  `Begin` covers the guard, the busy button, the phone rewrite and the payload.
  `Finish` covers the response, the notice and the reset. `SendEmail` runs the
  two back to back.
- `FormCases` (`form_cases.dfy`): worked wizard and greeting scenarios, and the
  blank telephone value, which passes the step-advance check but not the
  submit-time one.
- `Wrappers` (`wrappers.dfy`): `Option` and `Result`.

## Model

| member | source | states |
|---|---|---|
| Text.TrimStart | script.js:11 | the dropped prefix is all white space and the kept suffix does not start with white space |
| Text.TrimEnd | script.js:11 | the dropped suffix is all white space and the kept prefix does not end with white space |
| Text.Trim | script.js:11 | the trimmed text neither starts nor ends with white space |
| Text.TrimEmptyIff | script.js:11 | a value trims to the empty string exactly when it is all white space, so `!value.trim()` means "blank" |
| Text.TrimUnique | script.js:11 | any split into white-space margins around a core that neither starts nor ends with white space trims to that core |
| Text.TrimStartOf | script.js:11 | a white-space prefix in front of text that starts with a non-space character is exactly what the leading trim removes |
| Text.TrimEndOf | script.js:11 | a white-space suffix after text that ends with a non-space character is exactly what the trailing trim removes |
| Text.TrimIdempotent | script.js:46-54 | trimming an already trimmed value changes nothing |
| Text.Digits | script.js:36 | stripping non-digits leaves only ASCII digits and never lengthens the value |
| Text.DigitsCons | script.js:36 | stripping non-digits keeps a leading character exactly when it is a digit |
| Text.DigitsConcat | script.js:36 | stripping non-digits distributes over concatenation |
| Text.DigitsOfDigits | script.js:36 | an all-digit value is kept whole; a value without digits strips to nothing |
| Text.DigitsOfTrim | script.js:36 | trimming never changes the digits of a value, so the trimmed value checked at step time and the raw value checked at submit time have the same digits |
| Text.DigitsOfTrimStart | script.js:36 | removing leading white space never changes the digits of a value |
| Text.DigitsOfTrimEnd | script.js:36 | removing trailing white space never changes the digits of a value |
| Text.SpaceHasNoDigits | script.js:36 | a value made only of white space strips to no digits |
| Text.FirstToken | script.js:67 | the first token is a prefix of the text, holds no space, and is followed by a space or by the end of the text |
| Phone.TakeSep | script.js:4 | an optional `[-\.\s]` is read off the front, and what was read plus the rest is the input |
| Phone.TakeMark | script.js:4 | an optional literal parenthesis is read off the front, and what was read plus the rest is the input |
| Phone.TakeDigits | script.js:4 | a group of exactly n digits is read off the front, and the group plus the rest is the input |
| Phone.TakeMarkOf | script.js:4 | an optional parenthesis followed by something else is read back exactly as written |
| Phone.TakeSepOf | script.js:4 | an optional separator followed by a non-separator is read back exactly as written |
| Phone.TakeDigitsOf | script.js:4 | a digit group at the front is read back whole, leaving the rest |
| Phone.DigitIsPlain | script.js:4 | a digit is neither a separator nor a parenthesis, so the optional parts of the pattern never swallow one |
| Phone.Parse | script.js:4 | whenever the recogniser accepts, the parts it returns are well formed and render back to exactly the input |
| Phone.MatchesPattern | script.js:4 | the pattern is anchored at both ends: a match is 10 to 14 characters long and ends with a digit (Phone.PatternLanguage gives its exact language) |
| Phone.ParseRender | script.js:4 | the recogniser accepts every rendering of a well-formed shape and recovers that shape |
| Phone.PatternLanguage | script.js:4 | a string passes the pattern exactly when it is the rendering of some well-formed shape |
| Phone.DigitsAfterMark | script.js:36 | a parenthesis in front of a value contributes no digit |
| Phone.DigitsAfterSep | script.js:36 | a separator of the pattern in front of a value contributes no digit |
| Phone.DigitsAfterGroup | script.js:36 | a digit group in front of a value is kept whole, ahead of the digits of the rest |
| Phone.DigitsOfRender | script.js:4 | the digits of a matching string are its three digit groups in order |
| Phone.PatternHasTenDigits | script.js:4 | every string the loose pattern accepts holds exactly ten digits |
| Phone.Canonical | script.js:42 | the rewrite of ten digits is 14 characters: `(`, the first three digits, `) `, the next three, `-`, the last four |
| Phone.CanonicalOfGroups | script.js:42 | ten digits split as 3, 3 and 4 are rewritten as `(` first `) ` second `-` third |
| Phone.CanonicalIsRender | script.js:4 | the canonical rewrite is the rendering of the pattern shape with both parentheses, a space and a dash |
| Phone.Normalise | script.js:36-42 | the value is accepted exactly when it has ten digits; a refusal reports the digit count; the rewrite is 14 characters shaped `(DDD) DDD-DDDD` and keeps the same digits |
| Phone.NormaliseIdempotent | script.js:42 | normalising a normalised phone gives it back unchanged |
| Phone.NormalisedMatchesPattern | script.js:42 | the canonical rewrite passes the loose step-advance pattern |
| Phone.PatternImpliesNormalises | script.js:36-37 | a value whose trimmed form passes the step-advance pattern always passes the submit-time ten-digit check |
| Phone.NormalisedIsTrimmed | script.js:48 | the canonical rewrite has no surrounding white space, so the payload's trim leaves it as is |
| PhoneCases.NormaliseExample | script.js:42 | `5551234567` is rewritten as `(555) 123-4567` |
| PhoneCases.DigitsOfPlainExample | script.js:36 | `5551234567` strips to itself |
| PhoneCases.CanonicalOfExample | script.js:42 | the digits `5551234567` are rewritten as `(555) 123-4567` |
| PhoneCases.NormaliseRefusesFiveDigits | script.js:37-41 | `12345` is refused with a count of five digits |
| PhoneCases.PatternExamples | script.js:4 | `555-555-5555` passes the pattern and `12345` does not |
| PhoneCases.DigitsOfSlashed | script.js:36 | three digit groups joined by `/` strip to the ten digits in order |
| PhoneCases.SlashedFailsPattern | script.js:4 | three digits followed by `/` never pass the pattern, since `/` is not one of its separators |
| PhoneCases.NormalisesWithoutPattern | script.js:36-37 | ten digits grouped by `/` pass the submit-time check and fail the step-advance pattern, so the two checks differ |
| PhoneCases.UnpairedParenthesis | script.js:4 | the pattern does not pair its parentheses: `(555123-4567` passes |
| Fields.ValidateRequiredFields | script.js:8-17 | the check passes exactly when no required control is blank after trimming; on failure the focus goes to the first blank required control in document order |
| Fields.ScanFrom | script.js:10-15 | the scan from a position finds the first blank required control at or after it, or passes when there is none |
| Fields.OptionalFieldIgnored | script.js:11 | the value of a control without `required` never changes the verdict |
| Fields.QuerySelector | script.js:31 | the lookup returns the first control in document order that the selector matches, or nothing when none does |
| Fields.QueryIgnoresValues | script.js:42 | rewriting a control's value does not change which control a later lookup finds |
| Navigator.ShowStep | script.js:94-107 | exactly the step at `index` is shown, `current` becomes `index`, the submit control is shown exactly when `index` is the last step, and no control changes |
| Navigator.NoneActive | script.js:95-101 | with no step shown, the shown count is zero |
| Navigator.OneActive | script.js:95-101 | with only step k shown, the shown count is one |
| Navigator.ExactlyOneShown | script.js:95-101 | in every state that satisfies the wizard invariant, exactly one step is shown |
| Navigator.ShowStepShowsOne | script.js:94-107 | showing a step in range establishes the wizard invariant with exactly one step shown |
| Navigator.ShowCurrentIsIdentity | script.js:94-107 | re-showing the current step of a consistent wizard changes nothing |
| Navigator.ShowStepTwice | script.js:94-107 | only the last `showStep` call matters |
| Navigator.Init | script.js:89-110 | a form with at least one step starts consistent on step 0; it keeps every step of the form with its controls, and it has a submit-visibility flag exactly when it has a submit control |
| Navigator.PhoneBlocks | script.js:116-117 | a step is blocked exactly when its first telephone control holds a non-blank value whose trimmed form the pattern rejects: never without a telephone control or for a blank one; a non-blank value that gets through holds exactly ten digits |
| Navigator.Next | script.js:113-123 | the wizard advances by exactly one step only when the required check passes, the phone check does not block and a later step exists; a blank required control takes the focus; a bad phone raises the warning and focuses the telephone control; in every non-advancing case the wizard is unchanged |
| Navigator.Prev | script.js:127-129 | the wizard steps back by one when past the first step and is otherwise unchanged |
| Navigator.PrevUndoesNext | script.js:122-128 | going back right after a successful step forward restores the wizard exactly |
| Navigator.KeyDown | script.js:133-142 | Enter is suppressed exactly on steps other than the last; a suppressed Enter acts as one next-control click when the form has one; anything else leaves the wizard unchanged |
| Navigator.Apply | script.js:112-142 | every event keeps the wizard invariant and moves `current` by at most one; only next clicks and Enter move it forward, and only previous clicks move it back |
| Navigator.Run | script.js:112-142 | any run of events from a consistent wizard ends consistent, with the same number of steps |
| Navigator.RunFromInit | script.js:110-142 | from the initial state, every run of events keeps `current` within the steps and exactly one step shown |
| Submission.Entry | script.js:45-55 | an entry is the empty string when the form has no control of that name; otherwise it is that control's value up to surrounding white space, with none left for every key but `timeline`, and exactly the value for `timeline` |
| Submission.BuildPayload | script.js:45-55 | the payload has exactly the nine keys; an absent control gives the empty string; every entry but `timeline` is free of surrounding white space; a present control's entry equals its value up to surrounding white space, and `timeline` equals its value exactly |
| Submission.GreetingName | script.js:67 | the greeting is never empty and holds no space; an empty name gives `Friend`; otherwise it is the prefix of the name up to the first space |
| Submission.Restored | script.js:79-85 | the restored submit control exists exactly when it existed before, is enabled, and shows the given label |
| Submission.Reset | script.js:79-85 | the guard is lowered, the submit control is enabled with its original label, and the controls are untouched |
| Submission.RewritePhone | script.js:34-43 | without a phone control nothing changes; with one, a value without ten digits is refused, otherwise only that control's value is replaced by its canonical rewrite |
| Submission.Begin | script.js:20-55 | a call while `sending` is ignored; otherwise it is rejected, with the form reset and the warning raised, exactly when the phone check fails; otherwise the request is issued with the guard up, the submit control (when the form has one, and only then) disabled showing the busy label, the phone rewritten in the controls, and the payload built from the rewritten controls |
| Submission.OriginalLabel | script.js:23-24 | restoring the submit control with the remembered label gives it back as it was before the call, only enabled |
| Submission.Finish | script.js:64-77 | on every outcome the guard is lowered and the submit control restored; `success` thanks the sender by greeting name and empties the controls; any other status reports `Submission failed`; a failed request reports its own message |
| Submission.Cleared | script.js:69 | every control keeps its name and flags and has its value emptied |
| Submission.PhoneAccepted | script.js:34-42 | the submit-time phone check passes exactly when the phone rewrite succeeds, and the rewritten phone then passes the pattern |
| Submission.SendEmail | script.js:19-86 | a call while `sending` changes nothing and reports nothing; otherwise `sending` is false again on exit with the submit control restored; a payload is sent exactly when the phone check passes; a bad phone raises the warning and leaves the controls as they were; after a sent request, `success` thanks the sender by the greeting name of the sent name and clears the rewritten controls, and any other outcome reports an error and leaves the rewritten controls |
| Submission.OnSubmit | script.js:144-150 | a blank required control on the last step takes the focus and nothing is sent; otherwise the handler is exactly one call of `sendEmail` |
| Submission.SecondSubmitIgnored | script.js:20-21 | while a submission is in flight a second one is ignored |
| Submission.RewriteKeepsOtherEntries | script.js:42-55 | the phone rewrite leaves every payload entry but `phone` as it was |
| Submission.RewrittenPhoneEntry | script.js:42-48 | the payload's phone entry is the canonical rewrite of the form's phone |
| Submission.SentIsRewrittenPayload | script.js:42-62 | what is sent is the payload built from the controls after the phone rewrite |
| Submission.SentEntriesUnchanged | script.js:45-62 | every sent entry but `phone` is what the form held before the submission |
| Submission.SentPhone | script.js:34-62 | the sent phone is the canonical rewrite of the form's phone and passes the loose pattern; without a phone control it is sent empty |
| FormCases.TrimOfShort | script.js:117 | `12345` has no surrounding white space |
| FormCases.TrimOfDashed | script.js:117 | `555-555-5555` has no surrounding white space |
| FormCases.ShortPhoneBlocks | script.js:115-117 | a step holding only an optional telephone control with `12345` passes the required check and is blocked by the phone check |
| FormCases.DashedPhonePasses | script.js:115-117 | a step holding only an optional telephone control with `555-555-5555` passes both checks |
| FormCases.ShortPhoneBlocksAdvance | script.js:116-121 | with `12345` in the current step's telephone control, a next click raises the phone warning, focuses that control and leaves the wizard unchanged |
| FormCases.DashedPhoneAdvances | script.js:116-122 | with `555-555-5555` in the current step's telephone control, a next click advances by one and shows the submit control on arriving at the last step |
| FormCases.EnterOnLastStepNotSuppressed | script.js:136 | Enter on the last step is not suppressed and leaves the wizard unchanged |
| FormCases.BlankPhonePassesStepOnly | script.js:117 | a blank telephone value passes the step-advance check, which skips blank values, but is refused by the ten-digit check at submit time, so the two checks also disagree there |
| FormCases.GreetingExamples | script.js:67 | `Ana Lopez` is greeted as `Ana`, `Ana` as `Ana`, and an empty name as `Friend` |

## Left out

- The network request (`fetch`, the endpoint URL, the request headers, `JSON.stringify`, `res.json()`) is not modelled. Its result is the parameter `Outcome`: a response with a `status` text, or a failed request with its message. A response body that is not JSON, or has no string `status`, falls under one of those two cases.
- The order of the payload's keys in the serialised JSON is not modelled. The payload is a map with exactly the nine keys.
- The dialog library (`Swal.fire`) is not modelled. A dialog is recorded only as the `Notice` it carries: the phone warning, the thanks with the greeting name, or the error with its message. The step-advance phone warning is the `PhoneWarning` effect. Titles, HTML and colours are left out.
- DOM specifics are replaced by plain values. `aria-hidden`, the `active` class and `style.display` become one `active` flag per step. `focus()` becomes the index of the focused control in the returned effect. `preventDefault()` becomes the `prevented` flag. The submit control's `style.display` becomes `submitShown`.
- `Navigator.Edit` models the user typing into a control, which the script does not do itself; it has no source lines, so it has no row under "## Model".
- `Submission.Cleared`: `form.reset()` restores each control's default value. The model empties every value, because the default-value attribute is not part of the model.
- The current-year line (script.js:1) is not modelled. It writes a date into the page and has no bearing on the form.
- Asynchronous interleaving is not modelled. The handler waits twice, for `fetch` and for `res.json()`; the model folds both waits into `Outcome` and splits the handler once, at the request. Only a second submission is modelled while a request is in flight; other events during either wait are not modelled.
- Which controls lie inside which step is not modelled. The submit handler takes the last step's controls and the form's controls as two separate values.
- `form.dataset.sending` holds the text `'true'` or `'false'`. It is modelled as a boolean.
- Each `.lead-form` on a page has its own state. The model covers one form.
- Characters are Unicode scalar values, where JavaScript strings are UTF-16 code units. The white-space set is the fixed ECMAScript one.
- A form with no steps is not modelled. The wizard invariant requires at least one step, and `Navigator.Next` requires `current` to index a step. The script itself would fail reading `steps[current]` in that case.
- `reset()` sets `disabled = false` whatever the submit control's state was before the call, rather than restoring that state. The model follows the code: `Submission.Reset` always enables the control.
