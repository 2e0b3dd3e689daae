# Contact form rules, modelled in Dafny

A model of the rules inside the contact-form script `script.js`: the three
field validators and the email pattern, the character budget and completion
percentage, HTML escaping for the live preview, the submit handler's decision
order with its duplicate-submission guard, and draft persistence (save, clear,
restore and the eight-second auto-save). The DOM is replaced by plain values:
a validator returns `(valid, error text)` instead of writing to the page, the
three inputs are a `Fields` value held by a `ContactForm` object, `Date.now()`
is a `now: int` parameter, and `localStorage` under the key
`contact_form_draft_v1` is an `Option<Payload>` field of a `DraftStore`.

Modules (one file each): `Wrappers` (Option), `Strings` (`trim` and the
whitespace set), `Validation`, `Metrics`, `Escaping`, `Guard`
(`SubmissionGuard` with `lastMessage`/`lastSubmitTime`), `Drafts`
(`DraftStore` with the storage slot and `lastAuto`), `Form` (`ContactForm`,
the submit handler and the draft buttons).

Main results:
- each validator is valid exactly when its trimmed input meets its rule, and
  picks "empty" before "too short"/"bad format";
- the first-`@` split test accepts exactly the language of
  `/^[^\s@]+@[^\s@]+\.[^\s@]+$/`;
- the progress score lies in 0..100, is 100 exactly when name and email are
  non-blank and the trimmed message has 250 characters, and 0 exactly when
  both are blank and the message has under 7;
- `escapeHtml` leaves no `<` or `>`, every `&` starts an entity, it equals
  escaping each character once, and it can be undone;
- a submit focuses the first invalid field in the order name, email, message
  and touches neither guard nor storage; with all fields valid, the guard
  turns away the same trimmed message within 10000 ms of the last completed
  submission, and only the completion step updates the guard;
- a saved draft restores to the saved fields; a missing or corrupt draft
  leaves the fields alone; a missing field restores as `''`; an auto-save
  tick writes only when the fields changed since its last write.

Two separate steps model the submission: `Submit` decides and `CompleteSubmission` is the
timer callback 1400 ms later. Like the script, the completion step reads the
inputs at that moment, and it stamps the guard with its own `now`.

## Model

| member | source | states |
|---|---|---|
| Strings.TrimStart | script.js:52 | the result is the suffix of the input after its leading whitespace, and starts with a non-whitespace character or is empty |
| Strings.TrimEnd | script.js:52 | the result is the prefix of the input before its trailing whitespace, and ends with a non-whitespace character or is empty |
| Strings.Trim | script.js:52 | `trim()` is a slice of the input with only whitespace cut off either end, has no whitespace at its ends, and is empty iff the input is all whitespace |
| Strings.TrimUntrimmed | script.js:52 | trimming a string without whitespace at its ends changes nothing |
| Strings.TrimIdempotent | script.js:52 | trimming twice equals trimming once |
| Validation.MatchesEmailPattern | script.js:36 | the executable `emailRegex.test`, split at the first `@`; it accepts exactly the regex's language, as `Validation.MatchesEmailPatternIffShape` proves |
| Validation.MatchesEmailPatternSound | script.js:36 | every string the first-`@` split test accepts is `local@domain.tld` with three non-empty `[^\s@]+` parts |
| Validation.MatchesEmailPatternComplete | script.js:36 | every `local@domain.tld` with three non-empty `[^\s@]+` parts passes the split test |
| Validation.MatchesEmailPatternIffShape | script.js:36 | the split test accepts exactly the regex's language |
| Validation.EmailShapeLength | script.js:36 | an address matching the pattern has at least five characters |
| Validation.ValidateName | script.js:51-63 | valid iff the trimmed name has at least 2 characters; error empty iff valid; "Name is required." for a blank name, "Use at least 2 characters." for one character |
| Validation.ValidateEmail | script.js:65-77 | valid iff the trimmed address matches the pattern; "Email is required." for a blank address, otherwise "Enter a valid email address." when invalid |
| Validation.ValidateMessage | script.js:79-91 | valid iff the trimmed message has at least 6 characters; "Message is required." for a blank one, "Message is too short." for 1 to 5 characters |
| Validation.ValidatorsIgnoreSurroundingWhitespace | script.js:51-91 | inputs with the same trimmed text get the same verdicts from all three validators |
| Validation.EmailSampleValid | script.js:65-77 | `b@c.de` is a valid address |
| Validation.EmailSamplesInvalid | script.js:65-77 | `x` and `a@.b` are malformed; a blank address is reported as required |
| Metrics.CharsRemaining | script.js:96-99 | characters left plus message length is 250; 250 iff the message is empty; negative iff it is longer than 250 (no clamping, untrimmed) |
| Metrics.CharsRemainingSamples | script.js:96-99 | 250 for `""`, -10 for 260 characters |
| Metrics.MessagePoints | script.js:115 | the message share never exceeds 40 |
| Metrics.MessagePointsShape | script.js:115 | the message share is monotone in the trimmed length, 40 iff the length is at least 250, 0 iff it is under 7 |
| Metrics.UpdateProgress | script.js:111-117 | the score lies in 0..100, is 30 per non-blank name/email plus the message share, is 100 iff both are non-blank and the trimmed message has 250 characters, 0 iff both are blank and the message has under 7 |
| Metrics.ProgressSamples | script.js:111-117 | 0 for three blank fields, 100 for `A`, `b@c.de` and 250 characters |
| Escaping.ReplaceAll | script.js:107 | the replaced character no longer occurs unless the replacement holds it; every output character comes from the replacement or is an input character other than the replaced one |
| Escaping.ReplaceAllAppend | script.js:107 | `replaceAll` distributes over concatenation |
| Escaping.EscapeHtml | script.js:106-108 | the escaped text contains no `<` and no `>` |
| Escaping.EscapeHtmlAppend | script.js:106-108 | escaping distributes over concatenation |
| Escaping.EscapeHtmlChar | script.js:106-108 | one character escapes to its own entity (or itself) |
| Escaping.EscapeHtmlIsPerCharacter | script.js:106-108 | the three ordered passes equal escaping each character exactly once, so no entity is escaped twice |
| Escaping.EscapeEachAmpersands | script.js:106-108 | in per-character escaping every `&` begins `&amp;`, `&lt;` or `&gt;` |
| Escaping.EscapeHtmlAmpersands | script.js:106-108 | in `escapeHtml`'s output every `&` begins `&amp;`, `&lt;` or `&gt;` |
| Escaping.UnescapeEscapeEach | script.js:106-108 | per-character escaping can be undone |
| Escaping.UnescapeEscapeHtml | script.js:106-108 | decoding the three entities recovers the original text |
| Guard.Blocks | script.js:206 | the guard's rule; with nothing recorded yet (`lastMessage` empty) it turns away only a blank candidate, and `Guard.CooldownWindow` gives its window after a recording |
| Guard.SubmissionGuard.constructor | script.js:30-31 | the guard starts with `lastMessage` empty and `lastSubmitTime` 0 |
| Guard.SubmissionGuard.Check | script.js:204-209 | allows iff the trimmed candidate differs from `lastMessage` or at least 10000 ms have passed; changes nothing |
| Guard.SubmissionGuard.Record | script.js:224-226 | the guard then holds the trimmed message and the given time |
| Guard.CooldownWindow | script.js:206 | after recording a message at `t`, the same trimmed text is blocked exactly before `t + 10000`, and other texts are never blocked |
| Guard.CooldownSamples | script.js:206 | `hello` is blocked 5000 ms later, allowed 11000 ms later, and `different` is allowed 1 ms later |
| Drafts.Snapshot | script.js:124-129 | the record `saveDraftToLocal` writes (the auto-save's, at line 297, is the same); `Drafts.RestoreAfterSave` proves restoring it gives back exactly the saved fields |
| Drafts.Restored | script.js:141-149 | the inputs after `restoreDraft`; `Drafts.RestoreWithoutDraft` and `Drafts.RestoreParsed` prove its fallback and its per-field `''` default |
| Drafts.RestoreAfterSave | script.js:123-151 | a saved draft restores to exactly the saved name, email and message |
| Drafts.RestoreWithoutDraft | script.js:141-149 | with no draft or an unparsable one, restoring leaves the fields unchanged |
| Drafts.RestoreParsed | script.js:146-148 | a parsed draft sets every field, to `''` when the stored property is missing or falsy |
| Drafts.DraftStore.constructor | script.js:292 | the store holds what the key held at load, and the auto-save snapshot is unset |
| Drafts.DraftStore.Save | script.js:123-130 | the key then holds the current fields and time |
| Drafts.DraftStore.Clear | script.js:134-135 | the key then holds nothing |
| Drafts.DraftStore.Restore | script.js:141-151 | the returned fields are the restored ones; no draft or a corrupt one returns the current fields |
| Drafts.DraftStore.AutoSaveTick | script.js:292-300 | writes iff the fields differ from the last auto-saved snapshot, then remembers them; otherwise storage is unchanged |
| Drafts.TickTwice | script.js:293-300 | a second tick with unchanged fields writes nothing |
| Form.Decide | script.js:196-209 | focus goes to name iff the name is invalid, to email iff the name is valid and the email invalid, to message iff only the message is invalid; with all valid, blocked iff the guard blocks, accepted otherwise |
| Form.GuardIrrelevantWhenInvalid | script.js:196-202 | with an invalid field the outcome does not depend on the guard |
| Form.SubmitDecision | script.js:192-209 | the handler's decision: rejected iff some field is invalid; with all valid, blocked iff the guard's rule holds for the message, accepted otherwise |
| Form.FreshGuardNeverBlocks | script.js:30-31 | a form whose fields all validate is accepted by the guard as it stands at page load |
| Form.RepeatWithinCooldownBlocked | script.js:204-209 | valid fields whose message was recorded under 10000 ms ago are turned away |
| Form.BlankNameFocusesName | script.js:192-201 | name `""`, email `x`, message `hello!` is rejected with focus on the name |
| Form.ContactForm.constructor | script.js:30-31 | at script start the guard is fresh, storage holds what the key held from earlier sessions, the auto-save snapshot is unset, and the inputs are blank; restoring is the separate `load` step |
| Form.ContactForm.Edit | script.js:174-177 | the inputs then hold the typed values |
| Form.ContactForm.Submit | script.js:190-213 | all three validators run on the current inputs and their results are returned; the outcome is `Decide` applied to their verdicts and to the guard's rule on the trimmed message; nothing changes |
| Form.ContactForm.CompleteSubmission | script.js:216-232 | greets by the trimmed name or `there`, records the trimmed message with the completion time in the guard, and blanks the inputs |
| Form.ContactForm.SaveDraft | script.js:252 | the key then holds the current inputs |
| Form.ContactForm.ClearDraft | script.js:134-140 | the key then holds nothing and the inputs are blank |
| Form.ContactForm.RestoreDraft | script.js:255-258 | the `load` handler: the inputs then hold `Restored` of the storage slot and their previous values |
| Form.ContactForm.AutoSave | script.js:292-300 | writes iff the inputs changed since the last auto-save, and remembers them |
| Form.SampleFieldsValid | script.js:51-91 | `Al`, `b@c.de`, `hello!` pass all three validators |
| Form.DuplicateWithinCooldown | script.js:204-226 | the same valid fields submitted twice within ten seconds are accepted once and then blocked |
| Form.LoadBeforeFirstTick | script.js:141-151 | when `load` runs before the first auto-save tick, the saved draft comes back into the inputs |
| Form.TickBeforeLoad | script.js:292-300 | when the first tick fires before `load`, it overwrites the saved draft with the blank inputs, and restoring then gives blank fields |
| Form.ClearThenTick | script.js:134-140 | after Clear Draft and a tick, storage is empty or holds a blank draft, and restoring gives blank fields |
| Form.RetypeAfterClear | script.js:292-300 | clearing does not reset the snapshot: retyping the last auto-saved values leaves the key empty at the next tick |

## Left out

- DOM wiring: element lookups, `setValid`/`setInvalid`/`clearState`, error `textContent`, the preview markup around the escaped text (`—`/`(empty)` fallbacks, newline to `<br/>`), the modal, the theme toggle, the back-to-top button and the keyboard shortcuts only call the modelled operations or have no rule in them.
- Timers: the 1400 ms delay, the 8000 ms interval and the `load` event are replaced by explicit calls to `CompleteSubmission`, `AutoSave` and `RestoreDraft`, in whatever order a caller makes them (both orders of the first tick and `load` are shown by `Form.LoadBeforeFirstTick` and `Form.TickBeforeLoad`); the "Saved ✓"/"Cleared ✓" label resets are presentation.
- `localStorage` and JSON: a stored value is a `Payload` (a parsed record, or text that fails to parse); `JSON.stringify`/`JSON.parse` are not modelled.
- Storage failures: the script does not catch an exception from `setItem` or `removeItem` (storage disabled or over quota), so the model has no such error path.
- Drafts.DraftRecord: a stored property that is truthy but not a string is taken as the string the input would display; the coercion itself is not modelled.
- Metrics.MessagePoints: `Math.floor((len/250)*40)` in floating point is modelled as the integer `len*40/250`.
- Strings.Trim: lengths count Unicode scalar values, not UTF-16 code units as JavaScript's `length` does.
- The submit button is disabled between a submit and its completion; the model has no such flag, so it does not rule out a second `Submit` before `CompleteSubmission`.
- The maxlength auto-advance and Enter-to-next-field handlers depend on the DOM's `maxLength` and only move focus.

