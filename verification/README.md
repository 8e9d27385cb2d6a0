# Contact form controller of the portfolio site

This project models the one piece of behaviour in the portfolio site: the
contact form of the `Contact` component (`src/components/Contact.jsx`). It
covers four things:

- the validator `validateForm`;
- the email shape test, written as a character predicate and proved equal to
  the regular expression `/^[^\s@]+@[^\s@]+\.[^\s@]+$/`;
- the edit handler `handleChange`;
- the submit handler `handleSubmit`, together with the rule that disables the
  submit button while `isSubmitting` is set.

The project has four modules, one per file:

- `text.dfy` (`Text`): whitespace and `String.prototype.trim`. `IsWs` is the
  ECMAScript WhiteSpace and LineTerminator set. This one set is what both
  `\s` and `trim` use.
- `email.dfy` (`EmailShape`): `MatchesEmailRegex` follows the pattern's own
  structure. `IsValidEmail` is the character-level test: no whitespace,
  exactly one `@`, a non-empty part before it, and a `.` after it with a
  character on each side. `EmailCheckMatchesRegex` proves the two agree.
- `validation.dfy` (`Validation`): the four-field `formData` record, the
  `errors` map (keyed by the four input names) and `ValidateForm`.
- `contact.dfy` (`Contact`): the controller.
  - Each handler is a pure transition on the four state variables: `Change`,
    `Begin` (the part of `handleSubmit` before its `await`) and `Complete`
    (the part after it).
  - The class `ContactForm` holds those variables as fields. Its methods
    update the fields in place and are proved to perform the transitions.
  - `Session`/`Step`/`Run` add the user's side: edits, button presses that
    are ignored while the button is disabled, and the firing of the
    simulated delay. `Session.pending` counts the submissions waiting on a
    delay.
  - `SessionInv` is the invariant proved for every reachable session.

## Model

| member | source | states |
|---|---|---|
| `Text.TrimStartSpec` | src/components/Contact.jsx:91 | `trim`'s first half removes exactly the leading whitespace: the result is a suffix of the input, everything dropped is whitespace, and it does not start with whitespace |
| `Text.TrimEndSpec` | src/components/Contact.jsx:91 | `trim`'s second half removes exactly the trailing whitespace: the result is a prefix, everything dropped is whitespace, and it does not end with whitespace |
| `Text.TrimSpec` | src/components/Contact.jsx:91 | `s.trim()` is the slice of `s` between a whitespace prefix and a whitespace suffix, and it neither starts nor ends with whitespace |
| `Text.BlankIffAllWs` | src/components/Contact.jsx:91-98 | `!s.trim()` holds exactly when every character of `s` is whitespace (including the empty string) |
| `EmailShape.EmailCheckMatchesRegex` | src/components/Contact.jsx:94 | the character test (no whitespace, exactly one `@`, non-empty part before it, a `.` with a character on each side after it) accepts exactly the strings the anchored pattern matches |
| `EmailShape.PaddedEmailRejected` | src/components/Contact.jsx:94 | the pattern runs on the untrimmed value, so a leading or trailing whitespace character makes any string fail |
| `EmailShape.NoAtNoMatch` | src/components/Contact.jsx:94 | a string without `@` never matches |
| `EmailShape.SampleAddresses` | src/components/Contact.jsx:94 | `a@b.co` matches; `not-an-email` and ` a@b.co` do not |
| `Validation.ValidateForm` | src/components/Contact.jsx:89-100 | the result has a key exactly for each failing field: name, subject and message when all-whitespace, email when all-whitespace or not matched by the pattern. Each key carries its fixed message, and the two email messages are exclusive ("Email is required" when blank, else "Please enter a valid email") |
| `Validation.ValidatorErrorsAreVisible` | src/components/Contact.jsx:89-100 | every entry the validator returns is a non-empty (truthy) message |
| `Validation.AllBlankGivesFourErrors` | src/components/Contact.jsx:89-100 | whitespace-only input in all four fields gives exactly the four "… is required" messages |
| `Validation.ValidateFormEmptyIff` | src/components/Contact.jsx:89-100 | the validator returns `{}` exactly when name, subject and message each hold a non-whitespace character and the email matches the pattern |
| `Validation.ValidationIsPerField` | src/components/Contact.jsx:89-100 | no short-circuit: changing one field leaves the verdict and message for every other field unchanged |
| `Validation.PaddedEmailIsInvalid` | src/components/Contact.jsx:92-96 | a non-blank email with whitespace at either end is reported as "Please enter a valid email", not as missing |
| `Validation.MalformedEmailIsOnlyError` | src/components/Contact.jsx:89-100 | a non-blank email that does not match, with the other three fields filled in, gives exactly `{email: 'Please enter a valid email'}` |
| `Contact.Change` | src/components/Contact.jsx:102-115 | only the edited field takes the new value. If that field had a truthy error, its entry becomes `''` (the key is kept) and every other entry is unchanged; otherwise `errors` is untouched. `isSubmitting` and `submitStatus` are unchanged |
| `Contact.Begin` | src/components/Contact.jsx:117-124 | with an empty error map the controller goes to `isSubmitting` and 'sending', with `errors` unchanged; otherwise `errors` is replaced by the new map and nothing else changes. 'sending' is entered only for a filled-in form with a well-shaped email, and the step never produces 'error' |
| `Contact.Complete` | src/components/Contact.jsx:126-139 | after the await: on resolution the status is 'success' and all fields are `''`; in the `catch` the status is 'error' and the fields are kept; in both cases (`finally`) `isSubmitting` is false and `errors` is untouched. The status is 'error' exactly on rejection |
| `Contact.ContactForm.constructor` | src/components/Contact.jsx:78-87 | the initial state: four empty fields, no errors, not submitting, status `null` |
| `Contact.ContactForm.SubmitDisabled` | src/components/Contact.jsx:265 | the button is disabled exactly while the status reads 'sending' |
| `Contact.ContactForm.HandleChange` | src/components/Contact.jsx:102-115 | updates the fields in place as `Change` prescribes and keeps `isSubmitting` in step with 'sending' |
| `Contact.ContactForm.HandleSubmit` | src/components/Contact.jsx:117-124 | updates the fields in place as `Begin` prescribes and reports whether the submission started, which it does exactly when the validator returned `{}` |
| `Contact.ContactForm.ResumeSubmit` | src/components/Contact.jsx:126-139 | updates the fields in place as `Complete` prescribes for the way the awaited promise settled |
| `Contact.StartInv` | src/components/Contact.jsx:78-87 | the initial state satisfies the session invariant |
| `Contact.ChangeKeepsErrorsAccurate` | src/components/Contact.jsx:102-115 | after an edit, every error still shown is the one the validator reports for the current values: clearing one field's error never leaves a stale message on another |
| `Contact.StepInv` | src/components/Contact.jsx:102-143 | every edit, press and timer firing preserves the invariant: at most one submission waits on the delay, exactly while `isSubmitting` and 'sending' hold; the status is never 'error'; no error is shown while sending; and every shown error is accurate |
| `Contact.RunInv` | src/components/Contact.jsx:102-143 | any sequence of events preserves that invariant |
| `Contact.ReachableSessions` | src/components/Contact.jsx:122-139 | from the initial state, whatever the events, at most one submission is in flight, the button is disabled exactly while one is, `isSubmitting` holds exactly with 'sending', and 'error' is never shown, because the simulated delay never rejects |
| `Contact.SecondPressIgnored` | src/components/Contact.jsx:265 | a press while a submission is in flight changes nothing, so no second submission starts |
| `Contact.InvalidPressOnlySetsErrors` | src/components/Contact.jsx:119-142 | (the validation at lines 119-121 and the `else` branch at lines 140-142) a press on an enabled button with a failing form sets `errors` to the validator's map and leaves the fields, `isSubmitting`, the status and the pending count unchanged |
| `Contact.SuccessfulSubmission` | src/components/Contact.jsx:121-139 | from a valid form with nothing in flight, a press shows 'sending' with the button disabled and the fields kept. Once the delay fires, the status is 'success', all fields are `''`, the button is enabled and `errors` is as before |
| `Contact.ResubmitAfterSuccessNeedsInput` | src/components/Contact.jsx:89-141 | (the reset at lines 128-134, then `validateForm` at lines 89-100 through the `else` branch at lines 119-121 and 141) after a successful send, pressing again reports all four fields as required and keeps the 'success' status |

## Left out

- Rendering and animation are not modelled. This covers the motion props and
  CSS classes, `InputField`'s focus-driven border colour (lines 30-75),
  `ContactCard`'s choice of link target (lines 9-10) and the button label and
  error banner (lines 272-291). They decide what is shown.
- The browser's own handling of the inputs is not modelled. The form (line
  220) has no `noValidate`, so native constraint validation of the
  `type="email"` input (line 234) can stop the submit event before
  `handleSubmit` runs. The browser also sanitises `type="text"` and
  `type="email"` values, dropping line breaks and, for email, surrounding
  ASCII whitespace. In the model a `Press` event stands for "the submit event
  fired" and an `Edit` may carry any string, so the model admits more inputs
  than a browser lets reach the handlers; every property proved holds for
  this larger set.
- The 2000 ms delay is a `TimerFires` event, not time. Its promise is
  modelled by the constant `DelayOutcome`, which is `Resolved`, because a
  `setTimeout` promise cannot reject. `e.preventDefault()` is a DOM call and
  is left out.
- React's scheduling is not modelled. Each handler sees the latest state.
  The three updates after the `await` take effect together, as one batched
  render. Stale closures over `errors` between two renders are not modelled.
- `Contact.ContactForm.HandleSubmit` does not check `isSubmitting`, because
  `handleSubmit` itself does not. The disabled button (line 265) is modelled
  in `Step`, which ignores a press while a submission is in flight.
- Form field names are the `Field` datatype, not arbitrary strings. The
  only `name` attributes the form's inputs carry are `name`, `email`,
  `subject` and `message` (lines 225-257).
- Characters are Unicode scalar values, not UTF-16 code units. Every
  character the pattern and `trim` test for lies in the Basic Multilingual
  Plane. So a pair of surrogate code units gets the same verdict as the one
  scalar value they encode. A JavaScript string may also hold an unpaired
  surrogate, which Dafny's `char` cannot represent; such a code unit is in
  `[^\s@]` and is not removed by `trim`, so it would count like any other
  non-whitespace character. `IsWs` follows the current Unicode list of
  space separators.
- Where the form's behaviour may be surprising, the model follows the code:
  - the status takes only the values `null`, 'sending', 'success' and
    'error', and validation runs without a status of its own;
  - the last part of an email may not contain `@`;
  - an edit sets the field's error to `''` instead of deleting the key;
  - a failed validation replaces `errors` and leaves the status as it was.
- `Projects.jsx`, `Footer.jsx`, `Hero.jsx`, `About.jsx`, `Skills.jsx`,
  `Education.jsx`, `Aurora.jsx` and `App.jsx` are not part of this model.
  They hold static content and presentation, plus DOM side effects: the
  modal's scroll lock and the footer's scrolling.
