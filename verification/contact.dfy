/**
 * The submission controller of the `Contact` component: its four pieces of
 * state (`formData`, `errors`, `isSubmitting`, `submitStatus`), the edit
 * handler, the two halves of the submit handler on either side of its
 * `await`, and the rule that disables the submit button while a submission
 * is in flight.
 *
 * Each handler is a pure transition on `State` (Change, Begin, Complete)
 * and a method of `ContactForm` that updates the fields in place and is
 * proved to perform that transition. `Session` adds the user's view: edits,
 * presses of the submit button (ignored while it is disabled) and the firing
 * of the simulated network delay.
 */
module Contact {
  import opened Text
  import opened EmailShape
  import opened Validation

  /** `submitStatus`: `null` (Idle), 'sending', 'success' or 'error'. */
  datatype Status = Idle | Sending | Success | Error

  /** How the awaited promise settles. */
  datatype Settled = Resolved | Rejected

  /**
   * The awaited `new Promise(resolve => setTimeout(resolve, 2000))` only
   * ever resolves.
   */
  const DelayOutcome: Settled := Resolved

  /** The component's state. */
  datatype State = State(
    formData: Fields,
    errors: ErrorMap,
    isSubmitting: bool,
    submitStatus: Status)

  /** The state the component is created with. */
  const Initial: State := State(EmptyFields, map[], false, Idle)

  /** The submit button is enabled exactly when no submission is in flight. */
  predicate SubmitEnabled(s: State)
  {
    !s.isSubmitting
  }

  /** `isSubmitting` is set exactly while the status reads 'sending'. */
  ghost predicate Consistent(s: State)
  {
    s.isSubmitting <==> s.submitStatus == Sending
  }

  /**
   * Every error the form shows is one the validator reports for the current
   * field values, with the same message: an error can disappear early (on
   * an edit), but it is never shown for a field that is no longer at fault.
   */
  ghost predicate ErrorsAccurate(s: State)
  {
    forall f :: HasError(s.errors, f) ==>
      f in ValidateForm(s.formData) && s.errors[f] == ValidateForm(s.formData)[f]
  }

  /**
   * `handleChange`: the edited field takes the new value and the other three
   * keep theirs. If the field showed an error, that entry becomes '' and
   * every other entry is kept; otherwise `errors` is left alone.
   */
  function Change(s: State, f: Field, v: string): (r: State)
    ensures r.formData.Get(f) == v
    ensures forall g :: g != f ==> r.formData.Get(g) == s.formData.Get(g)
    ensures !HasError(r.errors, f)
    ensures HasError(s.errors, f) ==> f in r.errors && r.errors[f] == ""
    ensures !HasError(s.errors, f) ==> r.errors == s.errors
    ensures r.errors.Keys == s.errors.Keys
    ensures forall g | g in s.errors && g != f :: r.errors[g] == s.errors[g]
    ensures r.isSubmitting == s.isSubmitting && r.submitStatus == s.submitStatus
  {
    var errors := if HasError(s.errors, f) then s.errors[f := ""] else s.errors;
    s.(formData := s.formData.With(f, v), errors := errors)
  }

  /**
   * `handleSubmit` up to its `await`: when the validator reports nothing,
   * the submission starts ('sending', `isSubmitting`); otherwise the
   * validator's map replaces `errors` and nothing else changes. A
   * submission only starts for a filled-in form with a well-shaped email.
   */
  function Begin(s: State): (r: State)
    ensures r.formData == s.formData
    ensures ValidateForm(s.formData) == map[] ==>
      r.isSubmitting && r.submitStatus == Sending && r.errors == s.errors
    ensures ValidateForm(s.formData) != map[] ==>
      && r.errors == ValidateForm(s.formData)
      && r.isSubmitting == s.isSubmitting && r.submitStatus == s.submitStatus
    ensures r.submitStatus == Sending && s.submitStatus != Sending ==>
      && !AllWs(s.formData.name) && !AllWs(s.formData.subject) && !AllWs(s.formData.message)
      && MatchesEmailRegex(s.formData.email)
    ensures r.submitStatus == Error ==> s.submitStatus == Error
  {
    var newErrors := ValidateForm(s.formData);
    ValidateFormEmptyIff(s.formData);
    if |newErrors| == 0 then
      s.(isSubmitting := true, submitStatus := Sending)
    else
      s.(errors := newErrors)
  }

  /**
   * `handleSubmit` after its `await`: on resolution the status becomes
   * 'success' and every field is emptied; on rejection (the `catch`) the
   * status becomes 'error' and the fields are kept. Either way (`finally`)
   * `isSubmitting` ends false, and `errors` is not touched.
   */
  function Complete(s: State, p: Settled): (r: State)
    ensures !r.isSubmitting && r.errors == s.errors
    ensures p == Resolved ==> r.submitStatus == Success && r.formData == EmptyFields
    ensures p == Rejected ==> r.submitStatus == Error && r.formData == s.formData
    ensures r.submitStatus == Error <==> p == Rejected
  {
    var s1 :=
      match p
      case Resolved => s.(submitStatus := Success, formData := EmptyFields)
      case Rejected => s.(submitStatus := Error);
    s1.(isSubmitting := false)
  }

  /** The component, with the four state variables as fields. */
  class ContactForm {
    var formData: Fields
    var errors: ErrorMap
    var isSubmitting: bool
    var submitStatus: Status

    /** The fields as one value. */
    function Snapshot(): State
      reads this
    {
      State(formData, errors, isSubmitting, submitStatus)
    }

    ghost predicate Valid()
      reads this
    {
      Consistent(Snapshot())
    }

    /** The four `useState` initialisers. */
    constructor ()
      ensures Valid()
      ensures Snapshot() == Initial
    {
      formData := EmptyFields;
      errors := map[];
      isSubmitting := false;
      submitStatus := Idle;
    }

    /** `disabled={isSubmitting}` on the submit button. */
    predicate SubmitDisabled()
      reads this
      requires Valid()
      ensures SubmitDisabled() <==> submitStatus == Sending
    {
      isSubmitting
    }

    /** `handleChange` for the input named `field`, now holding `value`. */
    method HandleChange(field: Field, value: string)
      requires Valid()
      modifies this
      ensures Valid()
      ensures Snapshot() == Change(old(Snapshot()), field, value)
    {
      formData := formData.With(field, value);
      if HasError(errors, field) {
        errors := errors[field := ""];
      }
    }

    /**
     * `handleSubmit` up to the `await`; `started` tells whether the
     * submission went on to wait for the simulated delay.
     */
    method HandleSubmit() returns (started: bool)
      requires Valid()
      modifies this
      ensures Valid()
      ensures Snapshot() == Begin(old(Snapshot()))
      ensures started <==> ValidateForm(old(formData)) == map[]
    {
      var newErrors := ValidateForm(formData);
      if |newErrors| == 0 {
        isSubmitting := true;
        submitStatus := Sending;
        started := true;
      } else {
        errors := newErrors;
        started := false;
      }
    }

    /** The rest of `handleSubmit`, once the awaited promise has settled as `settled`. */
    method ResumeSubmit(settled: Settled)
      requires Valid()
      modifies this
      ensures Valid()
      ensures Snapshot() == Complete(old(Snapshot()), settled)
    {
      if settled == Resolved {
        submitStatus := Success;
        formData := EmptyFields;
      } else {
        submitStatus := Error;
      }
      isSubmitting := false;
    }
  }

  /** What the user and the timer can do to the form. */
  datatype Event =
    | Edit(field: Field, value: string)  // typing into an input
    | Press                              // pressing the submit button
    | TimerFires                         // the simulated delay elapses

  /** The component's state and the number of submissions waiting on the delay. */
  datatype Session = Session(state: State, pending: nat)

  /** The form as first shown. */
  const Start: Session := Session(Initial, 0)

  /**
   * One event. A press while the button is disabled does nothing; an
   * enabled press runs `handleSubmit` up to its `await`, arming one delay if
   * the submission started. When a delay fires, the waiting submission
   * resumes with the outcome of the simulated call.
   */
  function Step(ss: Session, e: Event): Session
  {
    match e
    case Edit(f, v) => ss.(state := Change(ss.state, f, v))
    case Press =>
      if !SubmitEnabled(ss.state) then ss
      else
        var started := ValidateForm(ss.state.formData) == map[];
        Session(Begin(ss.state), if started then ss.pending + 1 else ss.pending)
    case TimerFires =>
      if ss.pending == 0 then ss
      else Session(Complete(ss.state, DelayOutcome), ss.pending - 1)
  }

  /** A sequence of events, in order. */
  function Run(ss: Session, events: seq<Event>): Session
    decreases |events|
  {
    if events == [] then ss else Run(Step(ss, events[0]), events[1..])
  }

  /**
   * What holds of every session the form can reach: at most one submission
   * in flight, exactly while `isSubmitting` and 'sending' are shown; never
   * 'error'; no error shown while sending; and every shown error accurate.
   */
  ghost predicate SessionInv(ss: Session)
  {
    && ss.pending <= 1
    && (ss.pending == 1 <==> ss.state.isSubmitting)
    && Consistent(ss.state)
    && ss.state.submitStatus != Error
    && (ss.state.isSubmitting ==> forall f :: !HasError(ss.state.errors, f))
    && ErrorsAccurate(ss.state)
  }

  /** The form starts in a state that satisfies the invariant. */
  lemma StartInv()
    ensures SessionInv(Start)
  {
  }

  /** An edit keeps every shown error accurate: the edited field's error goes, the others stand. */
  lemma ChangeKeepsErrorsAccurate(s: State, f: Field, v: string)
    requires ErrorsAccurate(s)
    ensures ErrorsAccurate(Change(s, f, v))
  {
  }

  /** Every event keeps the invariant. */
  lemma StepInv(ss: Session, e: Event)
    requires SessionInv(ss)
    ensures SessionInv(Step(ss, e))
  {
    var r := Step(ss, e);
    match e
    case Edit(f, v) =>
      ChangeKeepsErrorsAccurate(ss.state, f, v);
    case Press =>
      if SubmitEnabled(ss.state) {
        var errs := ValidateForm(ss.state.formData);
        if errs == map[] {
          assert r == Session(ss.state.(isSubmitting := true, submitStatus := Sending), 1);
        } else {
          assert r == Session(ss.state.(errors := errs), ss.pending);
        }
      }
    case TimerFires =>
      if ss.pending > 0 {
        assert r == Session(Complete(ss.state, Resolved), 0);
      }
  }

  /** Any sequence of events keeps the invariant. */
  lemma {:induction false} RunInv(ss: Session, events: seq<Event>)
    requires SessionInv(ss)
    ensures SessionInv(Run(ss, events))
    decreases |events|
  {
    if events != [] {
      StepInv(ss, events[0]);
      RunInv(Step(ss, events[0]), events[1..]);
    }
  }

  /**
   * Whatever the user does, at most one submission is ever in flight, the
   * button is disabled exactly while one is, and 'error' is never shown:
   * the `catch` that sets it needs a rejection the simulated delay never
   * produces.
   */
  lemma ReachableSessions(events: seq<Event>)
    ensures var ss := Run(Start, events);
      && ss.pending <= 1
      && (ss.pending == 1 <==> !SubmitEnabled(ss.state))
      && (ss.state.isSubmitting <==> ss.state.submitStatus == Sending)
      && ss.state.submitStatus != Error
  {
    StartInv();
    RunInv(Start, events);
  }

  /** A press while a submission is in flight changes nothing: no second submission starts. */
  lemma SecondPressIgnored(ss: Session)
    requires SessionInv(ss) && ss.pending == 1
    ensures Step(ss, Press) == ss
  {
  }

  /**
   * A rejected press: with something to report, the validator's map becomes
   * `errors`, the fields are kept, and neither the status nor the button
   * changes.
   */
  lemma InvalidPressOnlySetsErrors(ss: Session)
    requires SessionInv(ss) && SubmitEnabled(ss.state)
    requires ValidateForm(ss.state.formData) != map[]
    ensures var r := Step(ss, Press);
      && r.state.errors == ValidateForm(ss.state.formData)
      && r.state.formData == ss.state.formData
      && r.state.isSubmitting == ss.state.isSubmitting
      && r.state.submitStatus == ss.state.submitStatus
      && r.pending == ss.pending
  {
  }

  /**
   * The happy path: from a filled-in form with nothing in flight, a press
   * shows 'sending' with the button disabled, and once the delay fires the
   * form shows 'success', every field is empty, the button is enabled again
   * and `errors` is as it was.
   */
  lemma SuccessfulSubmission(s: State)
    requires !s.isSubmitting
    requires ValidateForm(s.formData) == map[]
    ensures var mid := Step(Session(s, 0), Press);
      && mid.state.submitStatus == Sending && !SubmitEnabled(mid.state) && mid.pending == 1
      && mid.state.formData == s.formData
    ensures var done := Run(Session(s, 0), [Press, TimerFires]);
      && done.state == State(EmptyFields, s.errors, false, Success)
      && done.pending == 0
  {
  }

  /**
   * After a successful send every field is empty, so pressing again reports
   * all four fields as required until the user types something.
   */
  lemma ResubmitAfterSuccessNeedsInput(s: State)
    ensures var r := Begin(Complete(s, Resolved));
      && r.submitStatus == Success && !r.isSubmitting
      && r.errors == map[Name := NameRequired, Email := EmailRequired,
                          Subject := SubjectRequired, Message := MessageRequired]
  {
  }
}
