/**
 * The contact form's data and its validator, `validateForm`.
 */
module Validation {
  import opened Text
  import opened EmailShape

  /** The four inputs of the form, by their `name` attribute. */
  datatype Field = Name | Email | Subject | Message

  /** The `formData` record: one string per input. */
  datatype Fields = Fields(name: string, email: string, subject: string, message: string)
  {
    /** `formData[f]`. */
    function Get(f: Field): string
    {
      match f
      case Name => name
      case Email => email
      case Subject => subject
      case Message => message
    }

    /** `{ ...formData, [f]: v }`: the record with one field replaced. */
    function With(f: Field, v: string): (r: Fields)
      ensures r.Get(f) == v
      ensures forall g :: g != f ==> r.Get(g) == Get(g)
    {
      match f
      case Name => this.(name := v)
      case Email => this.(email := v)
      case Subject => this.(subject := v)
      case Message => this.(message := v)
    }
  }

  /** The record every field of which is empty, as the form starts and as a successful send leaves it. */
  const EmptyFields: Fields := Fields("", "", "", "")

  /**
   * The `errors` object: a message per field. A field has a visible error
   * when its entry is present and non-empty (a truthy string).
   */
  type ErrorMap = map<Field, string>

  const NameRequired: string := "Name is required"
  const EmailRequired: string := "Email is required"
  const EmailInvalid: string := "Please enter a valid email"
  const SubjectRequired: string := "Subject is required"
  const MessageRequired: string := "Message is required"

  /** `errors[f]` is truthy. */
  predicate HasError(errs: ErrorMap, f: Field)
  {
    f in errs && errs[f] != ""
  }

  /**
   * `validateForm`: every field is checked, each on its own. A field made
   * only of whitespace is required; a non-blank email that the pattern does
   * not match (tested on the untrimmed value) is invalid. The result holds an
   * entry for exactly the fields that fail, each with its fixed message.
   */
  function ValidateForm(d: Fields): (errs: ErrorMap)
    ensures Name in errs <==> AllWs(d.name)
    ensures Email in errs <==> AllWs(d.email) || !MatchesEmailRegex(d.email)
    ensures Subject in errs <==> AllWs(d.subject)
    ensures Message in errs <==> AllWs(d.message)
    ensures Name in errs ==> errs[Name] == NameRequired
    ensures Email in errs ==> errs[Email] == (if AllWs(d.email) then EmailRequired else EmailInvalid)
    ensures Subject in errs ==> errs[Subject] == SubjectRequired
    ensures Message in errs ==> errs[Message] == MessageRequired
  {
    BlankIffAllWs(d.name);
    BlankIffAllWs(d.email);
    BlankIffAllWs(d.subject);
    BlankIffAllWs(d.message);
    EmailCheckMatchesRegex(d.email);
    var e0: ErrorMap := map[];
    var e1 := if IsBlank(d.name) then e0[Name := NameRequired] else e0;
    var e2 :=
      if IsBlank(d.email) then e1[Email := EmailRequired]
      else if !IsValidEmail(d.email) then e1[Email := EmailInvalid]
      else e1;
    var e3 := if IsBlank(d.subject) then e2[Subject := SubjectRequired] else e2;
    var e4 := if IsBlank(d.message) then e3[Message := MessageRequired] else e3;
    e4
  }

  /** Every entry the validator produces is a visible (non-empty) message. */
  lemma ValidatorErrorsAreVisible(d: Fields, f: Field)
    ensures f in ValidateForm(d) <==> HasError(ValidateForm(d), f)
  {
  }

  /** All-blank input yields exactly the four "required" messages. */
  lemma AllBlankGivesFourErrors(d: Fields)
    requires AllWs(d.name) && AllWs(d.email) && AllWs(d.subject) && AllWs(d.message)
    ensures ValidateForm(d) ==
      map[Name := NameRequired, Email := EmailRequired,
          Subject := SubjectRequired, Message := MessageRequired]
  {
  }

  /** The validator reports nothing exactly when every field is filled in and the email has the accepted shape. */
  lemma ValidateFormEmptyIff(d: Fields)
    ensures ValidateForm(d) == map[] <==>
      && !AllWs(d.name) && !AllWs(d.subject) && !AllWs(d.message)
      && MatchesEmailRegex(d.email)
  {
  }

  /**
   * No short-circuit: changing one field leaves the validator's verdict on
   * every other field exactly as it was.
   */
  lemma ValidationIsPerField(d: Fields, f: Field, v: string, g: Field)
    requires g != f
    ensures g in ValidateForm(d.With(f, v)) <==> g in ValidateForm(d)
    ensures g in ValidateForm(d) ==> ValidateForm(d.With(f, v))[g] == ValidateForm(d)[g]
  {
  }

  /**
   * The email is matched untrimmed: a non-blank email with whitespace at
   * either end is reported invalid, not missing.
   */
  lemma PaddedEmailIsInvalid(d: Fields)
    requires !AllWs(d.email)
    requires IsWs(d.email[0]) || IsWs(d.email[|d.email| - 1])
    ensures Email in ValidateForm(d) && ValidateForm(d)[Email] == EmailInvalid
  {
  }

  /**
   * A non-blank email the pattern rejects, beside three filled-in fields,
   * gives exactly one message: "Please enter a valid email".
   */
  lemma MalformedEmailIsOnlyError(d: Fields)
    requires !AllWs(d.name) && !AllWs(d.subject) && !AllWs(d.message)
    requires !AllWs(d.email) && !MatchesEmailRegex(d.email)
    ensures ValidateForm(d) == map[Email := EmailInvalid]
  {
  }
}
