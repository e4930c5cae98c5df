/** The landing page's lead form: its state (`fullName`, `email`, `phone`,
    `consent`, `loading`, `error`, `success`), the submit handler with its
    validation ladder, and the switch to the success view. */
module LandingPage {
  import opened JsValue
  import opened Text
  import opened Email
  import LeadRoute

  /** The JSON payload the form posts; `None` fields are left out of the JSON. */
  datatype Payload = Payload(fullName: string, email: string, phone: Option<string>,
                             consent: bool, source: Option<string>)

  /** What the request produced: a response with its `ok` flag and body text, or
      a thrown error with its message. */
  datatype FetchOutcome = Responded(ok: bool, text: string) | Threw(message: string)

  /** The two views the page renders. */
  datatype View = FormView | SuccessView

  /** The three ways the form refuses to submit. */
  datatype FormProblem = NameOrEmailMissing | EmailMalformed | ConsentMissing {
    /** The message shown for the problem. */
    function Message(): (m: string)
      ensures m != ""
    {
      match this
      case NameOrEmailMissing => "Please enter your name and email."
      case EmailMalformed => "Please enter a valid email address."
      case ConsentMissing => "Please agree to be contacted to continue."
    }
  }

  const FailedToSubmitMessage := "Failed to submit"
  const FallbackMessage := "Something went wrong"

  /** The form's validation ladder: an empty name or e-mail first, then the
      e-mail format, then consent. The name is not trimmed. */
  function FormError(fullName: string, email: string, consent: bool): Option<FormProblem> {
    if fullName == "" || email == "" then Some(NameOrEmailMissing)
    else if !IsValidEmail(email) then Some(EmailMalformed)
    else if !consent then Some(ConsentMissing)
    else None
  }

  /** The payload: `phone || undefined` drops an empty phone; the other fields are
      sent as they are. */
  function BuildPayload(fullName: string, email: string, phone: string, consent: bool,
                        source: Option<string>): Payload
  {
    Payload(fullName, email, if phone == "" then None else Some(phone), consent, source)
  }

  /** A request that comes back `ok` is the only success. */
  predicate Succeeded(outcome: FetchOutcome) {
    outcome.Responded? && outcome.ok
  }

  /** `err?.message || 'Something went wrong'`. */
  function CaughtMessage(message: string): (m: string)
    ensures m != ""
    ensures message != "" ==> m == message
  {
    if message != "" then message else FallbackMessage
  }

  /** The error shown after a failed request: a non-ok response throws its body
      text, or "Failed to submit" when that is empty; the catch shows the thrown
      message, or the fallback when it is empty. */
  function FailureMessage(outcome: FetchOutcome): (m: string)
    requires !Succeeded(outcome)
    ensures m != ""
  {
    match outcome
    case Responded(_, text) => CaughtMessage(if text != "" then text else FailedToSubmitMessage)
    case Threw(message) => CaughtMessage(message)
  }

  /** The page component's state. */
  class LeadForm {
    var fullName: string
    var email: string
    var phone: string
    var consent: bool
    /** The `utm_source` query parameter, read once when the page mounts. */
    const utmSource: Option<string>
    var loading: bool
    var error: Option<string>
    var success: bool

    constructor (utmSource: Option<string>)
      ensures fullName == "" && email == "" && phone == "" && !consent
      ensures this.utmSource == utmSource
      ensures !loading && error == None && !success
    {
      fullName, email, phone, consent := "", "", "", false;
      this.utmSource := utmSource;
      loading, error, success := false, None, false;
    }

    method SetFullName(value: string)
      modifies this`fullName
      ensures fullName == value
    {
      fullName := value;
    }

    method SetEmail(value: string)
      modifies this`email
      ensures email == value
    {
      email := value;
    }

    method SetPhone(value: string)
      modifies this`phone
      ensures phone == value
    {
      phone := value;
    }

    method SetConsent(value: bool)
      modifies this`consent
      ensures consent == value
    {
      consent := value;
    }

    /** The view rendered: the success view once `success` is set. */
    function CurrentView(): (v: View)
      reads this
      ensures v == SuccessView <==> success
    {
      if success then SuccessView else FormView
    }

    /** The part of `handleSubmit` before the request is awaited: clear the
        error, run the validation ladder, and either show its message or turn
        `loading` on and produce the payload. */
    method BeginSubmit() returns (request: Option<Payload>)
      modifies this`error, this`loading
      ensures request.Some? <==> FormError(fullName, email, consent).None?
      ensures request.None? ==>
                error == Some(FormError(fullName, email, consent).value.Message()) && loading == old(loading)
      ensures request.Some? ==>
                request.value == BuildPayload(fullName, email, phone, consent, utmSource)
                && error == None && loading
    {
      error := None;
      if fullName == "" || email == "" {
        error := Some(NameOrEmailMissing.Message());
        return None;
      }
      if !IsValidEmail(email) {
        error := Some(EmailMalformed.Message());
        return None;
      }
      if !consent {
        error := Some(ConsentMissing.Message());
        return None;
      }
      loading := true;
      request := Some(BuildPayload(fullName, email, phone, consent, utmSource));
    }

    /** The part of `handleSubmit` after the request settles: success on an ok
        response, otherwise the failure message; `loading` goes off either way. */
    method FinishSubmit(outcome: FetchOutcome)
      modifies this`error, this`loading, this`success
      ensures !loading
      ensures Succeeded(outcome) ==> success && error == old(error)
      ensures !Succeeded(outcome) ==> success == old(success) && error == Some(FailureMessage(outcome))
    {
      if outcome.Responded? && !outcome.ok {
        var thrown := if outcome.text != "" then outcome.text else FailedToSubmitMessage;
        error := Some(CaughtMessage(thrown));
      } else if outcome.Threw? {
        error := Some(CaughtMessage(outcome.message));
      } else {
        success := true;
      }
      loading := false;
    }

    /** `handleSubmit`: validation, then (only if it passes) one request whose
        outcome is `outcome`. `success` is only ever set, never cleared. */
    method HandleSubmit(outcome: FetchOutcome) returns (request: Option<Payload>)
      modifies this`error, this`loading, this`success
      ensures request.Some? <==> FormError(fullName, email, consent).None?
      ensures old(success) ==> success
      ensures request.None? ==>
                error == Some(FormError(fullName, email, consent).value.Message())
                && loading == old(loading) && success == old(success)
      ensures request.Some? ==>
                request.value == BuildPayload(fullName, email, phone, consent, utmSource) && !loading
      ensures request.Some? && Succeeded(outcome) ==> success && error == None
      ensures request.Some? && !Succeeded(outcome) ==>
                success == old(success) && error == Some(FailureMessage(outcome))
    {
      request := BeginSubmit();
      if request.Some? {
        FinishSubmit(outcome);
      }
    }
  }

  /** The JSON body the endpoint parses from a payload: `undefined` fields are
      dropped by `JSON.stringify`, so they read back as `Undefined`. */
  function ToBody(p: Payload): LeadRoute.Body {
    LeadRoute.Body(Str(p.fullName), Str(p.email),
                   if p.phone.Some? then Str(p.phone.value) else Undefined,
                   Bool(p.consent),
                   if p.source.Some? then Str(p.source.value) else Undefined)
  }

  // ---- Properties of the form ----

  /** Each refusal happens exactly in its own case of the ladder, in order; the
      format case is the `\S+@\S+\.\S+` search on the address as typed. */
  lemma FormErrorExactly(fullName: string, email: string, consent: bool)
    ensures FormError(fullName, email, consent) == Some(NameOrEmailMissing) <==> fullName == "" || email == ""
    ensures FormError(fullName, email, consent) == Some(EmailMalformed) <==>
              fullName != "" && email != "" && !EmailMatch(email)
    ensures FormError(fullName, email, consent) == Some(ConsentMissing) <==>
              fullName != "" && email != "" && EmailMatch(email) && !consent
    ensures FormError(fullName, email, consent) == None <==>
              fullName != "" && EmailMatch(email) && consent
  {
    IsValidEmailCorrect(email);
    if EmailMatch(email) {
      ValidEmailNonEmpty(email);
    }
  }

  /** The payload carries name, e-mail, consent and source unchanged and omits the
      phone exactly when it is empty. */
  lemma PayloadFields(fullName: string, email: string, phone: string, consent: bool, source: Option<string>)
    ensures var p := BuildPayload(fullName, email, phone, consent, source);
      p.fullName == fullName && p.email == email && p.consent == consent && p.source == source
      && (p.phone.None? <==> phone == "") && (p.phone.Some? ==> p.phone.value == phone)
  {
  }

  // ---- Properties of the form and the endpoint together ----

  /** A submission the form lets through, with a name that is not blank, is
      accepted by the endpoint, which stores the trimmed name and address. */
  lemma FormPassEndpointAccepts(fullName: string, email: string, phone: string, consent: bool,
                                source: Option<string>, env: LeadRoute.Env)
    requires FormError(fullName, email, consent).None?
    requires Trim(fullName) != ""
    ensures var intake := LeadRoute.Validate(LeadRoute.Json(ToBody(BuildPayload(fullName, email, phone, consent, source))), env);
      intake.Accepted? && intake.lead.fullName == Trim(fullName) && intake.lead.email == Trim(email)
      && intake.lead.consent
  {
    IsValidEmailTrim(email);
    ValidEmailNonEmpty(email);
  }

  /** The form does not trim the name: a name of white space only passes the
      form's check and is then refused by the endpoint as a missing field. */
  lemma BlankNameGap(fullName: string, email: string, phone: string, consent: bool,
                     source: Option<string>, env: LeadRoute.Env)
    requires fullName != "" && forall k :: 0 <= k < |fullName| ==> IsSpace(fullName[k])
    requires IsValidEmail(email) && consent
    ensures FormError(fullName, email, consent).None?
    ensures LeadRoute.Validate(LeadRoute.Json(ToBody(BuildPayload(fullName, email, phone, consent, source))), env)
            == LeadRoute.MissingFields
  {
    ValidEmailNonEmpty(email);
    TrimEmptyIffBlank(fullName);
  }

  /** End to end, the stored phone is `null` exactly when the phone typed is
      empty or blank, and otherwise it is the typed phone trimmed. */
  lemma PhoneEndToEnd(fullName: string, email: string, phone: string, consent: bool,
                      source: Option<string>, env: LeadRoute.Env)
    requires LeadRoute.Validate(LeadRoute.Json(ToBody(BuildPayload(fullName, email, phone, consent, source))), env).Accepted?
    ensures var lead := LeadRoute.Validate(LeadRoute.Json(ToBody(BuildPayload(fullName, email, phone, consent, source))), env).lead;
      (lead.phone.None? <==> Trim(phone) == "") && (lead.phone.Some? ==> lead.phone.value == Trim(phone))
  {
  }

  /** The failure message is the response text when there is one, "Failed to
      submit" for an empty non-ok response, the thrown message otherwise, and
      "Something went wrong" for a thrown error without a message. */
  lemma FailureMessageCases(outcome: FetchOutcome)
    requires !Succeeded(outcome)
    ensures outcome.Responded? && outcome.text != "" ==> FailureMessage(outcome) == outcome.text
    ensures outcome.Responded? && outcome.text == "" ==> FailureMessage(outcome) == FailedToSubmitMessage
    ensures outcome.Threw? && outcome.message != "" ==> FailureMessage(outcome) == outcome.message
    ensures outcome.Threw? && outcome.message == "" ==> FailureMessage(outcome) == FallbackMessage
  {
  }
}
