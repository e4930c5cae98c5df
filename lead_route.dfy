/** The lead intake endpoint (`POST /api/lead`): coerce and trim the submitted
    fields, validate them in a fixed order, build a lead record and append it,
    best effort, to an append-only store. */
module LeadRoute {
  import opened JsValue
  import opened Text
  import opened Email

  /** The fields the handler reads from the parsed JSON body. A body that is not
      an object (a number, a string, `null`) reads every field as `Undefined`. */
  datatype Body = Body(fullName: Value, email: Value, phone: Value, consent: Value, source: Value)

  /** What `request.json()` produced: a body, or a parse failure. */
  datatype Request = Malformed | Json(body: Body)

  /** Inputs the handler takes from its surroundings: the generated id, the
      creation timestamp, and the `user-agent` and `x-forwarded-for` headers. */
  datatype Env = Env(id: string, createdAt: string, userAgent: Option<string>, forwardedFor: Option<string>)

  /** The fields after coercion: `undefined` phone and source are `None`. */
  datatype Submission = Submission(fullName: string, email: string, phone: Option<string>,
                                   consent: bool, source: Option<string>)

  /** One stored lead, one line of the store. */
  datatype Lead = Lead(id: string, fullName: string, email: string, phone: Option<string>,
                       consent: bool, source: Option<string>, userAgent: Option<string>,
                       ip: Option<string>, createdAt: string)

  /** The outcome of validating one request. */
  datatype Intake = Accepted(lead: Lead) | MissingFields | InvalidEmail | InvalidRequest

  /** The HTTP answer: `200 {ok: true}` or `400 {message}`. */
  datatype Response = Ack | BadRequest(message: string)

  const SourceLimit: nat := 64
  const MissingFieldsMessage := "Missing required fields"
  const InvalidEmailMessage := "Invalid email"
  const InvalidRequestMessage := "Invalid request"

  /** The HTTP status of a response. */
  function Status(r: Response): (code: nat)
    ensures code == 200 || code == 400
    ensures code == 200 <==> r.Ack?
  {
    if r.Ack? then 200 else 400
  }

  /** `String(v || '').trim()`: the trimmed text of a truthy value, else empty. */
  function RequiredText(v: Value): (t: string)
    ensures IsTrimmed(t)
  {
    Trim(TextOrEmpty(v))
  }

  /** `v ? String(v).trim() : undefined`. */
  function OptionalTrimmed(v: Value): (t: Option<string>)
    ensures t.Some? <==> Truthy(v)
    ensures t.Some? ==> IsTrimmed(t.value)
  {
    if Truthy(v) then Some(Trim(ToText(v))) else None
  }

  /** `v ? String(v).slice(0, 64) : undefined`: never empty when present, since a
      truthy value has non-empty text. */
  function OptionalPrefix(v: Value): (t: Option<string>)
    ensures t.Some? <==> Truthy(v)
    ensures t.Some? ==> 0 < |t.value| <= SourceLimit
  {
    if Truthy(v) then Some(SlicePrefix(ToText(v), SourceLimit)) else None
  }

  /** The coercion step: `fullName` and `email` become trimmed text (empty when
      falsy), a truthy `phone` becomes trimmed text, `consent` its truthiness and a
      truthy `source` its text cut to 64 characters, untrimmed. */
  function Coerce(body: Body): (sub: Submission)
    ensures IsTrimmed(sub.fullName) && IsTrimmed(sub.email)
    ensures sub.consent == Truthy(body.consent)
    ensures sub.phone.Some? <==> Truthy(body.phone)
    ensures sub.phone.Some? ==> IsTrimmed(sub.phone.value)
    ensures sub.source.Some? <==> Truthy(body.source)
    ensures sub.source.Some? ==> 0 < |sub.source.value| <= SourceLimit
  {
    Submission(RequiredText(body.fullName), RequiredText(body.email), OptionalTrimmed(body.phone),
               Truthy(body.consent), OptionalPrefix(body.source))
  }

  /** The record built from an accepted submission; `phone || null`,
      `source || null` and `x-forwarded-for || null` turn empty text into `null`,
      while the `user-agent` header is kept as the header lookup returned it. */
  function MakeLead(sub: Submission, env: Env): (lead: Lead)
    ensures lead.fullName == sub.fullName && lead.email == sub.email && lead.consent == sub.consent
    ensures lead.id == env.id && lead.createdAt == env.createdAt && lead.userAgent == env.userAgent
    ensures lead.phone.Some? <==> sub.phone.Some? && sub.phone.value != ""
    ensures lead.source.Some? <==> sub.source.Some? && sub.source.value != ""
    ensures lead.ip.Some? <==> env.forwardedFor.Some? && env.forwardedFor.value != ""
    ensures lead.phone.Some? ==> lead.phone == sub.phone
    ensures lead.source.Some? ==> lead.source == sub.source
    ensures lead.ip.Some? ==> lead.ip == env.forwardedFor
  {
    Lead(env.id, sub.fullName, sub.email, NonEmptyOrNull(sub.phone), sub.consent,
         NonEmptyOrNull(sub.source), env.userAgent, NonEmptyOrNull(env.forwardedFor), env.createdAt)
  }

  /** The validation ladder of the handler as a function of its inputs. */
  function Validate(req: Request, env: Env): Intake {
    match req
    case Malformed => InvalidRequest
    case Json(body) =>
      var sub := Coerce(body);
      if sub.fullName == "" || sub.email == "" || !sub.consent then MissingFields
      else if !IsValidEmail(sub.email) then InvalidEmail
      else Accepted(MakeLead(sub, env))
  }

  /** The answer for each outcome; an accepted request is acknowledged whatever
      became of the append. */
  function Reply(intake: Intake): (r: Response)
    ensures r.Ack? <==> intake.Accepted?
    ensures intake == MissingFields ==> r == BadRequest(MissingFieldsMessage)
    ensures intake == InvalidEmail ==> r == BadRequest(InvalidEmailMessage)
    ensures intake == InvalidRequest ==> r == BadRequest(InvalidRequestMessage)
  {
    match intake
    case Accepted(_) => Ack
    case MissingFields => BadRequest(MissingFieldsMessage)
    case InvalidEmail => BadRequest(InvalidEmailMessage)
    case InvalidRequest => BadRequest(InvalidRequestMessage)
  }

  /** What every record the endpoint stores satisfies. */
  predicate WellFormed(lead: Lead) {
    lead.fullName != "" && IsTrimmed(lead.fullName)
    && lead.email != "" && IsTrimmed(lead.email) && IsValidEmail(lead.email)
    && lead.consent
    && (lead.phone.Some? ==> lead.phone.value != "" && IsTrimmed(lead.phone.value))
    && (lead.source.Some? ==> 0 < |lead.source.value| <= SourceLimit)
    && (lead.ip.Some? ==> lead.ip.value != "")
  }

  /** The append-only store of leads. Records are only ever appended. */
  class LeadStore {
    var records: seq<Lead>

    /** Every stored record is well formed. */
    ghost predicate Valid()
      reads this
    {
      forall k :: 0 <= k < |records| ==> WellFormed(records[k])
    }

    constructor ()
      ensures records == [] && Valid()
    {
      records := [];
    }

    /** One append of one record, which either lands at the end of the store or
        fails and leaves the store as it was. */
    method Append(lead: Lead, succeeds: bool)
      requires Valid() && WellFormed(lead)
      modifies this
      ensures Valid()
      ensures records == if succeeds then old(records) + [lead] else old(records)
    {
      if succeeds {
        records := records + [lead];
      }
    }
  }

  /** The `POST` handler. `appendSucceeds` decides whether the file append
      succeeds; a failed append is swallowed and the request is acknowledged. */
  method Post(store: LeadStore, req: Request, env: Env, appendSucceeds: bool) returns (resp: Response)
    requires store.Valid()
    modifies store
    ensures store.Valid()
    ensures resp == Reply(Validate(req, env))
    ensures Validate(req, env).Accepted? && appendSucceeds ==>
              store.records == old(store.records) + [Validate(req, env).lead]
    ensures !(Validate(req, env).Accepted? && appendSucceeds) ==> store.records == old(store.records)
  {
    if req.Malformed? {
      return BadRequest(InvalidRequestMessage);
    }
    var sub := Coerce(req.body);
    if sub.fullName == "" || sub.email == "" || !sub.consent {
      return BadRequest(MissingFieldsMessage);
    }
    if !IsValidEmail(sub.email) {
      return BadRequest(InvalidEmailMessage);
    }
    var lead := MakeLead(sub, env);
    AcceptedWellFormed(req, env);
    assert Validate(req, env) == Accepted(lead);
    store.Append(lead, appendSucceeds);
    resp := Ack;
  }

  // ---- Properties of the validation ladder ----

  /** An empty trimmed name, an empty trimmed e-mail or a falsy consent is
      rejected as missing fields, before the e-mail format is looked at. */
  lemma MissingFieldsExactly(body: Body, env: Env)
    ensures Validate(Json(body), env) == MissingFields <==>
              Trim(TextOrEmpty(body.fullName)) == "" || Trim(TextOrEmpty(body.email)) == ""
              || !Truthy(body.consent)
  {
  }

  /** Past the missing-fields check, the request is rejected as an invalid e-mail
      exactly when the address, as submitted, contains no `\S+@\S+\.\S+`. */
  lemma InvalidEmailExactly(body: Body, env: Env)
    ensures Validate(Json(body), env) == InvalidEmail <==>
              Trim(TextOrEmpty(body.fullName)) != "" && Trim(TextOrEmpty(body.email)) != ""
              && Truthy(body.consent) && !EmailMatch(TextOrEmpty(body.email))
  {
    var e := TextOrEmpty(body.email);
    IsValidEmailCorrect(Trim(e));
    EmailMatchTrim(e);
  }

  /** A request is accepted exactly when it parses, has a non-blank name, consent,
      and an address in which the e-mail pattern occurs. */
  lemma AcceptedExactly(body: Body, env: Env)
    ensures Validate(Json(body), env).Accepted? <==>
              Trim(TextOrEmpty(body.fullName)) != "" && Truthy(body.consent)
              && EmailMatch(TextOrEmpty(body.email))
  {
    var e := TextOrEmpty(body.email);
    IsValidEmailCorrect(Trim(e));
    EmailMatchTrim(e);
    if EmailMatch(e) {
      ValidEmailNonEmpty(Trim(e));
    }
  }

  /** A malformed body is always answered `400 Invalid request`. */
  lemma MalformedRejected(env: Env)
    ensures Validate(Malformed, env) == InvalidRequest
    ensures Status(Reply(Validate(Malformed, env))) == 400
  {
  }

  /** Every record the endpoint accepts is well formed, so `Post` keeps the
      store's invariant. */
  lemma AcceptedWellFormed(req: Request, env: Env)
    ensures Validate(req, env).Accepted? ==> WellFormed(Validate(req, env).lead)
  {
  }

  /** The stored name and e-mail are the trimmed inputs: non-empty, with no
      white space at either end, unchanged by trimming again. */
  lemma StoredNameAndEmail(body: Body, env: Env)
    requires Validate(Json(body), env).Accepted?
    ensures var lead := Validate(Json(body), env).lead;
      lead.fullName == Trim(TextOrEmpty(body.fullName)) && lead.email == Trim(TextOrEmpty(body.email))
      && lead.fullName != "" && lead.email != "" && IsTrimmed(lead.fullName) && IsTrimmed(lead.email)
      && Trim(lead.fullName) == lead.fullName && Trim(lead.email) == lead.email
  {
    var lead := Validate(Json(body), env).lead;
    TrimmedIsFixed(lead.fullName);
    TrimmedIsFixed(lead.email);
  }

  /** The stored source is `null` when the submitted one is missing or empty;
      otherwise it is the submitted text cut to its first `min(length, 64)`
      characters, not trimmed. */
  lemma StoredSource(body: Body, env: Env)
    requires Validate(Json(body), env).Accepted?
    ensures var lead := Validate(Json(body), env).lead;
      (lead.source == None <==> !Truthy(body.source))
      && (lead.source.Some? ==>
            var input := ToText(body.source);
            |lead.source.value| == (if |input| <= SourceLimit then |input| else SourceLimit)
            && lead.source.value == input[..|lead.source.value|])
  {
  }

  /** A missing, empty or blank phone is stored as `null`; any other phone is
      stored trimmed. */
  lemma StoredPhone(body: Body, env: Env)
    requires Validate(Json(body), env).Accepted?
    ensures var lead := Validate(Json(body), env).lead;
      (lead.phone == None <==> !Truthy(body.phone) || Trim(ToText(body.phone)) == "")
      && (lead.phone.Some? ==> lead.phone.value == Trim(ToText(body.phone)) && lead.phone.value != "")
  {
  }
}
