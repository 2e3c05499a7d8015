// The `POST /api/leads` handler: parse, honeypot, build the record, require a
// contact method, insert once, map the insert's result to a response.
//
// The JSON parser and the database client are not modelled: the request
// arrives already parsed (or known to be unparseable), and what the single
// insert call does is a parameter of the handler. The `leads` table is the
// sequence of rows of a LeadStore.

module LeadsRoute {
  import opened JsValue
  import opened JsString
  import opened Email
  import opened LeadRecord

  /** The outcome of `req.json()`. */
  datatype Request = Unparseable | Parsed(body: Value)

  /** What the single `insert(lead)` call does: the row is stored, the store
      answers with an error object carrying a message, or the call throws. */
  datatype InsertOutcome = Stored | Rejected(message: string) | Threw

  /** `NextResponse.json(payload, { status })` with payload `{ ok, error? }`. */
  datatype Response = Response(status: int, ok: bool, error: Option<string>)

  const Accepted := Response(200, true, None)
  const InvalidRequest := Response(400, false, Some("Invalid request"))
  const MissingContact := Response(400, false, Some("Please provide an email or phone number."))

  function StoreFailure(message: string): Response
  {
    Response(500, false, Some(message))
  }

  /** `body?.company` is truthy. */
  predicate IsHoneypot(body: Value)
  {
    Truthy(Prop(body, "company"))
  }

  /** Only an object body can trip the honeypot: a null body is skipped by
      `?.`, and strings, numbers, booleans and arrays have no `company`. An
      object trips it exactly when its `company` is truthy. */
  lemma HoneypotCases(body: Value)
    ensures !body.Obj? ==> !IsHoneypot(body)
    ensures body.Obj? && "company" !in body.fields ==> !IsHoneypot(body)
    ensures body.Obj? && "company" in body.fields ==>
              (IsHoneypot(body) <==> Truthy(Some(body.fields["company"])))
  {
  }

  /** `isValidEmail(lead.email ?? undefined)`. `??` turns null into
      undefined; a string goes to the pattern test; any other value is
      rejected (see the README for how this restricts the JavaScript
      coercion of non-string arguments). */
  predicate HasEmail(email: Value)
  {
    match email
    case Null => IsValidEmail(None)
    case Str(s) => IsValidEmail(Some(s))
    case _ => false
  }

  /** `typeof lead.phone === "string" && lead.phone.trim().length >= 7`. */
  predicate HasPhone(phone: Value)
  {
    phone.Str? && Utf16Length(Trim(phone.s)) >= 7
  }

  /** At least one contact method. */
  predicate Contactable(l: Lead)
  {
    HasEmail(l.email) || HasPhone(l.phone)
  }

  /** An email column counts exactly when it is a string of the form a@b.c. */
  lemma HasEmailIffShape(email: Value)
    ensures HasEmail(email) <==> email.Str? && EmailShape(email.s)
  {
    if email.Str? {
      ValidEmailIffShape(email.s);
    }
  }

  /** A phone counts exactly when it is a string with at least seven UTF-16
      code units between its first and last non-whitespace characters. */
  lemma HasPhoneIffTrimmed(p: string, m: string, q: string)
    requires AllWs(p) && AllWs(q)
    requires m == [] || (!IsWs(m[0]) && !IsWs(m[|m| - 1]))
    ensures HasPhone(Str(p + m + q)) <==> Utf16Length(m) >= 7
  {
    TrimUnique(p, m, q);
  }

  /** Six characters are not enough. */
  lemma SixCharacterPhoneRejected()
    ensures !HasPhone(Str("123456"))
  {
    TrimUnique([], "123456", []);
    assert [] + "123456" + [] == "123456";
  }

  /** Seven characters are. */
  lemma SevenCharacterPhoneAccepted()
    ensures HasPhone(Str("1234567"))
  {
    TrimUnique([], "1234567", []);
    assert [] + "1234567" + [] == "1234567";
  }

  /** A phone that is not a string never counts, whatever it holds: a number,
      an array of digit strings, an object, a boolean or null. */
  lemma NonStringPhoneRejected(phone: Value)
    requires !phone.Str?
    ensures !HasPhone(phone)
  {
  }

  /** The table. `rows` holds every record this store has accepted;
      `attempts` logs every record handed to `insert`, accepted or not. */
  class LeadStore {
    var rows: seq<Lead>
    ghost var attempts: seq<Lead>

    /** Every stored row went through the literal and names a contact. */
    ghost predicate Valid()
      reads this
    {
      forall i | 0 <= i < |rows| :: WellFormed(rows[i]) && Contactable(rows[i])
    }

    constructor ()
      ensures Valid() && rows == [] && attempts == []
    {
      rows := [];
      attempts := [];
    }

    /** The single `insert(lead)` call. Only records that went through the
        literal and name a contact are handed to it, so the table keeps its
        invariant. */
    method Insert(lead: Lead, outcome: InsertOutcome)
      requires Valid() && WellFormed(lead) && Contactable(lead)
      modifies this
      ensures Valid()
      ensures attempts == old(attempts) + [lead]
      ensures rows == old(rows) + (if outcome.Stored? then [lead] else [])
    {
      attempts := attempts + [lead];
      if outcome.Stored? {
        rows := rows + [lead];
      }
    }

    /** `POST(req)`, where `outcome` is what its insert call, if made, does. */
    method Post(req: Request, outcome: InsertOutcome) returns (resp: Response)
      requires Valid()
      modifies this
      ensures Valid()
      // A body that cannot be parsed
      ensures req.Unparseable? ==>
        resp == InvalidRequest && rows == old(rows) && attempts == old(attempts)
      // The honeypot answers like a success and stores nothing, whatever else the body holds
      ensures req.Parsed? && IsHoneypot(req.body) ==>
        resp == Accepted && rows == old(rows) && attempts == old(attempts)
      // A null body throws at `body.source`
      ensures req.Parsed? && !IsHoneypot(req.body) && req.body.Null? ==>
        resp == InvalidRequest && rows == old(rows) && attempts == old(attempts)
      // No contact method: rejected before any insert
      ensures req.Parsed? && !IsHoneypot(req.body) && !req.body.Null? &&
              !Contactable(Normalise(Props(req.body))) ==>
        resp == MissingContact && rows == old(rows) && attempts == old(attempts)
      // Otherwise exactly one insert of the normalised record
      ensures req.Parsed? && !IsHoneypot(req.body) && !req.body.Null? &&
              Contactable(Normalise(Props(req.body))) ==>
        attempts == old(attempts) + [Normalise(Props(req.body))] &&
        match outcome
        case Stored => resp == Accepted && rows == old(rows) + [Normalise(Props(req.body))]
        case Rejected(message) => resp == StoreFailure(message) && rows == old(rows)
        case Threw => resp == InvalidRequest && rows == old(rows)
    {
      if req.Unparseable? {
        return InvalidRequest;
      }
      var body := req.body;
      if IsHoneypot(body) {
        return Accepted;
      }
      if body.Null? {
        return InvalidRequest;
      }
      var lead := Normalise(Props(body));
      var hasEmail := HasEmail(lead.email);
      var hasPhone := HasPhone(lead.phone);
      if !hasEmail && !hasPhone {
        return MissingContact;
      }
      assert WellFormed(lead) && Contactable(lead);
      Insert(lead, outcome);
      match outcome {
        case Rejected(message) =>
          resp := StoreFailure(message);
        case Threw =>
          resp := InvalidRequest;
        case Stored =>
          resp := Accepted;
      }
    }
  }

  /** Posting the same contactable body twice stores it twice: the handler
      has no idempotency key. */
  method PostTwice(store: LeadStore, body: map<string, Value>)
    returns (first: Response, second: Response)
    requires store.Valid()
    requires !IsHoneypot(Obj(body)) && Contactable(Normalise(body))
    modifies store
    ensures store.Valid()
    ensures first == Accepted && second == Accepted
    ensures store.rows == old(store.rows) + [Normalise(body), Normalise(body)]
  {
    first := store.Post(Parsed(Obj(body)), Stored);
    second := store.Post(Parsed(Obj(body)), Stored);
  }

  /** `{ email: "a@b.co" }` on an empty table: accepted, and the one stored
      row carries the email and every default. */
  method EmailOnlyScenario() returns (resp: Response, rows: seq<Lead>)
    ensures resp == Accepted
    ensures rows == [Lead(Str("website"), Null, Null, Str("a@b.co"), Null, Str("unknown"),
                          Null, Null, Null, Null, Null, Null, Null, Null, Null, Null, Bool(false))]
  {
    var store := new LeadStore();
    var body := map["email" := Str("a@b.co")];
    EmailOnlyBody(Str("a@b.co"));
    AcceptedExample();
    assert Props(Obj(body)) == body && "company" !in body;
    resp := store.Post(Parsed(Obj(body)), Stored);
    rows := store.rows;
  }

  /** `{ company: "Acme", email: "a@b.co" }`: the same answer as a stored
      lead, and nothing stored. */
  method HoneypotScenario() returns (resp: Response, rows: seq<Lead>)
    ensures resp == Accepted && rows == []
  {
    var store := new LeadStore();
    resp := store.Post(Parsed(Obj(map["company" := Str("Acme"), "email" := Str("a@b.co")])), Stored);
    rows := store.rows;
  }

  /** `{ email: "a@b.co" }` when the store rejects the insert: status 500 with the
      store's message, nothing stored. */
  method StoreErrorScenario(message: string) returns (resp: Response, rows: seq<Lead>)
    ensures resp.status == 500 && !resp.ok && resp.error == Some(message) && rows == []
  {
    var store := new LeadStore();
    var body := map["email" := Str("a@b.co")];
    EmailOnlyBody(Str("a@b.co"));
    AcceptedExample();
    assert Props(Obj(body)) == body && "company" !in body;
    resp := store.Post(Parsed(Obj(body)), Rejected(message));
    rows := store.rows;
  }

  /** `{ phone }` on an empty table: stored with every default when the phone
      counts, rejected for want of a contact otherwise. */
  method PhoneOnlyScenario(phone: string) returns (resp: Response, rows: seq<Lead>)
    ensures HasPhone(Str(phone)) ==>
      resp == Accepted &&
      rows == [Lead(Str("website"), Null, Null, Null, Str(phone), Str("unknown"),
                    Null, Null, Null, Null, Null, Null, Null, Null, Null, Null, Bool(false))]
    ensures !HasPhone(Str(phone)) ==> resp == MissingContact && rows == []
  {
    var store := new LeadStore();
    var body := map["phone" := Str(phone)];
    PhoneOnlyBody(Str(phone));
    assert Props(Obj(body)) == body && "company" !in body;
    resp := store.Post(Parsed(Obj(body)), Stored);
    rows := store.rows;
  }

  /** `{ phone: "1234567" }` on an empty table: seven characters are enough,
      and the one stored row carries the phone. */
  method SevenCharacterPhoneScenario() returns (resp: Response, rows: seq<Lead>)
    ensures resp == Accepted && |rows| == 1 && rows[0].phone == Str("1234567")
  {
    SevenCharacterPhoneAccepted();
    resp, rows := PhoneOnlyScenario("1234567");
  }

  /** `{ phone: "123456" }` with no email: rejected for want of a contact,
      nothing stored. */
  method SixCharacterPhoneScenario() returns (resp: Response, rows: seq<Lead>)
    ensures resp == MissingContact && rows == []
  {
    SixCharacterPhoneRejected();
    resp, rows := PhoneOnlyScenario("123456");
  }
}
