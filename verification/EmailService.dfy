/** The protected email service: token check, deduplication, injected failures, acceptance. */
module EmailService {
  import opened Wrappers
  import opened JsonText
  import opened CanonicalJson
  import opened Actions

  datatype Email = Email(recipient: Text, subject: Text, body: Text)

  datatype EmailRequest = EmailRequest(sessionId: string, actionId: string, email: Email)

  /** The key `sessionId|actionId` under which a repeated request is recognised. */
  datatype DedupeKey = DedupeKey(sessionId: string, actionId: string)

  function DedupeKeyOf(request: EmailRequest): DedupeKey {
    DedupeKey(request.sessionId, request.actionId)
  }

  datatype SendError = AuthError | OtherError

  /** The service's memory: it starts empty with each process. */
  datatype Service = Service(
    counter: nat,
    transientFailures: nat,
    errorQueue: seq<SendError>,
    sent: seq<EmailRequest>,
    receipts: map<DedupeKey, nat>)

  const FRESH_SERVICE := Service(0, 0, [], [], map[])

  function TokenMatches(token: string, expected: string): bool {
    token != "" && token == expected
  }

  /** One `send`, in the order of its checks: token, prior receipt, queued error, transient failure, acceptance. */
  function Sent(s: Service, authorized: bool, request: EmailRequest): (Service, Result<nat, SendError>) {
    var key := DedupeKeyOf(request);
    if !authorized then (s, Failure(AuthError))
    else if key in s.receipts then (s, Success(s.receipts[key]))
    else if s.errorQueue != [] then (s.(errorQueue := s.errorQueue[1..]), Failure(s.errorQueue[0]))
    else if s.transientFailures > 0 then (s.(transientFailures := s.transientFailures - 1), Failure(OtherError))
    else
      (s.(counter := s.counter + 1, sent := s.sent + [request], receipts := s.receipts[key := s.counter + 1]),
       Success(s.counter + 1))
  }

  /** Whether a send makes the outside world accept an email it had not accepted before. */
  predicate Accepts(s: Service, authorized: bool, request: EmailRequest) {
    && authorized && DedupeKeyOf(request) !in s.receipts
    && s.errorQueue == [] && s.transientFailures == 0
  }

  /** Receipts are never lost or changed; exactly an accepting send adds one, and success means there is one. */
  lemma SentKeepsReceipts(s: Service, authorized: bool, request: EmailRequest)
    ensures var (t, r) := Sent(s, authorized, request); var key := DedupeKeyOf(request);
      && (forall k :: k in s.receipts ==> k in t.receipts && t.receipts[k] == s.receipts[k])
      && (forall k :: k in t.receipts && k !in s.receipts ==> k == key && Accepts(s, authorized, request))
      && (Accepts(s, authorized, request) ==> key !in s.receipts && r == Success(s.counter + 1))
      && (r.Success? ==> key in t.receipts && t.receipts[key] == r.value)
  {
  }

  class MockProtectedEmailService {
    const expectedToken: string
    var counter: nat
    var transientFailuresRemaining: nat
    var errorQueue: seq<SendError>
    var ledger: seq<EmailRequest>
    var receipts: map<DedupeKey, nat>

    ghost function View(): Service
      reads this
    {
      Service(counter, transientFailuresRemaining, errorQueue, ledger, receipts)
    }

    constructor (expectedToken: string)
      ensures View() == FRESH_SERVICE && this.expectedToken == expectedToken
    {
      this.expectedToken := expectedToken;
      counter, transientFailuresRemaining, errorQueue, ledger, receipts := 0, 0, [], [], map[];
    }

    method FailNextSends(count: int)
      modifies this
      ensures View() == old(View()).(transientFailures := if count > 0 then count else 0)
    {
      transientFailuresRemaining := if count > 0 then count else 0;
    }

    method FailNextSendWith(error: SendError)
      modifies this
      ensures View() == old(View()).(errorQueue := old(View()).errorQueue + [error])
    {
      errorQueue := errorQueue + [error];
    }

    method Send(token: string, request: EmailRequest) returns (r: Result<nat, SendError>)
      modifies this
      ensures (View(), r) == Sent(old(View()), TokenMatches(token, expectedToken), request)
      ensures token == "" || token != expectedToken ==> r == Failure(AuthError) && View() == old(View())
      ensures token != "" && token == expectedToken ==>
                var key := DedupeKey(request.sessionId, request.actionId);
                if key in old(receipts) then r == Success(old(receipts)[key]) && View() == old(View())
                else if old(errorQueue) != [] then r == Failure(old(errorQueue)[0]) && View() == old(View()).(errorQueue := old(errorQueue)[1..])
                else if old(transientFailuresRemaining) > 0 then
                  r == Failure(OtherError) && View() == old(View()).(transientFailures := old(transientFailuresRemaining) - 1)
                else r == Success(old(counter) + 1) && ledger == old(ledger) + [request] && receipts == old(receipts)[key := counter]
      ensures r.Success? ==> DedupeKeyOf(request) in receipts && receipts[DedupeKeyOf(request)] == r.value
      ensures ledger == old(ledger)
                        + if Accepts(old(View()), TokenMatches(token, expectedToken), request) then [request] else []
    {
      if !TokenMatches(token, expectedToken) {
        return Failure(AuthError);
      }
      var key := DedupeKeyOf(request);
      if key in receipts {
        return Success(receipts[key]);
      }
      if errorQueue != [] {
        var queued := errorQueue[0];
        errorQueue := errorQueue[1..];
        return Failure(queued);
      }
      if transientFailuresRemaining > 0 {
        transientFailuresRemaining := transientFailuresRemaining - 1;
        return Failure(OtherError);
      }
      counter := counter + 1;
      ledger := ledger + [request];
      receipts := receipts[key := counter];
      return Success(counter);
    }
  }

  // ---------- payloads ----------

  const RECIPIENT: Text := [0x72, 0x65, 0x63, 0x69, 0x70, 0x69, 0x65, 0x6E, 0x74]
  const SUBJECT: Text := [0x73, 0x75, 0x62, 0x6A, 0x65, 0x63, 0x74]
  const BODY: Text := [0x62, 0x6F, 0x64, 0x79]

  function Property(fields: seq<Field>, name: Text): Option<Json> {
    if fields == [] then None
    else if fields[0].name == name then Some(fields[0].value)
    else Property(fields[1..], name)
  }

  predicate HasText(fields: seq<Field>, name: Text) {
    var p := Property(fields, name);
    p.Some? && p.value.Str? && !IsBlank(p.value.text)
  }

  /** The executor's own completeness check: three non-blank strings, whatever else the payload carries. */
  predicate IsComplete(payload: Json) {
    payload.Obj? && HasText(payload.fields, RECIPIENT) && HasText(payload.fields, SUBJECT) && HasText(payload.fields, BODY)
  }

  /** The strict schema: exactly the three fields, each a non-empty string. */
  function ParseEmail(payload: Json): Option<Email> {
    if !payload.Obj? then None
    else
      var fields := payload.fields;
      var r, s, b := Property(fields, RECIPIENT), Property(fields, SUBJECT), Property(fields, BODY);
      if && (forall i :: 0 <= i < |fields| ==> fields[i].name == RECIPIENT || fields[i].name == SUBJECT || fields[i].name == BODY)
         && r.Some? && r.value.Str? && r.value.text != []
         && s.Some? && s.value.Str? && s.value.text != []
         && b.Some? && b.value.Str? && b.value.text != []
      then Some(Email(r.value.text, s.value.text, b.value.text))
      else None
  }

  /** The payload that the service receives, as the schema rebuilds it. */
  function EmailPayload(e: Email): Json {
    Obj([Field(RECIPIENT, Str(e.recipient)), Field(SUBJECT, Str(e.subject)), Field(BODY, Str(e.body))])
  }

  lemma {:induction false} PropertyIsField(fields: seq<Field>, name: Text)
    ensures Property(fields, name).Some? <==> HasName(name, fields)
    ensures Property(fields, name).Some? ==>
              exists i :: 0 <= i < |fields| && fields[i].name == name && fields[i].value == Property(fields, name).value
  {
    if fields != [] && fields[0].name != name {
      PropertyIsField(fields[1..], name);
      if HasName(name, fields) {
        var i := Namesake(name, fields);
        IsNamesake(name, fields[1..], i - 1);
      }
      if HasName(name, fields[1..]) {
        var i := Namesake(name, fields[1..]);
        IsNamesake(name, fields, i + 1);
      }
    }
  }

  lemma FieldUnderName(fields: seq<Field>, name: Text, i: nat)
    requires DistinctNames(fields) && i < |fields| && fields[i].name == name
    ensures Property(fields, name) == Some(fields[i].value)
  {
    PropertyIsField(fields, name);
    IsNamesake(name, fields, i);
    var j :| 0 <= j < |fields| && fields[j].name == name && fields[j].value == Property(fields, name).value;
    assert i == j;
  }

  lemma FieldNames()
    ensures RECIPIENT == Ascii("recipient") && SUBJECT == Ascii("subject") && BODY == Ascii("body")
  {
  }

  /** Some field has this name, and its value is a text with something other than white space in it. */
  ghost predicate NonBlankField(fields: seq<Field>, name: Text) {
    exists i :: 0 <= i < |fields| && fields[i].name == name && fields[i].value.Str? && NonBlank(fields[i].value.text)
  }

  predicate NonBlank(t: Text) {
    exists k :: 0 <= k < |t| && !IsSpace(t[k])
  }

  lemma HasTextExactly(fields: seq<Field>, name: Text)
    requires DistinctNames(fields)
    ensures HasText(fields, name) <==> NonBlankField(fields, name)
  {
    hide IsSpace;
    PropertyIsField(fields, name);
    if NonBlankField(fields, name) {
      var i :| 0 <= i < |fields| && fields[i].name == name && fields[i].value.Str? && NonBlank(fields[i].value.text);
      FieldUnderName(fields, name, i);
    }
  }

  /** The payload is complete exactly when its recipient, its subject and its body are each a text that is not blank. */
  lemma CompleteExactly(payload: Value)
    ensures IsComplete(payload) <==>
            && payload.Obj?
            && NonBlankField(payload.fields, Ascii("recipient"))
            && NonBlankField(payload.fields, Ascii("subject"))
            && NonBlankField(payload.fields, Ascii("body"))
  {
    hide HasText, NonBlankField;
    FieldNames();
    if payload.Obj? {
      assert DistinctNames(payload.fields) by { assert WellFormed(payload); }
      HasTextExactly(payload.fields, RECIPIENT);
      HasTextExactly(payload.fields, SUBJECT);
      HasTextExactly(payload.fields, BODY);
    }
  }

  ghost predicate IsTextField(fields: seq<Field>, name: Text, text: Text) {
    exists i :: 0 <= i < |fields| && fields[i] == Field(name, Str(text))
  }

  lemma TextFieldExactly(fields: seq<Field>, name: Text, text: Text)
    requires DistinctNames(fields)
    ensures Property(fields, name) == Some(Str(text)) <==> IsTextField(fields, name, text)
  {
    PropertyIsField(fields, name);
    if IsTextField(fields, name, text) {
      var i :| 0 <= i < |fields| && fields[i] == Field(name, Str(text));
      FieldUnderName(fields, name, i);
    }
  }

  /** The schema reads an email exactly where its three texts are the payload's only fields, and none of them is empty. */
  lemma ParsedExactly(payload: Value, e: Email)
    ensures ParseEmail(payload) == Some(e) <==>
            && payload.Obj?
            && (forall i :: 0 <= i < |payload.fields| ==>
                 payload.fields[i].name in [Ascii("recipient"), Ascii("subject"), Ascii("body")])
            && IsTextField(payload.fields, Ascii("recipient"), e.recipient) && e.recipient != []
            && IsTextField(payload.fields, Ascii("subject"), e.subject) && e.subject != []
            && IsTextField(payload.fields, Ascii("body"), e.body) && e.body != []
  {
    hide Property, IsTextField;
    FieldNames();
    if payload.Obj? {
      assert DistinctNames(payload.fields) by { assert WellFormed(payload); }
      TextFieldExactly(payload.fields, RECIPIENT, e.recipient);
      TextFieldExactly(payload.fields, SUBJECT, e.subject);
      TextFieldExactly(payload.fields, BODY, e.body);
    }
  }

  /** The rebuilt payload is the approved payload up to key order. */
  lemma ParsedPayloadIsSame(payload: Value)
    requires ParseEmail(payload).Some?
    ensures Same(payload, EmailPayload(ParseEmail(payload).value))
  {
    var fields := payload.fields;
    var e := ParseEmail(payload).value;
    var gs := EmailPayload(e).fields;
    assert WellFormed(payload);
    forall i | 0 <= i < |fields|
      ensures HasSame(fields[i], gs)
    {
      FieldUnderName(fields, fields[i].name, i);
      var j := if fields[i].name == RECIPIENT then 0 else if fields[i].name == SUBJECT then 1 else 2;
      assert fields[i].value == gs[j].value;
      IsPartner(fields[i], gs, j);
    }
    PropertyIsField(fields, RECIPIENT);
    PropertyIsField(fields, SUBJECT);
    PropertyIsField(fields, BODY);
  }

  lemma SameText(fs: seq<Field>, gs: seq<Field>, name: Text)
    requires DistinctNames(gs) && Property(fs, name).Some? && Property(fs, name).value.Str?
    requires forall i :: 0 <= i < |fs| ==> HasSame(fs[i], gs)
    ensures Property(gs, name) == Property(fs, name)
  {
    PropertyIsField(fs, name);
    var i :| 0 <= i < |fs| && fs[i].name == name && fs[i].value == Property(fs, name).value;
    var j := Partner(fs[i], gs);
    FieldUnderName(gs, name, j);
  }

  /** The schema does not depend on the order of keys. */
  lemma ParsesAlike(payload: Value, other: Value)
    requires Same(payload, other) && ParseEmail(payload).Some?
    ensures ParseEmail(other) == ParseEmail(payload)
  {
    var fs, gs := payload.fields, other.fields;
    assert WellFormed(other);
    SameText(fs, gs, RECIPIENT);
    SameText(fs, gs, SUBJECT);
    SameText(fs, gs, BODY);
    forall j | 0 <= j < |gs|
      ensures gs[j].name == RECIPIENT || gs[j].name == SUBJECT || gs[j].name == BODY
    {
      var i := Namesake(gs[j].name, fs);
    }
  }
}
