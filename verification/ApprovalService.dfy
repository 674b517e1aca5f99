/** The in-memory approval state machine, characterised by the calls made on it. */
module ApprovalService {
  import opened Wrappers
  import opened JsonText
  import opened CanonicalJson
  import opened Actions

  datatype ApprovalStatus = Pending | Approved | Denied | Invalidated

  datatype ApprovalRecord =
    ApprovalRecord(actionId: string, sessionId: string, payloadHash: Text, status: ApprovalStatus)

  datatype ApprovalError = UnknownAction | AlreadyDecided(status: ApprovalStatus) | Unhashable(error: TypeError)

  datatype Refusal = ApprovalRequired | ApprovalDenied | ApprovalInvalidated

  datatype Authorization =
    | Executable(approval: ApprovalRecord)
    | Refused(reason: Refusal, refused: Option<ApprovalRecord>)

  type Approvals = map<string, ApprovalRecord>

  // ---------- what each call does to the approvals ----------

  datatype Call =
    | Register(action: ProposedAction)
    | Approve(id: string)
    | Deny(id: string)
    | Authorize(action: ProposedAction)

  function Decided(approvals: Approvals, id: string, status: ApprovalStatus): Approvals {
    if id in approvals && approvals[id].status == Pending then approvals[id := approvals[id].(status := status)]
    else approvals
  }

  /** The approvals after a call; a call that throws leaves them alone. */
  function After(approvals: Approvals, call: Call): Approvals {
    match call
    case Register(a) =>
      var hash := PayloadHashFor(a.content);
      if a.id in approvals || hash.Failure? then approvals
      else approvals[a.id := ApprovalRecord(a.id, a.sessionId, hash.value, Pending)]
    case Approve(id) => Decided(approvals, id, Approved)
    case Deny(id) => Decided(approvals, id, Denied)
    case Authorize(a) =>
      var hash := PayloadHashFor(a.content);
      if a.id in approvals && approvals[a.id].status == Approved && hash.Success? && hash.value != approvals[a.id].payloadHash
      then approvals[a.id := approvals[a.id].(status := Invalidated)]
      else approvals
  }

  function Replay(calls: seq<Call>): Approvals {
    if calls == [] then map[] else After(Replay(calls[..|calls| - 1]), calls[|calls| - 1])
  }

  /** What `authorize` answers. */
  function Answer(approvals: Approvals, a: ProposedAction): Result<Authorization, ApprovalError> {
    if a.id !in approvals then Success(Refused(ApprovalRequired, None))
    else
      var record := approvals[a.id];
      match record.status
      case Pending => Success(Refused(ApprovalRequired, Some(record)))
      case Denied => Success(Refused(ApprovalDenied, Some(record)))
      case Invalidated => Success(Refused(ApprovalInvalidated, Some(record)))
      case Approved =>
        match PayloadHashFor(a.content)
        case Failure(e) => Failure(Unhashable(e))
        case Success(hash) =>
          if hash != record.payloadHash
          then Success(Refused(ApprovalInvalidated, Some(record.(status := Invalidated))))
          else Success(Executable(record))
  }

  class InMemoryApprovalService {
    var approvals: Approvals

    constructor ()
      ensures approvals == Replay([])
    {
      approvals := map[];
    }

    method RegisterAction(action: ProposedAction) returns (r: Result<ApprovalRecord, ApprovalError>)
      modifies this
      ensures approvals == After(old(approvals), Register(action))
      ensures r.Success? <==> action.id in approvals
      ensures r.Success? ==> r.value == approvals[action.id]
    {
      if action.id in approvals {
        return Success(approvals[action.id]);
      }
      var hash := PayloadHashFor(action.content);
      if hash.Failure? {
        return Failure(Unhashable(hash.error));
      }
      var record := ApprovalRecord(action.id, action.sessionId, hash.value, Pending);
      approvals := approvals[action.id := record];
      return Success(record);
    }

    method ApproveAction(id: string) returns (r: Result<ApprovalRecord, ApprovalError>)
      modifies this
      ensures approvals == After(old(approvals), Approve(id))
      ensures r.Success? <==> id in old(approvals) && old(approvals)[id].status == Pending
      ensures r.Success? ==> r.value == approvals[id] && r.value.status == Approved
    {
      var record :- RequirePending(id);
      var approved := record.(status := Approved);
      approvals := approvals[id := approved];
      return Success(approved);
    }

    method DenyAction(id: string) returns (r: Result<ApprovalRecord, ApprovalError>)
      modifies this
      ensures approvals == After(old(approvals), Deny(id))
      ensures r.Success? <==> id in old(approvals) && old(approvals)[id].status == Pending
      ensures r.Success? ==> r.value == approvals[id] && r.value.status == Denied
    {
      var record :- RequirePending(id);
      var denied := record.(status := Denied);
      approvals := approvals[id := denied];
      return Success(denied);
    }

    method Authorize(action: ProposedAction) returns (r: Result<Authorization, ApprovalError>)
      modifies this
      ensures approvals == After(old(approvals), Call.Authorize(action))
      ensures r == Answer(old(approvals), action)
    {
      if action.id !in approvals {
        return Success(Refused(ApprovalRequired, None));
      }
      var record := approvals[action.id];
      if record.status == Pending {
        return Success(Refused(ApprovalRequired, Some(record)));
      }
      if record.status == Denied {
        return Success(Refused(ApprovalDenied, Some(record)));
      }
      if record.status == Invalidated {
        return Success(Refused(ApprovalInvalidated, Some(record)));
      }
      var hash := PayloadHashFor(action.content);
      if hash.Failure? {
        return Failure(Unhashable(hash.error));
      }
      if record.payloadHash != hash.value {
        var invalidated := record.(status := Invalidated);
        approvals := approvals[action.id := invalidated];
        return Success(Refused(ApprovalInvalidated, Some(invalidated)));
      }
      return Success(Executable(record));
    }

    method RequirePending(id: string) returns (r: Result<ApprovalRecord, ApprovalError>)
      ensures r == if id !in approvals then Failure(UnknownAction)
                   else if approvals[id].status != Pending then Failure(AlreadyDecided(approvals[id].status))
                   else Success(approvals[id])
    {
      if id !in approvals {
        return Failure(UnknownAction);
      }
      var record := approvals[id];
      if record.status != Pending {
        return Failure(AlreadyDecided(record.status));
      }
      return Success(record);
    }
  }

  // ---------- the same facts read off the call history ----------

  /** A call that registers content under `id`; one that throws registers nothing. */
  predicate Registers(call: Call, id: string) {
    call.Register? && call.action.id == id && PayloadHashFor(call.action.content).Success?
  }

  predicate Decides(call: Call, id: string) {
    call == Approve(id) || call == Deny(id)
  }

  /** A call that presents other content than `content` for execution under `id`. */
  ghost predicate Contradicts(call: Call, id: string, content: Content) {
    && call.Authorize? && call.action.id == id
    && PayloadHashFor(call.action.content).Success?
    && !SameContent(content, call.action.content)
  }

  ghost predicate FirstRegistration(calls: seq<Call>, id: string, r: nat) {
    && r < |calls| && Registers(calls[r], id)
    && forall i :: 0 <= i < r ==> !Registers(calls[i], id)
  }

  ghost predicate FirstDecision(calls: seq<Call>, id: string, r: nat, d: nat) {
    && r < d < |calls| && Decides(calls[d], id)
    && forall i :: r < i < d ==> !Decides(calls[i], id)
  }

  ghost predicate UncontradictedAfter(calls: seq<Call>, id: string, d: nat, content: Content) {
    forall i :: d < i < |calls| ==> !Contradicts(calls[i], id, content)
  }

  /** How a record came about: first registered at `r` and, unless still pending, decided at `d`. */
  ghost predicate Explains(calls: seq<Call>, id: string, record: ApprovalRecord, r: nat, d: nat) {
    && FirstRegistration(calls, id, r)
    && PayloadHashFor(calls[r].action.content) == Success(record.payloadHash)
    && match record.status {
         case Pending => d == |calls| && forall i :: r < i < |calls| ==> !Decides(calls[i], id)
         case Denied => FirstDecision(calls, id, r, d) && calls[d].Deny?
         case Approved =>
           FirstDecision(calls, id, r, d) && calls[d].Approve?
           && UncontradictedAfter(calls, id, d, calls[r].action.content)
         case Invalidated =>
           FirstDecision(calls, id, r, d) && calls[d].Approve?
           && !UncontradictedAfter(calls, id, d, calls[r].action.content)
       }
  }

  /** Every record is explained by the calls made so far, and without one nothing was registered. */
  lemma {:induction false} RecordsAreExplained(calls: seq<Call>, id: string) returns (r: nat, d: nat)
    ensures id in Replay(calls) ==> Explains(calls, id, Replay(calls)[id], r, d)
    ensures id !in Replay(calls) ==> forall i :: 0 <= i < |calls| ==> !Registers(calls[i], id)
  {
    hide Explains, Registers;
    if calls == [] {
      r, d := 0, 0;
    } else {
      var before := calls[..|calls| - 1];
      var r', d' := RecordsAreExplained(before, id);
      r, d := OneMoreCall(before, calls[|calls| - 1], id, r', d');
      assert calls == before + [calls[|calls| - 1]];
    }
  }

  lemma OneMoreCall(calls: seq<Call>, call: Call, id: string, r': nat, d': nat) returns (r: nat, d: nat)
    requires id in Replay(calls) ==> Explains(calls, id, Replay(calls)[id], r', d')
    requires id !in Replay(calls) ==> forall i :: 0 <= i < |calls| ==> !Registers(calls[i], id)
    ensures var now := After(Replay(calls), call);
            && (id in now ==> Explains(calls + [call], id, now[id], r, d))
            && (id !in now ==> forall i :: 0 <= i < |calls + [call]| ==> !Registers((calls + [call])[i], id))
  {
    hide PayloadHashFor, SameContent, Replay;
    var now := After(Replay(calls), call);
    r, d := r', d';
    if id !in Replay(calls) {
      if id in now { r, d := |calls|, |calls| + 1; }
    } else {
      var record := Replay(calls)[id];
      assert FirstRegistration(calls + [call], id, r);
      if record.status == Pending {
        d := if now[id].status == Pending then |calls| + 1 else |calls|;
      } else {
        assert FirstDecision(calls + [call], id, r, d);
        if record.status == Approved {
          ApprovedOneMoreCall(calls, call, id, record, r, d);
        } else if record.status == Invalidated {
          var i :| d < i < |calls| && Contradicts(calls[i], id, calls[r].action.content);
          assert (calls + [call])[i] == calls[i];
        }
      }
    }
  }

  /** An approved record survives a call exactly when the call does not contradict it. */
  lemma ApprovedOneMoreCall(calls: seq<Call>, call: Call, id: string, record: ApprovalRecord, r: nat, d: nat)
    requires Explains(calls, id, record, r, d) && record.status == Approved
    ensures UncontradictedAfter(calls + [call], id, d, calls[r].action.content)
       <==> !(call.Authorize? && call.action.id == id && PayloadHashFor(call.action.content).Success?
              && PayloadHashFor(call.action.content).value != record.payloadHash)
  {
    hide PayloadHashFor, SameContent;
    if call.Authorize? {
      HashBindsContent(calls[r].action.content, call.action.content);
    }
    assert (calls + [call])[|calls|] == call;
  }

  /**
   * Approval by history: content `a` may execute exactly when its id was first registered with the same
   * content, the first decision on it was to approve, and no later `authorize` presented other content.
   */
  ghost predicate ApprovedByHistory(calls: seq<Call>, a: ProposedAction) {
    exists r: nat, d: nat :: ApprovedAt(calls, a, r, d)
  }

  ghost predicate ApprovedAt(calls: seq<Call>, a: ProposedAction, r: nat, d: nat) {
    && FirstRegistration(calls, a.id, r)
    && FirstDecision(calls, a.id, r, d) && calls[d].Approve?
    && SameContent(calls[r].action.content, a.content)
    && UncontradictedAfter(calls, a.id, d, calls[r].action.content)
  }

  lemma FirstIsUnique(calls: seq<Call>, id: string, r: nat, d: nat, r': nat, d': nat)
    requires FirstRegistration(calls, id, r) && FirstRegistration(calls, id, r')
    ensures r == r'
    ensures FirstDecision(calls, id, r, d) && FirstDecision(calls, id, r', d') ==> d == d'
  {
  }

  lemma ExecutableExactlyWhenApproved(calls: seq<Call>, a: ProposedAction)
    ensures (Answer(Replay(calls), a).Success? && Answer(Replay(calls), a).value.Executable?)
       <==> ApprovedByHistory(calls, a)
  {
    hide PayloadHashFor, SameContent, Replay;
    var r, d := RecordsAreExplained(calls, a.id);
    if a.id in Replay(calls) {
      HashBindsContent(calls[r].action.content, a.content);
      assert Answer(Replay(calls), a).Success? && Answer(Replay(calls), a).value.Executable? ==> ApprovedAt(calls, a, r, d);
      if ApprovedByHistory(calls, a) {
        var r': nat, d': nat :| ApprovedAt(calls, a, r', d');
        FirstIsUnique(calls, a.id, r, d, r', d');
      }
    }
  }

  /** The other answers, by the status of the stored record and the content as it is. */
  lemma AnswersExactly(approvals: Approvals, a: ProposedAction)
    ensures var answer := Answer(approvals, a);
      && (a.id !in approvals ==> answer == Success(Refused(ApprovalRequired, None)))
      && (a.id in approvals ==>
           var record := approvals[a.id];
           && (record.status == Pending ==> answer == Success(Refused(ApprovalRequired, Some(record))))
           && (record.status == Denied ==> answer == Success(Refused(Refusal.ApprovalDenied, Some(record))))
           && (record.status == Invalidated ==> answer == Success(Refused(Refusal.ApprovalInvalidated, Some(record))))
           && (record.status == Approved && PayloadHashFor(a.content).Failure? ==>
                answer == Failure(Unhashable(PayloadHashFor(a.content).error)))
           && (record.status == Approved && PayloadHashFor(a.content).Success? && PayloadHashFor(a.content).value != record.payloadHash ==>
                answer == Success(Refused(Refusal.ApprovalInvalidated, Some(record.(status := Invalidated)))))
           && (record.status == Approved && PayloadHashFor(a.content) == Success(record.payloadHash) ==>
                answer == Success(Executable(record))))
  {
    hide PayloadHashFor;
  }

  /** One `authorize` with other content disables an approved id for every later history. */
  lemma MismatchDisablesForever(calls: seq<Call>, later: seq<Call>, a: ProposedAction, b: ProposedAction)
    requires ApprovedByHistory(calls, a)
    requires b.id == a.id && PayloadHashFor(b.content).Success? && !SameContent(a.content, b.content)
    ensures forall c: ProposedAction :: c.id == a.id ==> !ApprovedByHistory(calls + [Call.Authorize(b)] + later, c)
  {
    var all := calls + [Call.Authorize(b)] + later;
    forall c: ProposedAction | c.id == a.id
      ensures !ApprovedByHistory(all, c)
    {
      if ApprovedByHistory(all, c) {
        NoApprovalPastMismatch(calls, later, a, b, c);
      }
    }
  }

  lemma NoApprovalPastMismatch(calls: seq<Call>, later: seq<Call>, a: ProposedAction, b: ProposedAction, c: ProposedAction)
    requires ApprovedByHistory(calls, a) && c.id == b.id == a.id
    requires PayloadHashFor(b.content).Success? && !SameContent(a.content, b.content)
    ensures !ApprovedByHistory(calls + [Call.Authorize(b)] + later, c)
  {
    hide PayloadHashFor, SameContent;
    var all := calls + [Call.Authorize(b)] + later;
    var r: nat, d: nat :| ApprovedAt(calls, a, r, d);
    assert FirstRegistration(all, a.id, r) && FirstDecision(all, a.id, r, d);
    assert all[|calls|] == Call.Authorize(b);
    HashBindsContent(calls[r].action.content, a.content);
    HashBindsContent(calls[r].action.content, b.content);
    HashBindsContent(b.content, a.content);
    HashBindsContent(a.content, b.content);
    assert Contradicts(all[|calls|], a.id, calls[r].action.content);
    if ApprovedByHistory(all, c) {
      var r': nat, d': nat :| ApprovedAt(all, c, r', d');
      FirstIsUnique(all, a.id, r, d, r', d');
    }
  }
}
