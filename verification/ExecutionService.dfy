/** `run` and `execute` as methods over the stores they change, each taken from its first step to its last. */
module ExecutionServices {
  import opened Wrappers
  import opened JsonText
  import opened Actions
  import opened EmailService
  import opened ExecutionLedger
  import opened Recovery
  import opened Protocol
  import A = ApprovalService

  datatype RunError = NotForExecution | Unverifiable | ClaimFailed | RecordFailed

  /** The checks before the claim let the action through. */
  predicate Cleared(approvals: map<string, A.ApprovalRecord>, a: ApprovedAction, decision: Decision) {
    || Admitted(a, decision).Claiming?
    || (Admitted(a, decision).Verifying? && Verified(approvals, a).Claiming?)
  }

  /** What the checks before the claim come to. */
  function Gate(approvals: map<string, A.ApprovalRecord>, a: ApprovedAction, decision: Decision): Phase {
    if Admitted(a, decision).Verifying? then Verified(approvals, a) else Admitted(a, decision)
  }

  /** A protected action is cleared only by a stored approval of exactly its contents, and under its own key. */
  lemma ClearedExactly(approvals: map<string, A.ApprovalRecord>, a: ApprovedAction, decision: Decision)
    ensures a.action.content.kind == SEND_EMAIL ==>
              (Cleared(approvals, a, decision) <==>
                && decision == RequireApproval
                && (a.supplied.Some? ==> a.supplied.value == KeyOf(a))
                && a.action.id in approvals && approvals[a.action.id].status == A.Approved
                && PayloadHashFor(a.action.content) == Success(a.payloadHash)
                && approvals[a.action.id].payloadHash == a.payloadHash)
  {
  }

  /** The outcome that tells the caller of a refusal. */
  predicate IsRefusal(phase: Phase, reason: Reason) {
    phase == Returned(Outcome(Undelivered(reason), true))
  }

  /** The stored approval of the action has this status. */
  predicate IsStored(approvals: map<string, A.ApprovalRecord>, id: string, status: A.ApprovalStatus) {
    id in approvals && approvals[id].status == status
  }

  /** The checks on the call itself, in their order: an unprotected decision, a protected action without approval, a foreign key. */
  predicate PassesOwnChecks(a: ApprovedAction, decision: Decision) {
    && (decision == RequireApproval || decision == AutoExecute)
    && !(a.action.content.kind == Ascii("SEND_EMAIL") && decision == AutoExecute)
    && (a.supplied.Some? ==> a.supplied.value == Key(a.action.sessionId, a.action.id, a.payloadHash))
  }

  /** Each way in which `run` turns a call away before the claim, by what was called and what is stored. */
  lemma RefusalsExactly(approvals: map<string, A.ApprovalRecord>, a: ApprovedAction, decision: Decision)
    ensures var gate, id := Gate(approvals, a, decision), a.action.id;
      var checked := PassesOwnChecks(a, decision) && decision == RequireApproval;
      && (IsRefusal(gate, ProtectedActionRequiresApproval) <==> a.action.content.kind == Ascii("SEND_EMAIL") && decision == AutoExecute)
      && (IsRefusal(gate, IdempotencyKeyMismatch) <==>
           && (decision == RequireApproval || (decision == AutoExecute && a.action.content.kind != Ascii("SEND_EMAIL")))
           && !PassesOwnChecks(a, decision))
      && (IsRefusal(gate, NoApproval) <==> checked && (id !in approvals || IsStored(approvals, id, A.Pending)))
      && (IsRefusal(gate, Reason.ApprovalDenied) <==> checked && IsStored(approvals, id, A.Denied))
      && (IsRefusal(gate, Reason.ApprovalInvalidated) <==> checked && IsStored(approvals, id, A.Invalidated))
      && (IsRefusal(gate, HashMismatch) <==>
           checked && IsStored(approvals, id, A.Approved) && PayloadHashFor(a.action.content).Success?
           && !(approvals[id].payloadHash == a.payloadHash == PayloadHashFor(a.action.content).value))
      && (gate.Threw? <==>
           || decision == DenyAction || decision == RecommendOnly
           || (checked && IsStored(approvals, id, A.Approved) && PayloadHashFor(a.action.content).Failure?))
      && (gate == Claiming <==>
           && PassesOwnChecks(a, decision)
           && (decision == RequireApproval ==>
                && IsStored(approvals, id, A.Approved) && approvals[id].payloadHash == a.payloadHash
                && PayloadHashFor(a.action.content) == Success(a.payloadHash)))
  {
    hide PayloadHashFor;
    ProtectedType();
  }

  lemma ProtectedType()
    ensures SEND_EMAIL == Ascii("SEND_EMAIL")
  {
  }

  class ExecutionService {
    const store: JsonExecutionStore
    const maxAttempts: nat

    constructor (store: JsonExecutionStore, maxAttempts: nat)
      ensures this.store == store && this.maxAttempts == maxAttempts
    {
      this.store, this.maxAttempts := store, maxAttempts;
    }

    /**
      * The executor is reached only by a cleared action whose key no one has claimed. Then the record is written with
      * the outcome, as succeeded exactly when the action was delivered; every other call leaves the ledger as it was.
      * When the claim was written but the outcome could not be, the key stays executing.
      */
    method Run(a: ApprovedAction, decision: Decision, approvals: map<string, A.ApprovalRecord>,
               attempts: nat -> AttemptResult, claims: bool, records: bool)
      returns (r: Result<Outcome, RunError>, made: nat)
      modifies store
      ensures made <= maxAttempts
      ensures made > 0 ==> Cleared(approvals, a, decision) && KeyOf(a) !in old(store.data) && claims
      ensures !Cleared(approvals, a, decision) ==>
                store.data == old(store.data) && made == 0 && (r.Success? ==> r.value.terminal && !r.value.result.Delivered?)
      ensures Gate(approvals, a, decision).Returned? ==> r == Success(Gate(approvals, a, decision).outcome)
      ensures Gate(approvals, a, decision).Threw? ==> r.Failure?
      ensures Cleared(approvals, a, decision) && !claims ==> r == Failure(ClaimFailed) && store.data == old(store.data)
      ensures Cleared(approvals, a, decision) && claims && KeyOf(a) in old(store.data) ==>
                r == Success(Existing(old(store.data), KeyOf(a))) && store.data == old(store.data) && made == 0
      ensures Cleared(approvals, a, decision) && claims && KeyOf(a) !in old(store.data) && records ==>
                && r.Success? && (!r.value.terminal <==> r.value.result.Delivered?)
                && store.data == old(store.data)[KeyOf(a) := FinalRecord(NewExecutingRecord(KeyOf(a)), r.value)]
                && (forall n: nat :: Decisive(attempts, maxAttempts, n) ==>
                     made == n && Followed(attempts(n), n, maxAttempts) == Some(r.value))
                && ((forall n: nat :: !Decisive(attempts, maxAttempts, n)) ==> r.value == GiveUp(RetriesExhausted))
      ensures Cleared(approvals, a, decision) && claims && KeyOf(a) !in old(store.data) && !records ==>
                r == Failure(RecordFailed) && store.data == old(store.data)[KeyOf(a) := NewExecutingRecord(KeyOf(a))]
    {
      hide Decisive, Followed, FinalRecord, Existing, PayloadHashFor;
      made := 0;
      if decision == DenyAction || decision == RecommendOnly {
        return Failure(NotForExecution), 0;
      }
      if a.action.content.kind == SEND_EMAIL && decision == AutoExecute {
        return Success(GiveUp(ProtectedActionRequiresApproval)), 0;
      }
      var key := KeyOf(a);
      if a.supplied.Some? && a.supplied.value != key {
        return Success(GiveUp(IdempotencyKeyMismatch)), 0;
      }
      if decision == RequireApproval {
        var verdict := Verified(approvals, a);
        if verdict.Threw? {
          return Failure(Unverifiable), 0;
        }
        if verdict.Returned? {
          return Success(verdict.outcome), 0;
        }
      }
      r, made := Claim(a, attempts, claims, records);
    }

    /** What follows for a cleared action: the claim, and for its winner the attempts and the write-back. */
    method Claim(a: ApprovedAction, attempts: nat -> AttemptResult, claims: bool, records: bool)
      returns (r: Result<Outcome, RunError>, made: nat)
      modifies store
      ensures made <= maxAttempts && (made > 0 ==> KeyOf(a) !in old(store.data) && claims)
      ensures !claims ==> r == Failure(ClaimFailed) && store.data == old(store.data)
      ensures claims && KeyOf(a) in old(store.data) ==>
                r == Success(Existing(old(store.data), KeyOf(a))) && store.data == old(store.data) && made == 0
      ensures claims && KeyOf(a) !in old(store.data) && records ==>
                && r.Success? && (!r.value.terminal <==> r.value.result.Delivered?)
                && store.data == old(store.data)[KeyOf(a) := FinalRecord(NewExecutingRecord(KeyOf(a)), r.value)]
                && (forall n: nat :: Decisive(attempts, maxAttempts, n) ==>
                     made == n && Followed(attempts(n), n, maxAttempts) == Some(r.value))
                && ((forall n: nat :: !Decisive(attempts, maxAttempts, n)) ==> r.value == GiveUp(RetriesExhausted))
      ensures claims && KeyOf(a) !in old(store.data) && !records ==>
                r == Failure(RecordFailed) && store.data == old(store.data)[KeyOf(a) := NewExecutingRecord(KeyOf(a))]
    {
      hide Decisive, Followed;
      var key := KeyOf(a);
      var claimed := store.Claim(key, claims);
      if claimed.Failure? {
        return Failure(ClaimFailed), 0;
      }
      if claimed.value.None? {
        var existing := store.Get(key);
        if existing.Some? && existing.value.status == Succeeded && existing.value.result.Some? {
          return Success(Outcome(existing.value.result.value, false)), 0;
        }
        if existing.Some? && existing.value.status == Failed {
          return Success(Outcome(if existing.value.result.Some? then existing.value.result.value else Undelivered(Unspecified), true)), 0;
        }
        return Success(Outcome(InProgress, false)), 0;
      }
      var outcome: Outcome;
      outcome, made := Recovery.Run(attempts, maxAttempts);
      var updated := store.Update(
        claimed.value.value.(status := if outcome.terminal then Failed else Succeeded,
                             attempts := claimed.value.value.attempts + 1,
                             result := Some(outcome.result)),
        records);
      if updated.Failure? {
        return Failure(RecordFailed), made;
      }
      return Success(outcome), made;
    }
  }

  /** What was recorded is what every later call for the key is told. */
  lemma RecordedIsReturned(ledger: Ledger, key: Key, outcome: Outcome)
    requires !outcome.terminal <==> outcome.result.Delivered?
    ensures Existing(ledger[key := FinalRecord(NewExecutingRecord(key), outcome)], key) == outcome
  {
  }

  /** The trusted executor: validation, receipt lookup, delivery through the protected service, receipt. */
  class MockEmailExecutor {
    const service: MockProtectedEmailService
    const token: string
    var receipts: map<Key, nat>

    constructor (service: MockProtectedEmailService, token: string)
      ensures this.service == service && this.token == token && receipts == map[]
    {
      this.service, this.token, receipts := service, token, map[];
    }

    /** The strict schema, then the protected service; the errors decide whether the attempt is repeated. */
    method Deliver(a: ApprovedAction) returns (r: AttemptResult)
      modifies service
      ensures ParseEmail(a.action.content.payload).None? ==>
                r == Failure(ValidationFailure) && service.View() == old(service.View())
      ensures ParseEmail(a.action.content.payload).Some? ==>
                var request := EmailRequest(a.action.sessionId, a.action.id, ParseEmail(a.action.content.payload).value);
                var (after, sent) := Sent(old(service.View()), TokenMatches(token, service.expectedToken), request);
                && service.View() == after
                && (match sent
                    case Success(id) => r == Success(id)
                    case Failure(AuthError) => r == Failure(AuthFailure)
                    case Failure(OtherError) => r == Failure(TransientFailure))
    {
      var email := ParseEmail(a.action.content.payload);
      if email.None? {
        return Failure(ValidationFailure);
      }
      var sent := service.Send(token, EmailRequest(a.action.sessionId, a.action.id, email.value));
      match sent {
        case Success(id) => return Success(id);
        case Failure(AuthError) => return Failure(AuthFailure);
        case Failure(OtherError) => return Failure(TransientFailure);
      }
    }

    /**
      * Nothing is sent for an invalid action or one whose receipt is stored. Success always comes with a stored receipt;
      * a send whose receipt could not be stored is reported as a failure although the email went out.
      */
    method Execute(a: ApprovedAction, saves: bool) returns (r: AttemptResult)
      modifies this, service
      ensures r.Success? ==> a.supplied.Some? && a.supplied.value in receipts && receipts[a.supplied.value] == r.value
      ensures !StageAfterLook(old(receipts), a).Delivering? ==>
                && service.View() == old(service.View()) && receipts == old(receipts)
                && StageAfterLook(old(receipts), a) == Done(r)
      ensures service.ledger == old(service.ledger) || IsValid(a)
      ensures forall key :: key in old(receipts) ==> key in receipts && receipts[key] == old(receipts)[key]
      ensures receipts == old(receipts) || (r.Success? && receipts == old(receipts)[a.supplied.value := r.value])
      ensures service.ledger != old(service.ledger) ==> (r.Success? <==> saves)
    {
      if !IsValid(a) {
        return Failure(UnknownFailure);
      }
      var key := a.supplied.value;
      if key in receipts {
        return Success(receipts[key]);
      }
      r := Deliver(a);
      if r.Failure? {
        return;
      }
      if !saves {
        return Failure(UnknownFailure);
      }
      receipts := receipts[key := r.value];
    }
  }
}
