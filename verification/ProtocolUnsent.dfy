/** When a failed ledger record does mean that nothing was sent. */
module ProtocolUnsent {
  import opened Wrappers
  import opened Actions
  import opened EmailService
  import opened ExecutionLedger
  import opened Recovery
  import opened Protocol
  import opened ProtocolInvariants
  import opened ProtocolTheorems
  import A = ApprovalService

  /** The content is the one hashed, and the strict schema refuses it. */
  ghost predicate IsUnsendable(a: ApprovedAction) {
    PayloadHashFor(a.action.content) == Success(a.payloadHash) && ParseEmail(a.action.content.payload).None?
  }

  ghost predicate SomeUnsendable(key: Key) {
    exists a :: KeyOf(a) == key && IsUnsendable(a)
  }

  predicate SaysInvalid(record: ExecutionRecord) {
    record.result == Some(Undelivered(InvalidAction))
  }

  /** Validation errors, from the attempt to the record, come from a content that the schema refuses. */
  ghost predicate RefusedInv(x: Execution) {
    && (forall id :: id in x.attempts && x.attempts[id].stage == Done(Failure(ValidationFailure)) ==>
          IsUnsendable(x.attempts[id].action))
    && (forall r :: r in x.runs && x.runs[r].phase.Recording? && x.runs[r].phase.outcome.result == Undelivered(InvalidAction) ==>
          IsUnsendable(x.runs[r].action))
    && (forall key :: key in x.ledger && SaysInvalid(x.ledger[key]) ==> SomeUnsendable(key))
  }

  /** What the retry loop can end with. */
  predicate IsOutcomeReason(reason: Reason) {
    reason in {AuthRejected, InvalidAction, UnknownExecutionError, RetriesExhausted}
  }

  /** The reasons a run is about to record, and those in the ledger. */
  ghost predicate ReasonsInv(x: Execution) {
    && (forall r :: r in x.runs && x.runs[r].phase.Recording? && x.runs[r].phase.outcome.result.Undelivered? ==>
          IsOutcomeReason(x.runs[r].phase.outcome.result.reason))
    && (forall key, reason :: key in x.ledger && x.ledger[key].result == Some(Undelivered(reason)) ==>
          IsOutcomeReason(reason) || reason == ReclaimedAfterInterrupt)
  }

  lemma RunStepsKeepReasons(x: Execution, approvals: map<string, A.ApprovalRecord>, step: ExecutionStep)
    requires ReasonsInv(x) && IsRunStep(step)
    ensures ReasonsInv(ExecutionNext(x, approvals, step))
  {
    hide Verified, Existing;
    if step.DoVerify? && step.run in x.runs {
      VerifiedIsClearedOrOver(approvals, x.runs[step.run].action);
    }
  }

  lemma AttemptStepsKeepReasons(x: Execution, approvals: map<string, A.ApprovalRecord>, step: ExecutionStep)
    requires ReasonsInv(x) && !IsRunStep(step)
    ensures ReasonsInv(ExecutionNext(x, approvals, step))
  {
    hide ReasonsInv;
    if step.DoDeliver? && step.attempt in x.attempts && x.attempts[step.attempt].stage.Delivering? {
      DeliverOnlyStages(x, step.attempt, x.authorized);
    }
    hide Deliver, StageAfterLook;
    SameRunsSameReasons(x, ExecutionNext(x, approvals, step));
  }

  lemma SameRunsSameReasons(x: Execution, t: Execution)
    requires ReasonsInv(x) && t.runs == x.runs && t.ledger == x.ledger
    ensures ReasonsInv(t)
  {
  }

  lemma ExecutionKeepsReasons(x: Execution, approvals: map<string, A.ApprovalRecord>, step: ExecutionStep)
    requires ReasonsInv(x)
    ensures ReasonsInv(ExecutionNext(x, approvals, step))
  {
    hide ReasonsInv, ExecutionNext;
    if IsRunStep(step) { RunStepsKeepReasons(x, approvals, step); } else { AttemptStepsKeepReasons(x, approvals, step); }
  }

  // ---------- the token of a process ----------

  ghost predicate NoneAccepted(accepted: seq<Accepted>, key: Key) {
    forall i :: 0 <= i < |accepted| ==> KeyOf(accepted[i].action) != key
  }

  predicate SaysUnauthorized(record: ExecutionRecord) {
    record.result == Some(Undelivered(AuthRejected))
  }

  /** Only a process with the wrong token sees, and records, an authorization error; what it claims, it never sends. */
  ghost predicate TokenInv(x: Execution) {
    && AuthError !in x.service.errorQueue
    && (forall id :: id in x.attempts && x.attempts[id].stage == Done(Failure(AuthFailure)) ==> !x.authorized)
    && (forall r :: r in x.runs && x.runs[r].phase.Recording? && x.runs[r].phase.outcome.result == Undelivered(AuthRejected) ==>
          !x.authorized)
    && (forall key :: key in x.owner && !x.authorized ==> NoneAccepted(x.accepted, key))
    && (forall key :: key in x.ledger && SaysUnauthorized(x.ledger[key]) ==>
          NoneAccepted(x.accepted, key) && (key in x.owner ==> !x.authorized))
  }

  /** No authorization error is put into the service's queue of errors to come. */
  predicate Genuine(step: Step) {
    !(step.Executes? && step.step.DoInjectFaults? && step.step.error == Some(AuthError))
  }

  lemma ClaimKeepsToken(x: Execution, r: nat, writes: bool)
    requires ClaimsInv(x) && TokenInv(x)
    ensures TokenInv(ClaimKey(x, r, writes))
  {
    hide WinsAreDistinct, RunsHoldClaims, AttemptsBelong, RunsAwaitTheirOwn;
  }

  lemma SettleKeepsToken(x: Execution, r: nat)
    requires TokenInv(x)
    ensures TokenInv(SettleAttempt(x, r))
  {
    hide NoneAccepted;
  }

  lemma RecordKeepsToken(x: Execution, r: nat, writes: bool)
    requires ClaimsInv(x) && TokenInv(x)
    ensures TokenInv(RecordOutcome(x, r, writes))
  {
    hide NoneAccepted, WinsAreDistinct, AttemptsBelong, RunsAwaitTheirOwn, AcceptedOnce;
  }

  lemma QuietStepsKeepToken(x: Execution, approvals: map<string, A.ApprovalRecord>, step: ExecutionStep)
    requires TokenInv(x)
    requires step.DoVerify? || step.DoReadExisting? || step.DoBeginAttempt? || step.DoTimeOut? || step.DoLook? || step.DoSaveReceipt?
    ensures TokenInv(ExecutionNext(x, approvals, step))
  {
    if step.DoVerify? && step.run in x.runs {
      VerifiedIsClearedOrOver(approvals, x.runs[step.run].action);
    }
    hide NoneAccepted, Verified, Existing, IsValid;
  }

  lemma FaultsKeepToken(x: Execution, transient: nat, error: Option<SendError>)
    requires TokenInv(x) && error != Some(AuthError)
    ensures TokenInv(InjectFaults(x, transient, error))
  {
  }

  lemma TransmitKeepsToken(x: Execution, id: nat, request: EmailRequest)
    requires ClaimsInv(x) && TokenInv(x) && id in x.attempts && x.attempts[id].stage.Delivering?
    ensures TokenInv(Transmit(x, id, x.authorized, request))
  {
    hide WinsAreDistinct, RunsHoldClaims, RunsAwaitTheirOwn, AcceptedOnce;
    var t := Transmit(x, id, x.authorized, request);
    assert KeyOf(x.attempts[id].action) in x.owner;
    forall key | NoneAccepted(x.accepted, key) && (!x.authorized || key != KeyOf(x.attempts[id].action))
      ensures NoneAccepted(t.accepted, key)
    {
    }
    hide NoneAccepted;
  }

  lemma InvalidKeepsToken(x: Execution, id: nat)
    requires TokenInv(x) && id in x.attempts
    ensures TokenInv(x.(attempts := Staged(x.attempts, id, Done(Failure(ValidationFailure)))))
  {
    hide NoneAccepted;
  }

  lemma DeliverKeepsToken(x: Execution, id: nat)
    requires ClaimsInv(x) && TokenInv(x)
    ensures TokenInv(Deliver(x, id, x.authorized))
  {
    hide ParseEmail, Transmit, TokenInv, ClaimsInv, Staged;
    if id in x.attempts && x.attempts[id].stage.Delivering? {
      var a := x.attempts[id].action;
      var email := ParseEmail(a.action.content.payload);
      if email.Some? {
        TransmitKeepsToken(x, id, EmailRequest(a.action.sessionId, a.action.id, email.value));
      } else {
        InvalidKeepsToken(x, id);
      }
    }
  }

  lemma ExecutionKeepsToken(x: Execution, approvals: map<string, A.ApprovalRecord>, step: ExecutionStep)
    requires ClaimsInv(x) && TokenInv(x) && Genuine(Executes(step))
    ensures TokenInv(ExecutionNext(x, approvals, step))
  {
    hide ClaimsInv, TokenInv;
    match step
    case DoClaim(r, w) => ClaimKeepsToken(x, r, w);
    case DoSettle(r) => SettleKeepsToken(x, r);
    case DoRecord(r, w) => RecordKeepsToken(x, r, w);
    case DoDeliver(id) => DeliverKeepsToken(x, id);
    case DoInjectFaults(t, e) => FaultsKeepToken(x, t, e);
    case _ => QuietStepsKeepToken(x, approvals, step);
  }

  lemma RestartKeepsToken(x: Execution, authorized: bool)
    requires TokenInv(x)
    ensures TokenInv(CrashedExecution(x))
    ensures x.runs == map[] && x.attempts == map[] && x.owner == map[] ==> TokenInv(LoadedExecution(x, authorized))
  {
  }

  lemma StartKeepsToken(x: Execution, r: nat, a: ApprovedAction, decision: Decision)
    requires TokenInv(x)
    ensures TokenInv(StartRun(x, r, a, decision))
  {
    hide NoneAccepted;
  }

  lemma NextKeepsToken(s: State, step: Step)
    requires Inv(s) && TokenInv(s.exec) && Genuine(step)
    ensures TokenInv(Next(s, step).exec)
  {
    RestartKeepsToken(s.exec, if step.Restarts? then step.authorized else s.exec.authorized);
    if step.Executes? { ExecutionKeepsToken(s.exec, s.desk.approvals, step.step); }
    if step.Calls? { StartKeepsToken(s.exec, step.run, step.action, step.decision); }
    if step.Launches? && MayLaunch(s.desk, s.exec.runs, step.id, step.run, step.race) {
      StartKeepsToken(s.exec, step.run, s.desk.deciding[step.id].action, RequireApproval);
    }
    hide ClaimsInv, ApprovalsInv, BindingInv, ResultsInv, SessionsInv, TokenInv, ExecutionNext, DeskNext, StartRun, LoadedExecution, CrashedExecution, Launched, ReconcileAll, ReconcileSession;
  }

  // ---------- contents that the schema refuses ----------

  lemma SettleKeepsRefused(x: Execution, r: nat)
    requires ClaimsInv(x) && RefusedInv(x)
    ensures RefusedInv(SettleAttempt(x, r))
  {
    hide IsUnsendable, SomeUnsendable, WinsAreDistinct, AcceptedOnce, RunsHoldClaims;
  }

  lemma RecordKeepsRefused(x: Execution, r: nat, writes: bool)
    requires RefusedInv(x)
    ensures RefusedInv(RecordOutcome(x, r, writes))
  {
    hide IsUnsendable, SomeUnsendable;
    if r in x.runs {
      UnsendableKey(x.runs[r].action);
    }
  }

  lemma UnsendableKey(a: ApprovedAction)
    ensures IsUnsendable(a) ==> SomeUnsendable(KeyOf(a))
  {
    hide IsUnsendable;
  }

  lemma OtherRunStepsKeepRefused(x: Execution, approvals: map<string, A.ApprovalRecord>, step: ExecutionStep)
    requires RefusedInv(x)
    requires step.DoVerify? || step.DoClaim? || step.DoReadExisting? || step.DoBeginAttempt? || step.DoTimeOut?
    ensures RefusedInv(ExecutionNext(x, approvals, step))
  {
    hide IsUnsendable, SomeUnsendable, PayloadHashFor, Existing;
  }

  lemma AttemptStepsKeepRefused(x: Execution, approvals: map<string, A.ApprovalRecord>, step: ExecutionStep)
    requires RefusedInv(x)
    requires step.DoLook? || step.DoSaveReceipt? || step.DoInjectFaults?
    ensures RefusedInv(ExecutionNext(x, approvals, step))
  {
    hide IsUnsendable, SomeUnsendable, IsValid;
  }

  lemma StagingKeepsRefused(x: Execution, t: Execution, id: nat)
    requires RefusedInv(x) && id in x.attempts && id in t.attempts
    requires t.runs == x.runs && t.ledger == x.ledger && t.attempts == Staged(x.attempts, id, t.attempts[id].stage)
    requires t.attempts[id].stage == Done(Failure(ValidationFailure)) ==> IsUnsendable(x.attempts[id].action)
    ensures RefusedInv(t)
  {
    hide IsUnsendable, SomeUnsendable;
  }

  lemma TransmitFails(x: Execution, id: nat, authorized: bool, request: EmailRequest)
    requires id in x.attempts && x.attempts[id].stage.Delivering?
    ensures var t := Transmit(x, id, authorized, request);
      && id in t.attempts && t.attempts == Staged(x.attempts, id, t.attempts[id].stage)
      && t.runs == x.runs && t.ledger == x.ledger && t.attempts[id].stage != Done(Failure(ValidationFailure))
  {
    hide Sent, Accepts;
  }

  lemma DeliverKeepsRefused(x: Execution, approvals: map<string, A.ApprovalRecord>, id: nat, authorized: bool)
    requires RefusedInv(x) && BindingInv(x, approvals)
    ensures RefusedInv(Deliver(x, id, authorized))
  {
    hide RefusedInv, PayloadHashFor, ParseEmail, Transmit, RunInv, AcceptedInv, IsComplete;
    if id in x.attempts && x.attempts[id].stage.Delivering? {
      assert AttemptInv(approvals, x.attempts[id]);
      var a := x.attempts[id].action;
      var email := ParseEmail(a.action.content.payload);
      if email.Some? {
        TransmitFails(x, id, authorized, EmailRequest(a.action.sessionId, a.action.id, email.value));
      }
      StagingKeepsRefused(x, Deliver(x, id, authorized), id);
    }
  }

  lemma ExecutionKeepsRefused(x: Execution, approvals: map<string, A.ApprovalRecord>, step: ExecutionStep)
    requires ClaimsInv(x) && BindingInv(x, approvals) && RefusedInv(x)
    ensures RefusedInv(ExecutionNext(x, approvals, step))
  {
    hide ClaimsInv, BindingInv, RefusedInv;
    match step
    case DoSettle(r) => SettleKeepsRefused(x, r);
    case DoRecord(r, w) => RecordKeepsRefused(x, r, w);
    case DoDeliver(id) => DeliverKeepsRefused(x, approvals, id, x.authorized);
    case DoLook(_) => AttemptStepsKeepRefused(x, approvals, step);
    case DoSaveReceipt(_, _) => AttemptStepsKeepRefused(x, approvals, step);
    case DoInjectFaults(_, _) => AttemptStepsKeepRefused(x, approvals, step);
    case _ => OtherRunStepsKeepRefused(x, approvals, step);
  }

  lemma StartKeepsRefused(x: Execution, r: nat, a: ApprovedAction, decision: Decision)
    requires RefusedInv(x)
    ensures RefusedInv(StartRun(x, r, a, decision))
  {
    hide IsUnsendable, SomeUnsendable;
  }

  lemma RestartKeepsRefused(x: Execution, authorized: bool)
    requires RefusedInv(x)
    ensures RefusedInv(CrashedExecution(x)) && RefusedInv(LoadedExecution(x, authorized))
  {
    hide IsUnsendable, SomeUnsendable;
  }

  lemma RestartKeepsReasons(x: Execution, authorized: bool)
    requires ReasonsInv(x)
    ensures ReasonsInv(CrashedExecution(x)) && ReasonsInv(LoadedExecution(x, authorized))
  {
  }

  lemma StartKeepsReasons(x: Execution, r: nat, a: ApprovedAction, decision: Decision)
    requires ReasonsInv(x)
    ensures ReasonsInv(StartRun(x, r, a, decision))
  {
  }

  lemma NextKeepsRefused(s: State, step: Step)
    requires Inv(s) && RefusedInv(s.exec) && ReasonsInv(s.exec)
    ensures RefusedInv(Next(s, step).exec) && ReasonsInv(Next(s, step).exec)
  {
    var authorized := if step.Restarts? then step.authorized else s.exec.authorized;
    RestartKeepsRefused(s.exec, authorized);
    RestartKeepsReasons(s.exec, authorized);
    if step.Executes? {
      ExecutionKeepsRefused(s.exec, s.desk.approvals, step.step);
      ExecutionKeepsReasons(s.exec, s.desk.approvals, step.step);
    }
    if step.Calls? {
      StartKeepsRefused(s.exec, step.run, step.action, step.decision);
      StartKeepsReasons(s.exec, step.run, step.action, step.decision);
    }
    if step.Launches? && MayLaunch(s.desk, s.exec.runs, step.id, step.run, step.race) {
      StartKeepsRefused(s.exec, step.run, s.desk.deciding[step.id].action, RequireApproval);
      StartKeepsReasons(s.exec, step.run, s.desk.deciding[step.id].action, RequireApproval);
    }
    hide Inv, RefusedInv, ReasonsInv, ExecutionNext, DeskNext, StartRun, LoadedExecution, CrashedExecution, Launched, ReconcileAll, ReconcileSession;
  }

  lemma {:induction false} AfterKeepsRefused(maxAttempts: nat, authorized: bool, steps: seq<Step>)
    ensures var s := After(Initial(maxAttempts, authorized), steps);
      Inv(s) && RefusedInv(s.exec) && ReasonsInv(s.exec)
  {
    InitiallyInv(maxAttempts, authorized);
    hide Inv, Next;
    if steps != [] {
      hide RefusedInv, ReasonsInv;
      var before := steps[..|steps| - 1];
      AfterKeepsRefused(maxAttempts, authorized, before);
      NextKeepsInv(After(Initial(maxAttempts, authorized), before), steps[|steps| - 1]);
      NextKeepsRefused(After(Initial(maxAttempts, authorized), before), steps[|steps| - 1]);
    }
  }

  ghost predicate AllGenuine(steps: seq<Step>) {
    forall k :: 0 <= k < |steps| ==> Genuine(steps[k])
  }

  lemma {:induction false} AfterKeepsToken(maxAttempts: nat, authorized: bool, steps: seq<Step>)
    requires AllGenuine(steps)
    ensures TokenInv(After(Initial(maxAttempts, authorized), steps).exec)
  {
    hide Inv, Next, Genuine;
    if steps != [] {
      hide TokenInv;
      var before := steps[..|steps| - 1];
      AfterKeepsToken(maxAttempts, authorized, before);
      AfterKeepsRefused(maxAttempts, authorized, before);
      NextKeepsToken(After(Initial(maxAttempts, authorized), before), steps[|steps| - 1]);
    }
  }

  /** What the schema refuses, it refuses in every content with the same hash. */
  lemma UnsendableWasNotAccepted(approvals: map<string, A.ApprovalRecord>, a: ApprovedAction, e: Accepted)
    requires IsUnsendable(a) && AcceptedInv(approvals, e)
    ensures KeyOf(e.action) != KeyOf(a)
  {
    hide PayloadHashFor, ParseEmail, IsValid;
    if KeyOf(e.action) == KeyOf(a) {
      HashBindsContent(e.action.action.content, a.action.content);
      ParsesAlike(e.action.action.content.payload, a.action.content.payload);
    }
  }

  /**
    * A record that failed with an invalid action: nothing was ever accepted for its key, by this attempt or an orphan, before
    * or after a crash, and no receipt is stored.
    */
  lemma InvalidMeansUnsent(s: State, key: Key)
    requires Reachable(s) && key in s.exec.ledger && SaysInvalid(s.exec.ledger[key])
    ensures NoneAccepted(s.exec.accepted, key) && key !in s.exec.receipts
  {
    hide After, ClaimsInv, ApprovalsInv, SessionsInv, RunInv, AttemptInv, AcceptedInv, IsUnsendable, StageResult, PhaseResult;
    var maxAttempts: nat, authorized: bool, steps: seq<Step> :| After(Initial(maxAttempts, authorized), steps) == s;
    AfterKeepsRefused(maxAttempts, authorized, steps);
    assert SomeUnsendable(key);
    var a :| KeyOf(a) == key && IsUnsendable(a);
    forall i | 0 <= i < |s.exec.accepted|
      ensures KeyOf(s.exec.accepted[i].action) != key
    {
      UnsendableWasNotAccepted(s.desk.approvals, a, s.exec.accepted[i]);
    }
    assert key in s.exec.receipts ==> Backed(s.exec.accepted, key, s.exec.receipts[key]);
  }

  /** The same of a record that failed for its token, unless an authorization error was queued by hand. */
  lemma UnauthorizedMeansUnsent(maxAttempts: nat, authorized: bool, steps: seq<Step>, key: Key)
    requires AllGenuine(steps)
    requires var x := After(Initial(maxAttempts, authorized), steps).exec; key in x.ledger && SaysUnauthorized(x.ledger[key])
    ensures var x := After(Initial(maxAttempts, authorized), steps).exec; NoneAccepted(x.accepted, key) && key !in x.receipts
  {
    hide After, AllGenuine, ClaimsInv, ApprovalsInv, SessionsInv, BindingInv, StageResult, PhaseResult;
    AfterKeepsToken(maxAttempts, authorized, steps);
    AfterKeepsRefused(maxAttempts, authorized, steps);
    var x := After(Initial(maxAttempts, authorized), steps).exec;
    assert key in x.receipts ==> Backed(x.accepted, key, x.receipts[key]);
  }
}
