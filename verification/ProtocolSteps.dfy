/** What each step of a run, of an attempt and of a process does, case by case, and that every run comes to an end. */
module ProtocolSteps {
  import opened Wrappers
  import opened JsonText
  import opened Actions
  import opened EmailService
  import opened ExecutionLedger
  import opened Recovery
  import opened Protocol
  import opened ProtocolInvariants
  import opened ProtocolTheorems
  import A = ApprovalService

  function At(x: Execution, r: nat, phase: Phase): Execution
    requires r in x.runs
  {
    x.(runs := x.runs[r := Run(x.runs[r].action, x.runs[r].decision, phase)])
  }

  function AtStage(x: Execution, id: nat, stage: Stage): Execution
    requires id in x.attempts
  {
    x.(attempts := x.attempts[id := Attempt(x.attempts[id].run, x.attempts[id].action, stage)])
  }

  /** The key of a run: its session, its action and the hash it was called with. */
  function RunKey(x: Execution, r: nat): Key
    requires r in x.runs
  {
    var a := x.runs[r].action;
    Key(a.action.sessionId, a.action.id, a.payloadHash)
  }

  // ---------- runs ----------

  /** The claim: the first caller gets an executing record, later ones read what is there, a failed write throws. */
  lemma ClaimsExactly(x: Execution, r: nat, writes: bool)
    requires r in x.runs && x.runs[r].phase == Claiming
    ensures var t, key := ClaimKey(x, r, writes), RunKey(x, r);
      if !writes then t == At(x, r, Threw)
      else if key in x.ledger then t == At(x, r, Lost)
      else t == At(x, r, Recovering(1)).(ledger := x.ledger[key := ExecutionRecord(key, Executing, 0, None)],
                                         owner := x.owner[key := r], wins := x.wins + [Win(key, r)])
  {
  }

  /** A caller that lost the claim is told what the record says. */
  lemma ExistingExactly(x: Execution, r: nat)
    requires r in x.runs && x.runs[r].phase == Lost
    ensures var t, key := ReadExisting(x, r), RunKey(x, r);
      if key in x.ledger && x.ledger[key].status == Succeeded && x.ledger[key].result.Some?
      then t == At(x, r, Returned(Outcome(x.ledger[key].result.value, false)))
      else if key in x.ledger && x.ledger[key].status == Failed
      then t == At(x, r, Returned(Outcome(if x.ledger[key].result.Some? then x.ledger[key].result.value else Undelivered(Unspecified), true)))
      else t == At(x, r, Returned(Outcome(InProgress, false)))
  {
  }

  /** Attempts are made one at a time, up to the limit. */
  lemma AttemptsBeginExactly(x: Execution, r: nat, id: nat)
    requires r in x.runs && x.runs[r].phase.Recovering? && id !in x.attempts
    ensures var t, n := BeginAttempt(x, r, id), x.runs[r].phase.next;
      if n <= x.maxAttempts
      then t == At(x, r, Attempting(n, id)).(attempts := x.attempts[id := Attempt(r, x.runs[r].action, Looking)])
      else t == At(x, r, Recording(Outcome(Undelivered(RetriesExhausted), true)))
  {
  }

  /** What follows a transient failure, or a timeout, of attempt `n`. */
  function AfterTransient(n: nat, maxAttempts: nat): Phase {
    if n < maxAttempts then Recovering(n + 1) else Recording(Outcome(Undelivered(RetriesExhausted), true))
  }

  /** A settled attempt decides, unless it failed transiently with attempts left. */
  lemma SettlesExactly(x: Execution, r: nat)
    requires r in x.runs && x.runs[r].phase.Attempting? && x.runs[r].phase.id in x.attempts
    requires x.attempts[x.runs[r].phase.id].stage.Done?
    ensures var t, n := SettleAttempt(x, r), x.runs[r].phase.attempt;
      match x.attempts[x.runs[r].phase.id].stage.result
      case Success(messageId) => t == At(x, r, Recording(Outcome(Delivered(messageId), false)))
      case Failure(AuthFailure) => t == At(x, r, Recording(Outcome(Undelivered(AuthRejected), true)))
      case Failure(ValidationFailure) => t == At(x, r, Recording(Outcome(Undelivered(InvalidAction), true)))
      case Failure(UnknownFailure) => t == At(x, r, Recording(Outcome(Undelivered(UnknownExecutionError), true)))
      case Failure(TransientFailure) => t == At(x, r, AfterTransient(n, x.maxAttempts))
  {
  }

  lemma TimesOutExactly(x: Execution, r: nat)
    requires r in x.runs && x.runs[r].phase.Attempting?
    ensures TimeOut(x, r) == At(x, r, AfterTransient(x.runs[r].phase.attempt, x.maxAttempts))
  {
  }

  /** The write-back: one attempt counted, the result kept, and the run over in either case. */
  lemma RecordsExactly(x: Execution, r: nat, writes: bool)
    requires r in x.runs && x.runs[r].phase.Recording?
    ensures var t, key, outcome := RecordOutcome(x, r, writes), RunKey(x, r), x.runs[r].phase.outcome;
      if !writes then t == At(x, r, Threw)
      else t == At(x, r, Returned(outcome)).(ledger := x.ledger[key :=
                  ExecutionRecord(key, if outcome.terminal then Failed else Succeeded, 1, Some(outcome.result))])
  {
  }

  // ---------- attempts ----------

  /** Nothing is delivered for an action that is not valid, or whose receipt is stored. */
  lemma LooksExactly(x: Execution, id: nat)
    requires id in x.attempts && x.attempts[id].stage == Looking
    ensures var t, a := Look(x, id), x.attempts[id].action;
      if a.action.content.kind == Ascii("SEND_EMAIL") && PayloadHashFor(a.action.content) == Success(a.payloadHash)
         && IsComplete(a.action.content.payload) && a.supplied.Some?
      then
        if a.supplied.value in x.receipts then t == AtStage(x, id, Done(Success(x.receipts[a.supplied.value])))
        else t == AtStage(x, id, Delivering(a.supplied.value))
      else t == AtStage(x, id, Done(Failure(UnknownFailure)))
  {
    hide PayloadHashFor, IsComplete;
    assert SEND_EMAIL == Ascii("SEND_EMAIL");
  }

  /** The delivery: schema, token, receipt of this process, queued error, transient failure, acceptance, in this order. */
  lemma DeliversExactly(x: Execution, id: nat)
    requires id in x.attempts && x.attempts[id].stage.Delivering?
    ensures var a, key, v := x.attempts[id].action, x.attempts[id].stage.key, x.service;
      var t := Deliver(x, id, x.authorized);
      var email, dedupe := ParseEmail(a.action.content.payload), DedupeKey(a.action.sessionId, a.action.id);
      if email.None? then t == AtStage(x, id, Done(Failure(ValidationFailure)))
      else if !x.authorized then t == AtStage(x, id, Done(Failure(AuthFailure)))
      else if dedupe in v.receipts then t == AtStage(x, id, Saving(key, v.receipts[dedupe]))
      else if v.errorQueue != [] then
        t == AtStage(x, id, Done(Failure(if v.errorQueue[0] == AuthError then AuthFailure else TransientFailure)))
             .(service := v.(errorQueue := v.errorQueue[1..]))
      else if v.transientFailures > 0 then
        t == AtStage(x, id, Done(Failure(TransientFailure))).(service := v.(transientFailures := v.transientFailures - 1))
      else
        var request := EmailRequest(a.action.sessionId, a.action.id, email.value);
        t == AtStage(x, id, Saving(key, v.counter + 1))
             .(service := Service(v.counter + 1, 0, [], v.sent + [request], v.receipts[dedupe := v.counter + 1]),
               accepted := x.accepted + [Accepted(a, request, v.counter + 1)])
  {
    hide ParseEmail;
  }

  /** An attempt succeeds only with its receipt stored. */
  lemma SavesExactly(x: Execution, id: nat, writes: bool)
    requires id in x.attempts && x.attempts[id].stage.Saving?
    ensures var t, key, messageId := SaveReceipt(x, id, writes), x.attempts[id].stage.key, x.attempts[id].stage.messageId;
      if writes then t == AtStage(x, id, Done(Success(messageId))).(receipts := x.receipts[key := messageId])
      else t == AtStage(x, id, Done(Failure(UnknownFailure)))
  {
  }

  // ---------- processes ----------

  /** A crash loses what is in memory and nothing else, and a new process finds every claim left open as failed. */
  lemma CrashKeepsFiles(s: State, authorized: bool)
    requires s.up
    ensures var t := Next(s, Crashes);
      && !t.up && t.exec.ledger == s.exec.ledger && t.exec.receipts == s.exec.receipts && t.exec.accepted == s.exec.accepted
      && t.exec.wins == s.exec.wins && t.exec.maxAttempts == s.exec.maxAttempts && t.exec.authorized == s.exec.authorized
      && t.exec.runs == map[] && t.exec.attempts == map[] && t.exec.owner == map[]
      && t.exec.service == Service(0, 0, [], [], map[])
      && t.desk == s.desk.(deciding := map[])
    ensures var t := Next(Next(s, Crashes), Restarts(authorized));
      && t.up && t.exec.authorized == authorized && t.exec.ledger.Keys == s.exec.ledger.Keys
      && (forall key :: key in s.exec.ledger ==>
           t.exec.ledger[key] ==
             if s.exec.ledger[key].status == Succeeded || s.exec.ledger[key].status == Failed then s.exec.ledger[key]
             else ExecutionRecord(s.exec.ledger[key].key, Failed, s.exec.ledger[key].attempts, Some(Undelivered(ReclaimedAfterInterrupt))))
      && t.exec == Next(s, Crashes).exec.(ledger := t.exec.ledger, authorized := authorized)
      && t.desk.actions == s.desk.actions && t.desk.approvals == s.desk.approvals && t.desk.granted == s.desk.granted
  {
    hide Reconciled, Completes;
  }

  /** Faults are injected as told: so many failures from now on, and the error behind those queued before. */
  lemma FaultsExactly(x: Execution, transient: nat, error: Option<SendError>)
    ensures InjectFaults(x, transient, error)
         == x.(service := Service(x.service.counter, transient,
                                  x.service.errorQueue + (match error case Some(e) => [e] case None => []),
                                  x.service.sent, x.service.receipts))
  {
  }

  // ---------- every run ends ----------

  /** How many more changes of phase a run may see at most. */
  function StepsLeft(phase: Phase, maxAttempts: nat): int {
    match phase
    case Verifying => 2 * maxAttempts + 6
    case Claiming => 2 * maxAttempts + 5
    case Recovering(n) => 2 * (maxAttempts - n) + 5
    case Attempting(n, _) => 2 * (maxAttempts - n) + 4
    case Recording(_) => 1
    case Lost => 1
    case _ => 0
  }

  predicate WithinLimit(phase: Phase, maxAttempts: nat) {
    && (phase.Recovering? ==> 1 <= phase.next <= maxAttempts + 1)
    && (phase.Attempting? ==> 1 <= phase.attempt <= maxAttempts)
  }

  predicate HasEnded(phase: Phase) {
    phase.Returned? || phase.Threw?
  }

  /** The run's phase stays as it is, or moves on to one that is nearer to the end. */
  predicate MovesOn(before: Phase, after: Phase, maxAttempts: nat) {
    before == after || StepsLeft(after, maxAttempts) < StepsLeft(before, maxAttempts)
  }

  lemma VerifiedMovesOn(approvals: map<string, A.ApprovalRecord>, a: ApprovedAction, maxAttempts: nat)
    ensures MovesOn(Verifying, Verified(approvals, a), maxAttempts) && WithinLimit(Verified(approvals, a), maxAttempts)
  {
    hide PayloadHashFor;
  }

  lemma FollowedMovesOn(result: AttemptResult, n: nat, id: nat, maxAttempts: nat)
    requires 1 <= n <= maxAttempts
    ensures MovesOn(Attempting(n, id), PhaseAfter(result, n, maxAttempts), maxAttempts)
    ensures WithinLimit(PhaseAfter(result, n, maxAttempts), maxAttempts)
  {
  }

  lemma RunStepKeepsOthers(x: Execution, approvals: map<string, A.ApprovalRecord>, step: ExecutionStep, r: nat)
    requires IsRunStep(step) && step.run != r
    ensures var t := ExecutionNext(x, approvals, step);
      (r in t.runs <==> r in x.runs) && (r in x.runs ==> t.runs[r] == x.runs[r])
  {
    hide PayloadHashFor, Verified, PhaseAfter, Existing, FinalRecord, Claimed, KeyOf;
  }

  lemma AttemptStepKeepsRuns(x: Execution, approvals: map<string, A.ApprovalRecord>, step: ExecutionStep)
    requires !IsRunStep(step)
    ensures ExecutionNext(x, approvals, step).runs == x.runs && ExecutionNext(x, approvals, step).maxAttempts == x.maxAttempts
  {
    hide Sent, Accepts, ParseEmail, StageAfterLook, StageAfterSend, Staged;
  }

  lemma RunStepKeepsLimit(x: Execution, approvals: map<string, A.ApprovalRecord>, step: ExecutionStep)
    requires IsRunStep(step)
    ensures ExecutionNext(x, approvals, step).maxAttempts == x.maxAttempts
  {
    hide Verified, PhaseAfter, Existing, FinalRecord, Claimed, KeyOf, Moved;
  }

  /** The run is still there, has moved on or not, and is within its limit. */
  predicate Moves(x: Execution, t: Execution, r: nat) {
    && r in x.runs && r in t.runs
    && MovesOn(x.runs[r].phase, t.runs[r].phase, x.maxAttempts) && WithinLimit(t.runs[r].phase, x.maxAttempts)
  }

  lemma VerifyMoves(x: Execution, approvals: map<string, A.ApprovalRecord>, r: nat)
    requires r in x.runs && WithinLimit(x.runs[r].phase, x.maxAttempts)
    ensures Moves(x, VerifyRun(x, approvals, r), r)
    ensures x.runs[r].phase == Verifying ==> VerifyRun(x, approvals, r).runs[r].phase != x.runs[r].phase
  {
    VerifiedMovesOn(approvals, x.runs[r].action, x.maxAttempts);
    VerifyingEnds(approvals, x.runs[r].action);
    hide Verified;
  }

  lemma VerifyingEnds(approvals: map<string, A.ApprovalRecord>, a: ApprovedAction)
    ensures Verified(approvals, a) != Verifying
  {
    hide PayloadHashFor;
  }

  lemma ClaimMoves(x: Execution, r: nat, writes: bool)
    requires r in x.runs && WithinLimit(x.runs[r].phase, x.maxAttempts)
    ensures Moves(x, ClaimKey(x, r, writes), r)
    ensures x.runs[r].phase == Claiming ==> ClaimKey(x, r, writes).runs[r].phase != x.runs[r].phase
  {
    hide KeyOf, Claimed;
  }

  lemma ReadMoves(x: Execution, r: nat)
    requires r in x.runs && WithinLimit(x.runs[r].phase, x.maxAttempts)
    ensures Moves(x, ReadExisting(x, r), r)
    ensures x.runs[r].phase == Lost ==> ReadExisting(x, r).runs[r].phase != x.runs[r].phase
  {
    hide KeyOf, Existing;
  }

  lemma BeginMoves(x: Execution, r: nat, id: nat)
    requires r in x.runs && WithinLimit(x.runs[r].phase, x.maxAttempts)
    ensures Moves(x, BeginAttempt(x, r, id), r)
    ensures x.runs[r].phase.Recovering? && id !in x.attempts ==> BeginAttempt(x, r, id).runs[r].phase != x.runs[r].phase
  {
    hide KeyOf;
  }

  lemma SettleMoves(x: Execution, r: nat)
    requires r in x.runs && WithinLimit(x.runs[r].phase, x.maxAttempts)
    ensures Moves(x, SettleAttempt(x, r), r)
  {
    if x.runs[r].phase.Attempting? && x.runs[r].phase.id in x.attempts && x.attempts[x.runs[r].phase.id].stage.Done? {
      var id := x.runs[r].phase.id;
      FollowedMovesOn(x.attempts[id].stage.result, x.runs[r].phase.attempt, id, x.maxAttempts);
    }
    hide PhaseAfter;
  }

  lemma TimeOutMoves(x: Execution, r: nat)
    requires r in x.runs && WithinLimit(x.runs[r].phase, x.maxAttempts)
    ensures Moves(x, TimeOut(x, r), r)
    ensures x.runs[r].phase.Attempting? ==> TimeOut(x, r).runs[r].phase != x.runs[r].phase
  {
    if x.runs[r].phase.Attempting? {
      FollowedMovesOn(Failure(TransientFailure), x.runs[r].phase.attempt, x.runs[r].phase.id, x.maxAttempts);
    }
    hide StepsLeft;
  }

  lemma RecordMoves(x: Execution, r: nat, writes: bool)
    requires r in x.runs && WithinLimit(x.runs[r].phase, x.maxAttempts)
    ensures Moves(x, RecordOutcome(x, r, writes), r)
    ensures x.runs[r].phase.Recording? ==> RecordOutcome(x, r, writes).runs[r].phase != x.runs[r].phase
  {
    hide KeyOf, FinalRecord;
  }

  lemma OwnStepMovesOn(x: Execution, approvals: map<string, A.ApprovalRecord>, step: ExecutionStep, r: nat)
    requires r in x.runs && WithinLimit(x.runs[r].phase, x.maxAttempts) && IsRunStep(step) && step.run == r
    ensures Moves(x, ExecutionNext(x, approvals, step), r)
  {
    hide VerifyRun, ClaimKey, ReadExisting, BeginAttempt, SettleAttempt, TimeOut, RecordOutcome, Moves, WithinLimit;
    match step
    case DoVerify(_) => VerifyMoves(x, approvals, r);
    case DoClaim(_, writes) => ClaimMoves(x, r, writes);
    case DoReadExisting(_) => ReadMoves(x, r);
    case DoBeginAttempt(_, id) => BeginMoves(x, r, id);
    case DoSettle(_) => SettleMoves(x, r);
    case DoTimeOut(_) => TimeOutMoves(x, r);
    case DoRecord(_, writes) => RecordMoves(x, r, writes);
  }

  lemma ExecutionMovesOn(x: Execution, approvals: map<string, A.ApprovalRecord>, step: ExecutionStep, r: nat)
    requires r in x.runs && WithinLimit(x.runs[r].phase, x.maxAttempts)
    ensures var t := ExecutionNext(x, approvals, step);
      r in t.runs && MovesOn(x.runs[r].phase, t.runs[r].phase, x.maxAttempts) && WithinLimit(t.runs[r].phase, x.maxAttempts)
  {
    hide ExecutionNext, WithinLimit, StepsLeft;
    if !IsRunStep(step) {
      AttemptStepKeepsRuns(x, approvals, step);
    } else if step.run == r {
      OwnStepMovesOn(x, approvals, step, r);
    } else {
      RunStepKeepsOthers(x, approvals, step, r);
    }
  }

  lemma StartedWithin(x: Execution, q: nat, a: ApprovedAction, decision: Decision, r: nat)
    ensures r in x.runs ==> StartRun(x, q, a, decision).runs[r] == x.runs[r]
    ensures r !in x.runs && r in StartRun(x, q, a, decision).runs ==>
              WithinLimit(StartRun(x, q, a, decision).runs[r].phase, x.maxAttempts)
  {
  }

  /** In every state of every run of the system, each call is within its limit. */
  ghost predicate AllWithinLimit(x: Execution) {
    forall r :: r in x.runs ==> WithinLimit(x.runs[r].phase, x.maxAttempts)
  }

  lemma NextKeepsLimits(s: State, step: Step)
    requires AllWithinLimit(s.exec)
    ensures AllWithinLimit(Next(s, step).exec) && Next(s, step).exec.maxAttempts == s.exec.maxAttempts
    ensures forall r :: r in s.exec.runs && r in Next(s, step).exec.runs ==>
              MovesOn(s.exec.runs[r].phase, Next(s, step).exec.runs[r].phase, s.exec.maxAttempts)
  {
    var x, t := s.exec, Next(s, step).exec;
    hide WithinLimit, MovesOn, ExecutionNext, StartRun, Launched, DeskNext, Reclaimed, MayLaunch, ReconcileAll, ReconcileSession;
    LimitsFrame(s, step, 0);
    forall r
      ensures r in t.runs ==> WithinLimit(t.runs[r].phase, x.maxAttempts)
      ensures r in x.runs && r in t.runs ==> MovesOn(x.runs[r].phase, t.runs[r].phase, x.maxAttempts)
    {
      NextMovesOn(s, step, r);
    }
  }

  lemma ExecutionFrame(x: Execution, approvals: map<string, A.ApprovalRecord>, step: ExecutionStep, r: nat)
    ensures ExecutionNext(x, approvals, step).maxAttempts == x.maxAttempts
    ensures r in ExecutionNext(x, approvals, step).runs <==> r in x.runs
  {
    hide ExecutionNext;
    if IsRunStep(step) {
      RunStepKeepsLimit(x, approvals, step);
      RunStepKeepsIds(x, approvals, step, r);
    } else {
      AttemptStepKeepsRuns(x, approvals, step);
    }
  }

  lemma RunStepKeepsIds(x: Execution, approvals: map<string, A.ApprovalRecord>, step: ExecutionStep, r: nat)
    requires IsRunStep(step)
    ensures r in ExecutionNext(x, approvals, step).runs <==> r in x.runs
  {
    hide PayloadHashFor, Verified, PhaseAfter, Existing, FinalRecord, Claimed, KeyOf;
  }

  lemma StartFrame(x: Execution, q: nat, a: ApprovedAction, decision: Decision, r: nat)
    ensures StartRun(x, q, a, decision).maxAttempts == x.maxAttempts
    ensures r in x.runs ==> r in StartRun(x, q, a, decision).runs
  {
    hide Admitted;
  }

  lemma LimitsFrame(s: State, step: Step, r: nat)
    ensures Next(s, step).exec.maxAttempts == s.exec.maxAttempts
    ensures r in s.exec.runs && step != Crashes ==> r in Next(s, step).exec.runs
  {
    hide ExecutionNext, StartRun, Reclaimed, DeskNext, ReconcileAll, ReconcileSession, Launched;
    match step
    case Executes(x) => ExecutionFrame(s.exec, s.desk.approvals, x, r);
    case Calls(q, a, decision) => StartFrame(s.exec, q, a, decision, r);
    case Launches(id, q, race) =>
      if MayLaunch(s.desk, s.exec.runs, id, q, race) {
        StartFrame(s.exec, q, s.desk.deciding[id].action, RequireApproval, r);
      }
    case _ =>
  }

  lemma NextMovesOn(s: State, step: Step, r: nat)
    requires AllWithinLimit(s.exec)
    ensures var x, t := s.exec, Next(s, step).exec;
      && (r in t.runs ==> WithinLimit(t.runs[r].phase, x.maxAttempts))
      && (r in x.runs && r in t.runs ==> MovesOn(x.runs[r].phase, t.runs[r].phase, x.maxAttempts))
  {
    hide WithinLimit, ExecutionNext, StartRun, Launched, DeskNext, Reclaimed, ReconcileAll, ReconcileSession, StepsLeft;
    if s.up {
      match step
      case Executes(x) =>
        if r in s.exec.runs {
          ExecutionMovesOn(s.exec, s.desk.approvals, x, r);
        } else {
          ExecutionFrame(s.exec, s.desk.approvals, x, r);
        }
      case Calls(q, a, decision) => StartedWithin(s.exec, q, a, decision, r);
      case Launches(id, q, race) =>
        if MayLaunch(s.desk, s.exec.runs, id, q, race) {
          StartedWithin(s.exec, q, s.desk.deciding[id].action, RequireApproval, r);
        }
      case _ =>
    }
  }

  lemma {:induction false} AfterKeepsLimits(s: State, steps: seq<Step>)
    requires AllWithinLimit(s.exec)
    ensures AllWithinLimit(After(s, steps).exec) && After(s, steps).exec.maxAttempts == s.exec.maxAttempts
  {
    hide Next, AllWithinLimit;
    if steps != [] {
      AfterKeepsLimits(s, steps[..|steps| - 1]);
      NextKeepsLimits(After(s, steps[..|steps| - 1]), steps[|steps| - 1]);
    }
  }

  lemma ReachableIsWithin(s: State)
    requires Reachable(s)
    ensures AllWithinLimit(s.exec)
  {
    hide After;
    var maxAttempts: nat, authorized: bool, steps: seq<Step> :| After(Initial(maxAttempts, authorized), steps) == s;
    AfterKeepsLimits(Initial(maxAttempts, authorized), steps);
  }

  /** How often the phase of run `r` changes. */
  ghost function Changes(s: State, steps: seq<Step>, r: nat): nat {
    if steps == [] then 0
    else
      var init := steps[..|steps| - 1];
      var x, t := After(s, init).exec, After(s, steps).exec;
      Changes(s, init, r) + if r in x.runs && r in t.runs && x.runs[r].phase != t.runs[r].phase then 1 else 0
  }

  /**
    * Whatever else happens, and however often its attempts time out: between two crashes the phase of a call changes at most
    * 2 * maxAttempts + 6 times, after which it has returned or thrown.
    */
  lemma {:induction false} RunsEnd(s: State, steps: seq<Step>, r: nat)
    requires Reachable(s) && r in s.exec.runs && r in After(s, steps).exec.runs && Crashes !in steps
    ensures Changes(s, steps, r) + StepsLeft(After(s, steps).exec.runs[r].phase, s.exec.maxAttempts)
         <= StepsLeft(s.exec.runs[r].phase, s.exec.maxAttempts) <= 2 * s.exec.maxAttempts + 6
    ensures StepsLeft(After(s, steps).exec.runs[r].phase, s.exec.maxAttempts) >= 0
    ensures StepsLeft(After(s, steps).exec.runs[r].phase, s.exec.maxAttempts) == 0 <==> HasEnded(After(s, steps).exec.runs[r].phase)
  {
    ReachableIsWithin(s);
    AfterKeepsLimits(s, steps);
    LeftIsRight(s.exec.runs[r].phase, s.exec.maxAttempts);
    LeftIsRight(After(s, steps).exec.runs[r].phase, s.exec.maxAttempts);
    hide StepsLeft, WithinLimit, HasEnded, Next, Reachable;
    if steps != [] {
      var init := steps[..|steps| - 1];
      var before := After(s, init);
      AfterKeepsLimits(s, init);
      assert forall step :: step in init ==> step in steps;
      assert r in before.exec.runs by { RunsStay(s, init, r); }
      RunsEnd(s, init, r);
      NextMovesOn(before, steps[|steps| - 1], r);
    }
  }

  lemma LeftIsRight(phase: Phase, maxAttempts: nat)
    requires WithinLimit(phase, maxAttempts)
    ensures 0 <= StepsLeft(phase, maxAttempts) <= 2 * maxAttempts + 6
    ensures StepsLeft(phase, maxAttempts) == 0 <==> HasEnded(phase)
  {
  }

  lemma {:induction false} RunsStay(s: State, steps: seq<Step>, r: nat)
    requires r in s.exec.runs && Crashes !in steps
    ensures r in After(s, steps).exec.runs
  {
    hide Next;
    if steps != [] {
      assert forall step :: step in steps[..|steps| - 1] ==> step in steps;
      RunsStay(s, steps[..|steps| - 1], r);
      LimitsFrame(After(s, steps[..|steps| - 1]), steps[|steps| - 1], r);
    }
  }

  /** And as long as it has not ended there is a step that takes it further. */
  lemma RunsCanGoOn(s: State, r: nat, id: nat) returns (step: Step)
    requires Reachable(s) && s.up && r in s.exec.runs && !HasEnded(s.exec.runs[r].phase) && id !in s.exec.attempts
    ensures r in Next(s, step).exec.runs && Next(s, step).exec.runs[r].phase != s.exec.runs[r].phase
  {
    hide VerifyRun, ClaimKey, ReadExisting, BeginAttempt, TimeOut, RecordOutcome, WithinLimit, MovesOn, Reachable;
    ReachableIsWithin(s);
    var x := s.exec;
    match x.runs[r].phase
    case Verifying => VerifyMoves(x, s.desk.approvals, r);
      step := Executes(DoVerify(r));
    case Claiming => ClaimMoves(x, r, true);
      step := Executes(DoClaim(r, true));
    case Lost => ReadMoves(x, r);
      step := Executes(DoReadExisting(r));
    case Recovering(_) => BeginMoves(x, r, id);
      step := Executes(DoBeginAttempt(r, id));
    case Attempting(_, _) => TimeOutMoves(x, r);
      step := Executes(DoTimeOut(r));
    case Recording(_) => RecordMoves(x, r, true);
      step := Executes(DoRecord(r, true));
  }
}
