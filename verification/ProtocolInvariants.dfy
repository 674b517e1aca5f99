/** What every step of the protocol keeps. */
module ProtocolInvariants {
  import opened Wrappers
  import opened JsonText
  import opened Actions
  import opened EmailService
  import opened ExecutionLedger
  import opened Recovery
  import opened Protocol
  import A = ApprovalService

  function DedupeOf(key: Key): DedupeKey {
    DedupeKey(key.sessionId, key.actionId)
  }

  /** A run between its claim and its write-back. */
  predicate Active(phase: Phase) {
    phase.Recovering? || phase.Attempting? || phase.Recording?
  }

  // ---------- claims and sends ----------

  ghost predicate WinsAreDistinct(x: Execution) {
    && (forall i, j :: 0 <= i < j < |x.wins| ==> x.wins[i].key != x.wins[j].key)
    && (forall i :: 0 <= i < |x.wins| ==> x.wins[i].key in x.ledger)
    && (forall key :: key in x.ledger ==> HasWin(x.wins, key))
    && (forall key :: key in x.owner ==> key in x.ledger)
  }

  ghost predicate HasWin(wins: seq<Win>, key: Key) {
    exists i :: 0 <= i < |wins| && wins[i].key == key
  }

  lemma WinsGrow(wins: seq<Win>, win: Win, key: Key)
    ensures HasWin(wins, key) ==> HasWin(wins + [win], key)
    ensures HasWin(wins + [win], win.key)
  {
    if HasWin(wins, key) {
      var i :| 0 <= i < |wins| && wins[i].key == key;
      assert (wins + [win])[i] == wins[i];
    }
    assert (wins + [win])[|wins|] == win;
  }

  ghost predicate RunsHoldClaims(x: Execution) {
    forall r :: r in x.runs && Active(x.runs[r].phase) ==>
      var key := KeyOf(x.runs[r].action);
      key in x.owner && x.owner[key] == r && key in x.ledger && x.ledger[key] == NewExecutingRecord(key)
  }

  ghost predicate AttemptsBelong(x: Execution) {
    forall id :: id in x.attempts ==>
      var a := x.attempts[id];
      && a.run in x.runs && x.runs[a.run].action == a.action
      && KeyOf(a.action) in x.owner && x.owner[KeyOf(a.action)] == a.run
  }

  ghost predicate RunsAwaitTheirOwn(x: Execution) {
    forall r :: r in x.runs && x.runs[r].phase.Attempting? ==>
      var id := x.runs[r].phase.id;
      id in x.attempts && x.attempts[id].run == r
  }

  ghost predicate AcceptedOnce(x: Execution) {
    && (forall i, j :: 0 <= i < j < |x.accepted| ==> KeyOf(x.accepted[i].action) != KeyOf(x.accepted[j].action))
    && (forall i :: 0 <= i < |x.accepted| ==>
         var key := KeyOf(x.accepted[i].action);
         key in x.ledger && (key in x.owner ==> DedupeOf(key) in x.service.receipts))
  }

  ghost predicate ClaimsInv(x: Execution) {
    WinsAreDistinct(x) && RunsHoldClaims(x) && AttemptsBelong(x) && RunsAwaitTheirOwn(x) && AcceptedOnce(x)
  }

  lemma ClaimKeyKeepsWins(x: Execution, r: nat, writes: bool)
    requires WinsAreDistinct(x)
    ensures WinsAreDistinct(ClaimKey(x, r, writes))
  {
    if r in x.runs {
      var win := Win(KeyOf(x.runs[r].action), r);
      forall key
        ensures (HasWin(x.wins, key) ==> HasWin(x.wins + [win], key)) && HasWin(x.wins + [win], win.key)
      {
        WinsGrow(x.wins, win, key);
      }
    }
    hide HasWin;
  }

  lemma ClaimKeyKeepsClaims(x: Execution, r: nat, writes: bool)
    requires ClaimsInv(x)
    ensures ClaimsInv(ClaimKey(x, r, writes))
  {
    ClaimKeyKeepsWins(x, r, writes);
    ClaimKeyKeepsAttempts(x, r, writes);
    hide HasWin, AttemptsBelong, RunsAwaitTheirOwn, AcceptedOnce;
    var t := ClaimKey(x, r, writes);
    assert RunsHoldClaims(t);
    hide ClaimKey, WinsAreDistinct, RunsHoldClaims;
  }

  lemma ClaimKeyKeepsAttempts(x: Execution, r: nat, writes: bool)
    requires ClaimsInv(x)
    ensures var t := ClaimKey(x, r, writes); AttemptsBelong(t) && RunsAwaitTheirOwn(t) && AcceptedOnce(t)
  {
    hide HasWin;
  }

  /** An attempt whose key belongs to its run finds no accepted email under that key unless there is a receipt. */
  lemma TransmitKeepsClaims(x: Execution, id: nat, authorized: bool, request: EmailRequest)
    requires ClaimsInv(x) && id in x.attempts && x.attempts[id].stage.Delivering?
    requires DedupeKeyOf(request) == DedupeOf(KeyOf(x.attempts[id].action))
    ensures ClaimsInv(Transmit(x, id, authorized, request))
  {
    hide HasWin;
    SentKeepsReceipts(x.service, authorized, request);
    hide Sent, Accepts, StageAfterSend;
    assert KeyOf(x.attempts[id].action) in x.owner;
  }

  lemma InvalidPayloadKeepsClaims(x: Execution, id: nat)
    requires ClaimsInv(x) && id in x.attempts && x.attempts[id].stage.Delivering?
    ensures ClaimsInv(x.(attempts := Staged(x.attempts, id, Done(Failure(ValidationFailure)))))
  {
    hide HasWin;
  }

  lemma DeliverKeepsClaims(x: Execution, id: nat, authorized: bool)
    requires ClaimsInv(x)
    ensures ClaimsInv(Deliver(x, id, authorized))
  {
    if id in x.attempts && x.attempts[id].stage.Delivering? {
      var a := x.attempts[id].action;
      var email := ParseEmail(a.action.content.payload);
      hide ParseEmail, Transmit, HasWin;
      if email.Some? {
        TransmitKeepsClaims(x, id, authorized, EmailRequest(a.action.sessionId, a.action.id, email.value));
        hide ClaimsInv;
      } else {
        InvalidPayloadKeepsClaims(x, id);
        hide ClaimsInv;
      }
    }
  }

  lemma RunStepsKeepClaims(x: Execution, approvals: map<string, A.ApprovalRecord>, step: ExecutionStep)
    requires ClaimsInv(x)
    requires step.DoVerify? || step.DoReadExisting? || step.DoBeginAttempt?
    ensures ClaimsInv(ExecutionNext(x, approvals, step))
  {
    hide HasWin;
    hide PayloadHashFor;
  }

  lemma OutcomeStepsKeepClaims(x: Execution, approvals: map<string, A.ApprovalRecord>, step: ExecutionStep)
    requires ClaimsInv(x)
    requires step.DoSettle? || step.DoTimeOut? || step.DoRecord?
    ensures ClaimsInv(ExecutionNext(x, approvals, step))
  {
    hide HasWin;
    hide FinalRecord;
  }

  lemma AttemptStepsKeepClaims(x: Execution, approvals: map<string, A.ApprovalRecord>, step: ExecutionStep)
    requires ClaimsInv(x)
    requires step.DoLook? || step.DoSaveReceipt? || step.DoInjectFaults?
    ensures ClaimsInv(ExecutionNext(x, approvals, step))
  {
    hide HasWin;
    hide StageAfterLook;
  }

  lemma ExecutionKeepsClaims(x: Execution, approvals: map<string, A.ApprovalRecord>, step: ExecutionStep)
    requires ClaimsInv(x)
    ensures ClaimsInv(ExecutionNext(x, approvals, step))
  {
    hide ClaimsInv;
    if step.DoClaim? {
      ClaimKeyKeepsClaims(x, step.run, step.writes);
    } else if step.DoDeliver? {
      DeliverKeepsClaims(x, step.attempt, x.authorized);
    } else if step.DoVerify? || step.DoReadExisting? || step.DoBeginAttempt? {
      RunStepsKeepClaims(x, approvals, step);
    } else if step.DoSettle? || step.DoTimeOut? || step.DoRecord? {
      OutcomeStepsKeepClaims(x, approvals, step);
    } else {
      AttemptStepsKeepClaims(x, approvals, step);
    }
  }

  lemma StartKeepsClaims(x: Execution, r: nat, a: ApprovedAction, decision: Decision)
    requires ClaimsInv(x)
    ensures ClaimsInv(StartRun(x, r, a, decision))
  {
    hide HasWin;
  }

  lemma RestartKeepsClaims(x: Execution, authorized: bool)
    requires ClaimsInv(x)
    ensures ClaimsInv(CrashedExecution(x))
    ensures x.runs == map[] ==> ClaimsInv(LoadedExecution(x, authorized))
  {
    hide HasWin;
  }

  // ---------- approvals ----------

  /** Some granted action under `id` has content with this hash. */
  ghost predicate WasGranted(granted: seq<ProposedAction>, id: string, hash: Text) {
    exists i :: 0 <= i < |granted| && granted[i].id == id && PayloadHashFor(granted[i].content) == Success(hash)
  }

  ghost predicate ApprovalsWereGranted(d: Desk) {
    forall id :: id in d.approvals ==>
      && d.approvals[id].actionId == id
      && (d.approvals[id].status == A.Approved ==> WasGranted(d.granted, id, d.approvals[id].payloadHash))
  }

  /** What one decision call knows: its approval has stayed pending since it was read. */
  ghost predicate StageInv(approvals: map<string, A.ApprovalRecord>, id: string, stage: Deciding) {
    match stage
    case HasApproval(_, record) => id in approvals && approvals[id] == record && record.status == A.Pending
    case HasSession(_, record) => id in approvals && approvals[id] == record && record.status == A.Pending
    case SavingDecision(record, subject) =>
      && id in approvals && approvals[id] == record.(status := A.Pending) && record.status != A.Pending
      && subject.id == id && (record.status == A.Approved ==> PayloadHashFor(subject.content) == Success(record.payloadHash))
    case _ => true
  }

  ghost predicate DecisionsAreCurrent(d: Desk) {
    forall id :: id in d.deciding ==> StageInv(d.approvals, id, d.deciding[id])
  }

  ghost predicate ApprovalsInv(d: Desk) {
    ApprovalsWereGranted(d) && DecisionsAreCurrent(d)
  }

  /** Approvals are never lost, never change their hash, and once decided never change at all. */
  ghost predicate ApprovalsGrow(old_: map<string, A.ApprovalRecord>, new_: map<string, A.ApprovalRecord>) {
    forall id :: id in old_ ==>
      && id in new_ && new_[id].payloadHash == old_[id].payloadHash
      && (old_[id].status != A.Pending ==> new_[id] == old_[id])
  }

  lemma {:induction false} FoundHasId(actions: seq<ProposedAction>, id: string)
    ensures FindAction(actions, id).Some? ==> FindAction(actions, id).value.id == id
  {
    if actions != [] && actions[0].id != id { FoundHasId(actions[1..], id); }
  }

  lemma GrantsOnlyGrow(granted: seq<ProposedAction>, a: ProposedAction, id: string, hash: Text)
    ensures WasGranted(granted, id, hash) ==> WasGranted(granted + [a], id, hash)
    ensures a.id == id && PayloadHashFor(a.content) == Success(hash) ==> WasGranted(granted + [a], id, hash)
  {
    hide PayloadHashFor;
    if WasGranted(granted, id, hash) {
      var i :| 0 <= i < |granted| && granted[i].id == id && PayloadHashFor(granted[i].content) == Success(hash);
      assert (granted + [a])[i] == granted[i];
    }
    assert (granted + [a])[|granted|] == a;
  }

  lemma SaveDecisionKeepsApprovals(d: Desk, id: string, writes: bool)
    requires ApprovalsInv(d)
    ensures ApprovalsInv(SaveDecision(d, id, writes))
    ensures ApprovalsGrow(d.approvals, SaveDecision(d, id, writes).approvals)
  {
    if id in d.deciding && d.deciding[id].SavingDecision? {
      var t := SaveDecision(d, id, writes);
      forall k | k in t.approvals && t.approvals[k].status == A.Approved
        ensures WasGranted(t.granted, k, t.approvals[k].payloadHash)
      {
        GrantsOnlyGrow(d.granted, d.deciding[id].subject, k, t.approvals[k].payloadHash);
      }
    }
    hide PayloadHashFor, GrantedAction, WasGranted;
  }

  lemma RequestApprovalKeepsApprovals(d: Desk, id: string)
    requires ApprovalsInv(d)
    ensures ApprovalsInv(RequestApproval(d, id))
    ensures ApprovalsGrow(d.approvals, RequestApproval(d, id).approvals)
  {
    hide PayloadHashFor;
    FoundHasId(d.actions, id);
  }

  lemma ReadActionKeepsApprovals(d: Desk, id: string)
    requires ApprovalsInv(d)
    ensures ApprovalsInv(ReadAction(d, id))
    ensures ApprovalsGrow(d.approvals, ReadAction(d, id).approvals)
  {
    hide PayloadHashFor;
    if id in d.deciding && d.deciding[id].HasSession? {
      FoundHasId(d.actions, d.deciding[id].record.actionId);
    }
  }

  lemma ReadStepsKeepApprovals(d: Desk, runs: map<nat, Run>, step: DeskStep)
    requires ApprovalsInv(d)
    requires step.DoOpenSession? || step.DoProposeAction? || step.DoPolicyEnds?
          || step.DoBeginDecision? || step.DoReadApproval? || step.DoReadSession?
    ensures ApprovalsInv(DeskNext(d, runs, step))
    ensures ApprovalsGrow(d.approvals, DeskNext(d, runs, step).approvals)
  {
    hide PayloadHashFor, Upserted, WasGranted;
  }

  lemma ClosingStepsKeepApprovals(d: Desk, runs: map<nat, Run>, step: DeskStep)
    requires ApprovalsInv(d)
    requires step.DoDegrade? || step.DoConclude? || step.DoConcludeRace? || step.DoFailDecision?
          || step.DoCloseSession? || step.DoAbandonDecision?
    ensures ApprovalsInv(DeskNext(d, runs, step))
    ensures ApprovalsGrow(d.approvals, DeskNext(d, runs, step).approvals)
  {
    hide PayloadHashFor, WasGranted;
  }

  lemma DeskKeepsApprovals(d: Desk, runs: map<nat, Run>, step: DeskStep)
    requires ApprovalsInv(d)
    ensures ApprovalsInv(DeskNext(d, runs, step))
    ensures ApprovalsGrow(d.approvals, DeskNext(d, runs, step).approvals)
  {
    hide ApprovalsInv, ApprovalsGrow;
    match step
    case DoSaveDecision(id, w) => SaveDecisionKeepsApprovals(d, id, w);
    case DoRequestApproval(id) => RequestApprovalKeepsApprovals(d, id);
    case DoReadAction(id) => ReadActionKeepsApprovals(d, id);
    case _ =>
      if step.DoOpenSession? || step.DoProposeAction? || step.DoPolicyEnds? || step.DoBeginDecision? || step.DoReadApproval? || step.DoReadSession? {
        ReadStepsKeepApprovals(d, runs, step);
      } else {
        ClosingStepsKeepApprovals(d, runs, step);
      }
  }

  lemma LaunchKeepsApprovals(d: Desk, id: string, r: nat, race: bool)
    requires ApprovalsInv(d) && id in d.deciding && (d.deciding[id].Granted? || d.deciding[id].Racing?)
    ensures ApprovalsInv(Launched(d, id, r, race)) && Launched(d, id, r, race).approvals == d.approvals
  {
    hide PayloadHashFor, WasGranted;
  }

  lemma ReconcileKeepsApprovals(d: Desk, receipts: map<Key, nat>, session: string)
    requires ApprovalsInv(d)
    ensures ApprovalsInv(ReconcileSession(d, receipts, session)) && ReconcileSession(d, receipts, session).approvals == d.approvals
    ensures ApprovalsInv(ReconcileAll(d, receipts)) && ReconcileAll(d, receipts).approvals == d.approvals
    ensures ApprovalsInv(d.(deciding := map[]))
  {
    hide PayloadHashFor, WasGranted, Reconciled, Completes;
  }

  // ---------- what runs and attempts may rely on ----------

  /** The stored approval for the action is approved, for exactly the content the action now has. */
  ghost predicate IsApproved(approvals: map<string, A.ApprovalRecord>, a: ApprovedAction) {
    && a.action.id in approvals && approvals[a.action.id].status == A.Approved
    && approvals[a.action.id].payloadHash == a.payloadHash
    && PayloadHashFor(a.action.content) == Success(a.payloadHash)
  }

  /** No idempotency key was supplied, or the right one. */
  predicate IsKeyed(a: ApprovedAction) {
    a.supplied.None? || a.supplied.value == KeyOf(a)
  }

  /** Protected actions are approved and their key is the derived one. */
  ghost predicate IsCleared(approvals: map<string, A.ApprovalRecord>, a: ApprovedAction) {
    IsKeyed(a) && (a.action.content.kind == SEND_EMAIL ==> IsApproved(approvals, a))
  }

  ghost predicate RunInv(approvals: map<string, A.ApprovalRecord>, run: Run) {
    && (run.phase.Verifying? ==> IsKeyed(run.action))
    && (run.phase.Claiming? || run.phase.Lost? || Active(run.phase) ==> IsCleared(approvals, run.action))
    && (run.phase.Returned? && !run.phase.outcome.terminal ==> IsCleared(approvals, run.action))
  }

  ghost predicate AttemptInv(approvals: map<string, A.ApprovalRecord>, a: Attempt) {
    && IsCleared(approvals, a.action)
    && (a.stage.Delivering? || a.stage.Saving? ==> IsValid(a.action) && a.stage.key == KeyOf(a.action))
    && (a.stage.Done? && a.stage.result.Success? ==> IsValid(a.action))
  }

  ghost predicate AcceptedInv(approvals: map<string, A.ApprovalRecord>, e: Accepted) {
    && IsApproved(approvals, e.action) && IsValid(e.action)
    && e.request.sessionId == e.action.action.sessionId && e.request.actionId == e.action.action.id
    && ParseEmail(e.action.action.content.payload) == Some(e.request.email)
  }

  ghost predicate BindingInv(x: Execution, approvals: map<string, A.ApprovalRecord>) {
    && (forall r :: r in x.runs ==> RunInv(approvals, x.runs[r]))
    && (forall id :: id in x.attempts ==> AttemptInv(approvals, x.attempts[id]))
    && (forall i :: 0 <= i < |x.accepted| ==> AcceptedInv(approvals, x.accepted[i]))
  }

  lemma VerifiedIsCleared(approvals: map<string, A.ApprovalRecord>, a: ApprovedAction)
    requires IsKeyed(a)
    ensures Verified(approvals, a).Claiming? ==> IsCleared(approvals, a)
    ensures Verified(approvals, a).Claiming? || Verified(approvals, a).Threw?
         || (Verified(approvals, a).Returned? && Verified(approvals, a).outcome.terminal)
  {
  }

  lemma AdmittedIsCleared(approvals: map<string, A.ApprovalRecord>, a: ApprovedAction, decision: Decision)
    ensures RunInv(approvals, Run(a, decision, Admitted(a, decision)))
  {
  }

  lemma VerifyKeepsBinding(x: Execution, approvals: map<string, A.ApprovalRecord>, r: nat)
    requires BindingInv(x, approvals)
    ensures BindingInv(VerifyRun(x, approvals, r), approvals)
  {
    if r in x.runs && x.runs[r].phase == Verifying {
      VerifiedIsCleared(approvals, x.runs[r].action);
    }
    hide Verified, IsCleared, AttemptInv, AcceptedInv, PayloadHashFor;
  }

  lemma StartKeepsBinding(x: Execution, approvals: map<string, A.ApprovalRecord>, r: nat, a: ApprovedAction, decision: Decision)
    requires BindingInv(x, approvals)
    ensures BindingInv(StartRun(x, r, a, decision), approvals)
  {
    AdmittedIsCleared(approvals, a, decision);
    hide Admitted, RunInv, AttemptInv, AcceptedInv;
  }

  lemma RunStepsKeepBinding(x: Execution, approvals: map<string, A.ApprovalRecord>, step: ExecutionStep)
    requires BindingInv(x, approvals)
    requires step.DoClaim? || step.DoReadExisting? || step.DoBeginAttempt? || step.DoSettle? || step.DoTimeOut? || step.DoRecord?
    ensures BindingInv(ExecutionNext(x, approvals, step), approvals)
  {
    hide IsCleared, AcceptedInv, IsValid, Existing, FinalRecord;
  }

  lemma LookKeepsBinding(x: Execution, approvals: map<string, A.ApprovalRecord>, id: nat)
    requires BindingInv(x, approvals)
    ensures BindingInv(Look(x, id), approvals)
  {
    hide RunInv, AcceptedInv, IsApproved, PayloadHashFor, IsComplete;
  }

  lemma SaveReceiptKeepsBinding(x: Execution, approvals: map<string, A.ApprovalRecord>, id: nat, writes: bool)
    requires BindingInv(x, approvals)
    ensures BindingInv(SaveReceipt(x, id, writes), approvals)
  {
    hide RunInv, AcceptedInv, IsCleared, IsValid;
  }

  lemma TransmitKeepsBinding(x: Execution, approvals: map<string, A.ApprovalRecord>, id: nat, authorized: bool, request: EmailRequest)
    requires BindingInv(x, approvals) && id in x.attempts && x.attempts[id].stage.Delivering?
    requires var a := x.attempts[id].action.action;
      request.sessionId == a.sessionId && request.actionId == a.id && ParseEmail(a.content.payload) == Some(request.email)
    ensures BindingInv(Transmit(x, id, authorized, request), approvals)
  {
    hide RunInv, PayloadHashFor, ParseEmail, IsComplete, Accepts;
    var e := Accepted(x.attempts[id].action, request, x.service.counter + 1);
    assert AcceptedInv(approvals, e);
    hide AcceptedInv, Sent;
  }

  lemma DeliverKeepsBinding(x: Execution, approvals: map<string, A.ApprovalRecord>, id: nat, authorized: bool)
    requires BindingInv(x, approvals)
    ensures BindingInv(Deliver(x, id, authorized), approvals)
  {
    if id in x.attempts && x.attempts[id].stage.Delivering? {
      var a := x.attempts[id].action;
      var email := ParseEmail(a.action.content.payload);
      hide ParseEmail, Transmit, RunInv, AcceptedInv, IsCleared, IsValid;
      if email.Some? {
        TransmitKeepsBinding(x, approvals, id, authorized, EmailRequest(a.action.sessionId, a.action.id, email.value));
      }
    }
  }

  lemma ExecutionKeepsBinding(x: Execution, approvals: map<string, A.ApprovalRecord>, step: ExecutionStep)
    requires BindingInv(x, approvals)
    ensures BindingInv(ExecutionNext(x, approvals, step), approvals)
  {
    match step
    case DoVerify(r) => VerifyKeepsBinding(x, approvals, r);
    case DoLook(id) => LookKeepsBinding(x, approvals, id);
    case DoDeliver(id) => DeliverKeepsBinding(x, approvals, id, x.authorized);
    case DoSaveReceipt(id, w) => SaveReceiptKeepsBinding(x, approvals, id, w);
    case DoInjectFaults(t, e) => hide RunInv, AttemptInv, AcceptedInv;
    case _ =>
      hide BindingInv;
      RunStepsKeepBinding(x, approvals, step);
  }

  lemma GrowthKeepsBinding(x: Execution, approvals: map<string, A.ApprovalRecord>, grown: map<string, A.ApprovalRecord>)
    requires BindingInv(x, approvals) && ApprovalsGrow(approvals, grown)
    ensures BindingInv(x, grown)
  {
    hide PayloadHashFor, IsValid, ParseEmail;
  }

  lemma RestartKeepsBinding(x: Execution, approvals: map<string, A.ApprovalRecord>, authorized: bool)
    requires BindingInv(x, approvals)
    ensures BindingInv(CrashedExecution(x), approvals) && BindingInv(LoadedExecution(x, authorized), approvals)
  {
    hide RunInv, AttemptInv, AcceptedInv;
  }

  // ---------- results ----------

  /** The outside world accepted an email for the key, under this message id. */
  ghost predicate Backed(accepted: seq<Accepted>, key: Key, messageId: nat) {
    exists i :: 0 <= i < |accepted| && KeyOf(accepted[i].action) == key && accepted[i].messageId == messageId
  }

  /** A receipt that says so. */
  predicate Receipted(receipts: map<Key, nat>, key: Key, messageId: nat) {
    key in receipts && receipts[key] == messageId
  }

  /** This process's service holds the receipt for the key's action. */
  predicate Served(served: map<DedupeKey, nat>, key: Key, messageId: nat) {
    DedupeOf(key) in served && served[DedupeOf(key)] == messageId
  }

  ghost predicate ServiceIsBacked(accepted: seq<Accepted>, served: map<DedupeKey, nat>) {
    forall dk :: dk in served ==>
      exists i :: 0 <= i < |accepted| && DedupeOf(KeyOf(accepted[i].action)) == dk && accepted[i].messageId == served[dk]
  }

  ghost predicate ReceiptsAreBacked(x: Execution) {
    && (forall key :: key in x.receipts ==> key in x.ledger && Backed(x.accepted, key, x.receipts[key]))
    && (forall key :: key in x.receipts && key in x.owner ==> Served(x.service.receipts, key, x.receipts[key]))
  }

  predicate StageResult(receipts: map<Key, nat>, served: map<DedupeKey, nat>, a: Attempt) {
    match a.stage
    case Saving(key, messageId) => Served(served, key, messageId)
    case Done(Success(messageId)) => Receipted(receipts, KeyOf(a.action), messageId)
    case _ => true
  }

  predicate PhaseResult(receipts: map<Key, nat>, run: Run) {
    match run.phase
    case Recording(outcome) =>
      && (outcome.terminal <==> outcome.result.Undelivered?) && !outcome.result.InProgress?
      && (outcome.result.Delivered? ==> Receipted(receipts, KeyOf(run.action), outcome.result.messageId))
    case Returned(outcome) =>
      !outcome.terminal && outcome.result.Delivered? ==> Receipted(receipts, KeyOf(run.action), outcome.result.messageId)
    case _ => true
  }

  predicate RecordResult(receipts: map<Key, nat>, key: Key, record: ExecutionRecord) {
    && record.key == key && record.status != ExecutionLedger.Pending
    && (record.status == Failed ==> record.result.Some? && record.result.value.Undelivered?)
    && (record.status == Succeeded ==>
          record.result.Some? && record.result.value.Delivered? && Receipted(receipts, key, record.result.value.messageId))
  }

  ghost predicate ResultsInv(x: Execution) {
    && ServiceIsBacked(x.accepted, x.service.receipts) && ReceiptsAreBacked(x)
    && (forall id :: id in x.attempts ==> StageResult(x.receipts, x.service.receipts, x.attempts[id]))
    && (forall r :: r in x.runs ==> PhaseResult(x.receipts, x.runs[r]))
    && (forall key :: key in x.ledger ==> RecordResult(x.receipts, key, x.ledger[key]))
  }

  /** All accepted emails for one action carry the approved hash, so they share one key. */
  lemma SameActionSameKey(approvals: map<string, A.ApprovalRecord>, a: ApprovedAction, b: ApprovedAction)
    requires IsApproved(approvals, a) && IsApproved(approvals, b)
    requires DedupeOf(KeyOf(a)) == DedupeOf(KeyOf(b))
    ensures KeyOf(a) == KeyOf(b)
  {
  }

  lemma BackingGrows(accepted: seq<Accepted>, e: Accepted, key: Key, messageId: nat)
    ensures Backed(accepted, key, messageId) ==> Backed(accepted + [e], key, messageId)
  {
    if Backed(accepted, key, messageId) {
      var i :| 0 <= i < |accepted| && KeyOf(accepted[i].action) == key && accepted[i].messageId == messageId;
      assert (accepted + [e])[i] == accepted[i];
    }
  }

  lemma ClaimKeepsResults(x: Execution, r: nat, writes: bool)
    requires ClaimsInv(x) && ResultsInv(x)
    ensures ResultsInv(ClaimKey(x, r, writes))
  {
    hide HasWin, Backed, StageResult, ServiceIsBacked;
  }

  lemma VerifyKeepsResults(x: Execution, approvals: map<string, A.ApprovalRecord>, r: nat)
    requires ResultsInv(x)
    ensures ResultsInv(VerifyRun(x, approvals, r))
  {
    if r in x.runs {
      VerifiedIsClearedOrOver(approvals, x.runs[r].action);
    }
    hide ReceiptsAreBacked, PayloadHashFor, ServiceIsBacked, StageResult, Verified, RecordResult;
  }

  lemma ReadKeepsResults(x: Execution, r: nat)
    requires ResultsInv(x)
    ensures ResultsInv(ReadExisting(x, r))
  {
    hide Backed, ServiceIsBacked, StageResult;
    if r in x.runs {
      var key := KeyOf(x.runs[r].action);
      assert key in x.ledger ==> RecordResult(x.receipts, key, x.ledger[key]);
    }
  }

  lemma BeginKeepsResults(x: Execution, r: nat, id: nat)
    requires ResultsInv(x)
    ensures ResultsInv(BeginAttempt(x, r, id))
  {
    hide Backed, ServiceIsBacked, RecordResult;
  }

  lemma PhaseStepsKeepResults(x: Execution, approvals: map<string, A.ApprovalRecord>, step: ExecutionStep)
    requires ResultsInv(x)
    requires step.DoVerify? || step.DoReadExisting? || step.DoBeginAttempt?
    ensures ResultsInv(ExecutionNext(x, approvals, step))
  {
    hide ResultsInv, VerifyRun, ReadExisting, BeginAttempt;
    match step
    case DoVerify(r) => VerifyKeepsResults(x, approvals, r);
    case DoReadExisting(r) => ReadKeepsResults(x, r);
    case DoBeginAttempt(r, id) => BeginKeepsResults(x, r, id);
  }

  lemma VerifiedIsClearedOrOver(approvals: map<string, A.ApprovalRecord>, a: ApprovedAction)
    ensures var phase := Verified(approvals, a);
      phase.Claiming? || phase.Threw? || (phase.Returned? && phase.outcome.terminal)
  {
    hide PayloadHashFor;
  }

  lemma SettleKeepsResults(x: Execution, r: nat)
    requires ClaimsInv(x) && ResultsInv(x)
    ensures ResultsInv(SettleAttempt(x, r))
  {
    hide HasWin, Backed, ServiceIsBacked, Served, RecordResult;
  }

  lemma TimeOutKeepsResults(x: Execution, r: nat)
    requires ResultsInv(x)
    ensures ResultsInv(TimeOut(x, r))
  {
    hide HasWin, Backed, ServiceIsBacked, Served, RecordResult, StageResult;
  }

  lemma RecordKeepsResults(x: Execution, r: nat, writes: bool)
    requires ClaimsInv(x) && ResultsInv(x)
    ensures ResultsInv(RecordOutcome(x, r, writes))
  {
    hide HasWin, Backed, ServiceIsBacked, StageResult;
  }

  lemma LookKeepsResults(x: Execution, approvals: map<string, A.ApprovalRecord>, id: nat)
    requires BindingInv(x, approvals) && ResultsInv(x)
    ensures ResultsInv(Look(x, id))
  {
    if id in x.attempts && x.attempts[id].stage == Looking {
      var a := x.attempts[id].action;
      assert AttemptInv(approvals, x.attempts[id]);
      hide IsApproved, IsComplete, PayloadHashFor;
      RestagingKeepsResults(x, id, StageAfterLook(x.receipts, a));
    }
    hide BindingInv, ResultsInv, StageAfterLook;
  }

  ghost predicate ReceiptsGrow(receipts: map<Key, nat>, grown: map<Key, nat>) {
    forall key :: key in receipts ==> Receipted(grown, key, receipts[key])
  }

  lemma ResultsGrow(receipts: map<Key, nat>, grown: map<Key, nat>)
    requires ReceiptsGrow(receipts, grown)
    ensures forall run :: PhaseResult(receipts, run) ==> PhaseResult(grown, run)
    ensures forall key, record :: RecordResult(receipts, key, record) ==> RecordResult(grown, key, record)
    ensures forall served, a :: StageResult(receipts, served, a) ==> StageResult(grown, served, a)
  {
  }

  /** Storing a receipt never changes one: what is stored for a key of this process is what the service served. */
  lemma SaveReceiptKeepsResults(x: Execution, approvals: map<string, A.ApprovalRecord>, id: nat, writes: bool)
    requires ClaimsInv(x) && BindingInv(x, approvals) && ResultsInv(x)
    ensures ResultsInv(SaveReceipt(x, id, writes))
    ensures ReceiptsGrow(x.receipts, SaveReceipt(x, id, writes).receipts)
  {
    if id in x.attempts && x.attempts[id].stage.Saving? {
      SavedReceiptIsBacked(x, approvals, id);
      StoredReceiptKeepsResults(x, id, writes);
    }
  }

  lemma StoredReceiptKeepsResults(x: Execution, id: nat, writes: bool)
    requires ResultsInv(x) && id in x.attempts && x.attempts[id].stage.Saving?
    requires var Saving(key, messageId) := x.attempts[id].stage;
      key == KeyOf(x.attempts[id].action) && key in x.owner && key in x.ledger && Backed(x.accepted, key, messageId)
    ensures ResultsInv(SaveReceipt(x, id, writes))
    ensures ReceiptsGrow(x.receipts, SaveReceipt(x, id, writes).receipts)
  {
    hide Backed, ServiceIsBacked;
    var t := SaveReceipt(x, id, writes);
    var Saving(key, messageId) := x.attempts[id].stage;
    assert StageResult(x.receipts, x.service.receipts, x.attempts[id]);
    assert ReceiptsGrow(x.receipts, t.receipts);
    ResultsGrow(x.receipts, t.receipts);
    assert StageResult(t.receipts, x.service.receipts, t.attempts[id]);
    hide PhaseResult, StageResult, RecordResult;
  }

  lemma SavedReceiptIsBacked(x: Execution, approvals: map<string, A.ApprovalRecord>, id: nat)
    requires ClaimsInv(x) && BindingInv(x, approvals) && ResultsInv(x)
    requires id in x.attempts && x.attempts[id].stage.Saving?
    ensures var Saving(key, messageId) := x.attempts[id].stage;
      key == KeyOf(x.attempts[id].action) && key in x.owner && key in x.ledger && Backed(x.accepted, key, messageId)
  {
    var a := x.attempts[id];
    var Saving(key, messageId) := a.stage;
    assert AttemptInv(approvals, a) && StageResult(x.receipts, x.service.receipts, a);
    hide PayloadHashFor, IsComplete, ParseEmail;
    assert IsApproved(approvals, a.action);
    var i :| 0 <= i < |x.accepted| && DedupeOf(KeyOf(x.accepted[i].action)) == DedupeOf(key) && x.accepted[i].messageId == messageId;
    assert AcceptedInv(approvals, x.accepted[i]);
    SameActionSameKey(approvals, a.action, x.accepted[i].action);
  }

  lemma ServiceResultsGrow(receipts: map<Key, nat>, served: map<DedupeKey, nat>, grown: map<DedupeKey, nat>)
    requires forall dk :: dk in served ==> dk in grown && grown[dk] == served[dk]
    ensures forall a :: StageResult(receipts, served, a) ==> StageResult(receipts, grown, a)
    ensures forall key, messageId :: Served(served, key, messageId) ==> Served(grown, key, messageId)
  {
  }

  lemma TransmitKeepsReceiptsBacked(x: Execution, id: nat, authorized: bool, request: EmailRequest)
    requires ReceiptsAreBacked(x) && id in x.attempts && x.attempts[id].stage.Delivering?
    ensures ReceiptsAreBacked(Transmit(x, id, authorized, request))
  {
    var e := Accepted(x.attempts[id].action, request, x.service.counter + 1);
    SentKeepsReceipts(x.service, authorized, request);
    forall key | key in x.receipts
      ensures Backed(x.accepted + [e], key, x.receipts[key])
    {
      BackingGrows(x.accepted, e, key, x.receipts[key]);
    }
    hide Sent, Accepts, Backed, StageAfterSend;
  }

  lemma TransmitKeepsStages(x: Execution, id: nat, authorized: bool, request: EmailRequest)
    requires id in x.attempts && x.attempts[id].stage.Delivering?
    requires forall i :: i in x.attempts ==> StageResult(x.receipts, x.service.receipts, x.attempts[i])
    requires DedupeKeyOf(request) == DedupeOf(KeyOf(x.attempts[id].action))
    requires x.attempts[id].stage.key == KeyOf(x.attempts[id].action)
    ensures var t := Transmit(x, id, authorized, request);
      forall i :: i in t.attempts ==> StageResult(t.receipts, t.service.receipts, t.attempts[i])
  {
    var (service, sent) := Sent(x.service, authorized, request);
    var key := x.attempts[id].stage.key;
    SentKeepsReceipts(x.service, authorized, request);
    hide Sent, Accepts;
    ServiceResultsGrow(x.receipts, x.service.receipts, service.receipts);
    assert StageResult(x.receipts, service.receipts, x.attempts[id].(stage := StageAfterSend(key, sent)));
    hide StageResult, StageAfterSend;
  }

  lemma TransmitKeepsResults(x: Execution, approvals: map<string, A.ApprovalRecord>, id: nat, authorized: bool, request: EmailRequest)
    requires BindingInv(x, approvals) && ResultsInv(x)
    requires id in x.attempts && x.attempts[id].stage.Delivering?
    requires DedupeKeyOf(request) == DedupeOf(KeyOf(x.attempts[id].action))
    ensures ResultsInv(Transmit(x, id, authorized, request))
    ensures ReceiptsGrow(x.receipts, Transmit(x, id, authorized, request).receipts)
  {
    assert AttemptInv(approvals, x.attempts[id]);
    TransmitKeepsStages(x, id, authorized, request);
    TransmitKeepsReceiptsBacked(x, id, authorized, request);
    ServiceStaysBacked(x.accepted, x.service, Accepted(x.attempts[id].action, request, x.service.counter + 1), authorized, request);
    TransmitFrame(x, id, authorized, request);
    hide Transmit, Sent, Accepts, BindingInv, ReceiptsAreBacked, ServiceIsBacked, StageResult, PhaseResult, RecordResult;
  }

  lemma TransmitFrame(x: Execution, id: nat, authorized: bool, request: EmailRequest)
    requires id in x.attempts && x.attempts[id].stage.Delivering?
    ensures var t := Transmit(x, id, authorized, request);
      && t.receipts == x.receipts && t.runs == x.runs && t.ledger == x.ledger
      && t.service == Sent(x.service, authorized, request).0
      && t.accepted == if Accepts(x.service, authorized, request)
                       then x.accepted + [Accepted(x.attempts[id].action, request, x.service.counter + 1)] else x.accepted
  {
    hide Sent, Accepts, StageAfterSend;
  }

  lemma ServiceStaysBacked(accepted: seq<Accepted>, service: Service, e: Accepted, authorized: bool, request: EmailRequest)
    requires ServiceIsBacked(accepted, service.receipts)
    requires DedupeKeyOf(request) == DedupeOf(KeyOf(e.action)) && e.messageId == service.counter + 1
    ensures ServiceIsBacked(if Accepts(service, authorized, request) then accepted + [e] else accepted,
                            Sent(service, authorized, request).0.receipts)
  {
    SentKeepsReceipts(service, authorized, request);
    var served := Sent(service, authorized, request).0.receipts;
    hide Sent, Accepts;
    var longer := accepted + [e];
    assert longer[|accepted|] == e;
    forall dk | dk in service.receipts
      ensures exists i :: 0 <= i < |longer| && DedupeOf(KeyOf(longer[i].action)) == dk && longer[i].messageId == service.receipts[dk]
    {
      var i :| 0 <= i < |accepted| && DedupeOf(KeyOf(accepted[i].action)) == dk && accepted[i].messageId == service.receipts[dk];
      assert longer[i] == accepted[i];
    }
  }

  lemma RestagingKeepsResults(x: Execution, id: nat, stage: Stage)
    requires ResultsInv(x) && id in x.attempts
    requires StageResult(x.receipts, x.service.receipts, x.attempts[id].(stage := stage))
    ensures ResultsInv(x.(attempts := Staged(x.attempts, id, stage)))
  {
    hide Served, Backed, ServiceIsBacked, StageResult, PhaseResult, RecordResult;
  }

  lemma DeliverKeepsResults(x: Execution, approvals: map<string, A.ApprovalRecord>, id: nat, authorized: bool)
    requires BindingInv(x, approvals) && ResultsInv(x)
    ensures ResultsInv(Deliver(x, id, authorized)) && ReceiptsGrow(x.receipts, Deliver(x, id, authorized).receipts)
  {
    if id in x.attempts && x.attempts[id].stage.Delivering? {
      var a := x.attempts[id].action;
      var email := ParseEmail(a.action.content.payload);
      if email.Some? {
        TransmitKeepsResults(x, approvals, id, authorized, EmailRequest(a.action.sessionId, a.action.id, email.value));
      } else {
        RestagingKeepsResults(x, id, Done(Failure(ValidationFailure)));
      }
    }
    hide ParseEmail, Transmit, BindingInv, ResultsInv;
  }

  lemma FaultsKeepResults(x: Execution, transient: nat, error: Option<SendError>)
    requires ResultsInv(x)
    ensures ResultsInv(InjectFaults(x, transient, error))
  {
    hide ServiceIsBacked, Backed, StageResult, PhaseResult, RecordResult;
  }

  lemma StartKeepsResults(x: Execution, r: nat, a: ApprovedAction, decision: Decision)
    requires ResultsInv(x)
    ensures ResultsInv(StartRun(x, r, a, decision))
  {
    hide ServiceIsBacked, Backed, Served, StageResult, RecordResult;
  }

  lemma RestartKeepsResults(x: Execution, authorized: bool)
    requires ResultsInv(x)
    ensures ResultsInv(CrashedExecution(x)) && ResultsInv(LoadedExecution(x, authorized))
  {
    hide Backed, Served, StageResult, PhaseResult;
  }

  lemma ExecutionKeepsResults(x: Execution, approvals: map<string, A.ApprovalRecord>, step: ExecutionStep)
    requires ClaimsInv(x) && BindingInv(x, approvals) && ResultsInv(x)
    ensures ResultsInv(ExecutionNext(x, approvals, step))
    ensures ReceiptsGrow(x.receipts, ExecutionNext(x, approvals, step).receipts)
  {
    hide ClaimsInv, BindingInv, ResultsInv;
    match step
    case DoClaim(r, w) => ClaimKeepsResults(x, r, w);
    case DoSettle(r) => SettleKeepsResults(x, r);
    case DoTimeOut(r) => TimeOutKeepsResults(x, r);
    case DoRecord(r, w) => RecordKeepsResults(x, r, w);
    case DoLook(id) => LookKeepsResults(x, approvals, id);
    case DoDeliver(id) => DeliverKeepsResults(x, approvals, id, x.authorized);
    case DoSaveReceipt(id, w) => SaveReceiptKeepsResults(x, approvals, id, w);
    case DoInjectFaults(t, e) => FaultsKeepResults(x, t, e);
    case _ => PhaseStepsKeepResults(x, approvals, step);
  }

  // ---------- sessions ----------

  /** What a decision call under way knows about its run, and about the receipt it closes on. */
  ghost predicate ClosingInv(x: Execution, stage: Deciding) {
    match stage
    case Granted(a) => a.supplied.Some?
    case Racing(a, _) => a.supplied.Some?
    case Waiting(a, r) => a.supplied.Some? && r in x.runs && x.runs[r].action == a
    case Closing(session, _, ByExecution(key)) => key.sessionId == session && key in x.receipts
    case Closing(_, _, ByReconciliation) => false
    case _ => true
  }

  /** A session that was completed, other than by a race, has a stored receipt. */
  ghost predicate CloseIsReceipted(x: Execution, c: Close) {
    c.how == ByRace || HasReceipt(x.receipts, c.session)
  }

  ghost predicate SessionsInv(x: Execution, d: Desk) {
    && (forall id :: id in d.deciding ==> ClosingInv(x, d.deciding[id]))
    && (forall id :: id in d.deciding && d.deciding[id].Closing? && d.deciding[id].status == Completed ==>
          d.deciding[id].how != ByFailure)
    && (forall c :: c in d.closed ==> CloseIsReceipted(x, c))
  }

  /** Work in flight keeps its action, and receipts are never lost. */
  ghost predicate Continues(x: Execution, t: Execution) {
    && (forall r :: r in x.runs ==> r in t.runs && t.runs[r].action == x.runs[r].action)
    && (forall key :: key in x.receipts ==> key in t.receipts)
  }

  predicate IsRunStep(step: ExecutionStep) {
    step.DoVerify? || step.DoClaim? || step.DoReadExisting? || step.DoBeginAttempt? || step.DoSettle? || step.DoTimeOut? || step.DoRecord?
  }

  lemma MovedContinues(x: Execution, r: nat, t: Execution)
    requires t.receipts == x.receipts
    requires t.runs == x.runs || (r in x.runs && r in t.runs && t.runs == Moved(x.runs, r, t.runs[r].phase))
    ensures Continues(x, t)
  {
  }

  lemma RunStepContinues(x: Execution, approvals: map<string, A.ApprovalRecord>, step: ExecutionStep)
    requires IsRunStep(step)
    ensures Continues(x, ExecutionNext(x, approvals, step))
  {
    hide PayloadHashFor, Verified, Existing, PhaseAfter, Claimed, FinalRecord, Continues;
    MovedContinues(x, step.run, ExecutionNext(x, approvals, step));
  }

  lemma AttemptStepContinues(x: Execution, approvals: map<string, A.ApprovalRecord>, step: ExecutionStep)
    requires !IsRunStep(step)
    ensures Continues(x, ExecutionNext(x, approvals, step))
  {
    hide PayloadHashFor, Sent, Accepts, ParseEmail, StageAfterLook, StageAfterSend, Staged;
  }

  lemma ExecutionContinues(x: Execution, approvals: map<string, A.ApprovalRecord>, step: ExecutionStep)
    ensures Continues(x, ExecutionNext(x, approvals, step))
  {
    hide ExecutionNext, Continues;
    if IsRunStep(step) { RunStepContinues(x, approvals, step); } else { AttemptStepContinues(x, approvals, step); }
  }

  lemma ContinuedKeepsSessions(x: Execution, t: Execution, d: Desk)
    requires SessionsInv(x, d) && Continues(x, t)
    ensures SessionsInv(t, d)
  {
    forall c | c in d.closed
      ensures CloseIsReceipted(t, c)
    {
      if c.how != ByRace {
        var key :| key in x.receipts && key.sessionId == c.session;
        assert key in t.receipts;
      }
    }
  }

  lemma ConcludeKeepsSessions(x: Execution, approvals: map<string, A.ApprovalRecord>, d: Desk, id: string)
    requires BindingInv(x, approvals) && ResultsInv(x) && SessionsInv(x, d)
    ensures SessionsInv(x, Conclude(d, x.runs, id))
  {
    hide CloseIsReceipted, IsApproved, AttemptInv, AcceptedInv, ReceiptsAreBacked, ServiceIsBacked, StageResult, RecordResult;
    if id in d.deciding && d.deciding[id].Waiting? {
      var r := d.deciding[id].run;
      assert ClosingInv(x, d.deciding[id]);
      assert RunInv(approvals, x.runs[r]) && PhaseResult(x.receipts, x.runs[r]);
    }
  }

  lemma CloseSessionKeepsSessions(x: Execution, d: Desk, id: string)
    requires SessionsInv(x, d)
    ensures SessionsInv(x, CloseSession(d, id))
  {
  }

  lemma QuietStepsKeepSessions(x: Execution, d: Desk, step: DeskStep)
    requires SessionsInv(x, d)
    requires step.DoOpenSession? || step.DoProposeAction? || step.DoRequestApproval? || step.DoPolicyEnds?
          || step.DoBeginDecision? || step.DoReadApproval? || step.DoReadSession? || step.DoReadAction?
    ensures SessionsInv(x, DeskNext(d, x.runs, step))
  {
    hide CloseIsReceipted, PayloadHashFor, Upserted;
  }

  lemma BusyStepsKeepSessions(x: Execution, d: Desk, step: DeskStep)
    requires SessionsInv(x, d)
    requires step.DoSaveDecision? || step.DoDegrade? || step.DoConcludeRace? || step.DoFailDecision? || step.DoAbandonDecision?
    ensures SessionsInv(x, DeskNext(d, x.runs, step))
  {
    hide CloseIsReceipted;
  }

  lemma DeskKeepsSessions(x: Execution, d: Desk, step: DeskStep)
    requires BindingInv(x, d.approvals) && ResultsInv(x) && SessionsInv(x, d)
    ensures SessionsInv(x, DeskNext(d, x.runs, step))
  {
    hide BindingInv, ResultsInv, SessionsInv;
    if step.DoConclude? {
      ConcludeKeepsSessions(x, d.approvals, d, step.id);
    } else if step.DoCloseSession? {
      CloseSessionKeepsSessions(x, d, step.id);
    } else if step.DoSaveDecision? || step.DoDegrade? || step.DoConcludeRace? || step.DoFailDecision? || step.DoAbandonDecision? {
      BusyStepsKeepSessions(x, d, step);
    } else {
      QuietStepsKeepSessions(x, d, step);
    }
  }

  lemma LaunchKeepsSessions(x: Execution, d: Desk, id: string, r: nat, race: bool)
    requires SessionsInv(x, d) && MayLaunch(d, x.runs, id, r, race)
    ensures SessionsInv(StartRun(x, r, d.deciding[id].action, RequireApproval), Launched(d, id, r, race))
  {
    var t := StartRun(x, r, d.deciding[id].action, RequireApproval);
    hide Admitted;
    assert Continues(x, t);
    ContinuedKeepsSessions(x, t, d);
    hide CloseIsReceipted, Continues;
  }

  lemma ReconcileKeepsSessions(x: Execution, d: Desk, session: string)
    requires SessionsInv(x, d)
    ensures SessionsInv(x, ReconcileSession(d, x.receipts, session))
    ensures SessionsInv(x, ReconcileAll(d, x.receipts))
  {
  }
}
