/** What holds of every run of the protocol, whatever its interleaving, timeouts, I/O errors and crashes. */
module ProtocolTheorems {
  import opened Wrappers
  import opened CanonicalJson
  import opened JsonRoundTrip
  import opened Actions
  import opened EmailService
  import opened ExecutionLedger
  import opened Recovery
  import opened Protocol
  import opened ProtocolInvariants
  import A = ApprovalService

  ghost predicate Inv(s: State) {
    && (!s.up ==> s.exec.runs == map[] && s.exec.attempts == map[] && s.exec.owner == map[] && s.desk.deciding == map[])
    && ClaimsInv(s.exec) && ApprovalsInv(s.desk) && BindingInv(s.exec, s.desk.approvals)
    && ResultsInv(s.exec) && SessionsInv(s.exec, s.desk)
  }

  lemma LoadKeepsSessions(x: Execution, authorized: bool, d: Desk)
    requires SessionsInv(x, d)
    ensures SessionsInv(LoadedExecution(x, authorized), d)
  {
    assert Continues(x, LoadedExecution(x, authorized));
    ContinuedKeepsSessions(x, LoadedExecution(x, authorized), d);
  }

  lemma DownKeepsInv(s: State, step: Step)
    requires Inv(s) && !s.up
    ensures Inv(Next(s, step))
  {
    hide ClaimsInv, ApprovalsInv, BindingInv, ResultsInv, SessionsInv, Reclaimed, Reconciled, Completes;
    var authorized := if step.Restarts? then step.authorized else s.exec.authorized;
    RestartKeepsClaims(s.exec, authorized);
    RestartKeepsBinding(s.exec, s.desk.approvals, authorized);
    RestartKeepsResults(s.exec, authorized);
    LoadKeepsSessions(s.exec, authorized, s.desk);
    if step.Reconciles? || step.Restarts? {
      var session := if step.Reconciles? then step.session else "";
      ReconcileKeepsApprovals(s.desk, s.exec.receipts, session);
      ReconcileKeepsSessions(s.exec, s.desk, session);
    }
    if step.Restarts? {
      LoadKeepsSessions(s.exec, authorized, ReconcileAll(s.desk, s.exec.receipts));
    }
  }

  lemma CrashKeepsSessions(x: Execution, d: Desk)
    requires SessionsInv(x, d)
    ensures SessionsInv(CrashedExecution(x), d.(deciding := map[]))
  {
    hide ClosingInv;
  }

  lemma CrashKeepsInv(s: State)
    requires Inv(s) && s.up
    ensures Inv(Next(s, Crashes))
  {
    hide ClaimsInv, ApprovalsInv, BindingInv, ResultsInv, SessionsInv;
    RestartKeepsClaims(s.exec, s.exec.authorized);
    RestartKeepsBinding(s.exec, s.desk.approvals, s.exec.authorized);
    RestartKeepsResults(s.exec, s.exec.authorized);
    ReconcileKeepsApprovals(s.desk, s.exec.receipts, "");
    CrashKeepsSessions(s.exec, s.desk);
  }

  lemma HandlingKeepsInv(s: State, step: DeskStep)
    requires Inv(s) && s.up
    ensures Inv(Next(s, Handles(step)))
  {
    DeskKeepsApprovals(s.desk, s.exec.runs, step);
    GrowthKeepsBinding(s.exec, s.desk.approvals, DeskNext(s.desk, s.exec.runs, step).approvals);
    DeskKeepsSessions(s.exec, s.desk, step);
    hide ClaimsInv, ApprovalsInv, BindingInv, ResultsInv, SessionsInv, DeskNext;
  }

  lemma ExecutingKeepsInv(s: State, step: ExecutionStep)
    requires Inv(s) && s.up
    ensures Inv(Next(s, Executes(step)))
  {
    ExecutionKeepsClaims(s.exec, s.desk.approvals, step);
    ExecutionKeepsBinding(s.exec, s.desk.approvals, step);
    ExecutionKeepsResults(s.exec, s.desk.approvals, step);
    ExecutionContinues(s.exec, s.desk.approvals, step);
    ContinuedKeepsSessions(s.exec, ExecutionNext(s.exec, s.desk.approvals, step), s.desk);
    hide ClaimsInv, ApprovalsInv, BindingInv, ResultsInv, SessionsInv, ExecutionNext;
  }

  lemma CallingKeepsInv(s: State, r: nat, a: ApprovedAction, decision: Decision)
    requires Inv(s) && s.up
    ensures Inv(Next(s, Calls(r, a, decision)))
  {
    StartKeepsClaims(s.exec, r, a, decision);
    StartKeepsBinding(s.exec, s.desk.approvals, r, a, decision);
    StartKeepsResults(s.exec, r, a, decision);
    assert Continues(s.exec, StartRun(s.exec, r, a, decision));
    ContinuedKeepsSessions(s.exec, StartRun(s.exec, r, a, decision), s.desk);
    hide ClaimsInv, ApprovalsInv, BindingInv, ResultsInv, SessionsInv, StartRun;
  }

  lemma LaunchingKeepsInv(s: State, id: string, r: nat, race: bool)
    requires Inv(s) && s.up
    ensures Inv(Next(s, Launches(id, r, race)))
  {
    if MayLaunch(s.desk, s.exec.runs, id, r, race) {
      var a := s.desk.deciding[id].action;
      StartKeepsClaims(s.exec, r, a, RequireApproval);
      StartKeepsBinding(s.exec, s.desk.approvals, r, a, RequireApproval);
      StartKeepsResults(s.exec, r, a, RequireApproval);
      LaunchKeepsApprovals(s.desk, id, r, race);
      LaunchKeepsSessions(s.exec, s.desk, id, r, race);
    }
    hide ClaimsInv, ApprovalsInv, BindingInv, ResultsInv, SessionsInv, StartRun, Launched;
  }

  lemma {:induction false} NextKeepsInv(s: State, step: Step)
    requires Inv(s)
    ensures Inv(Next(s, step))
  {
    hide Inv;
    if !s.up {
      DownKeepsInv(s, step);
    } else {
      match step
      case Executes(x) => ExecutingKeepsInv(s, x);
      case Handles(d) => HandlingKeepsInv(s, d);
      case Calls(r, a, decision) => CallingKeepsInv(s, r, a, decision);
      case Launches(id, r, race) => LaunchingKeepsInv(s, id, r, race);
      case Crashes => CrashKeepsInv(s);
      case _ =>
    }
  }

  lemma InitiallyInv(maxAttempts: nat, authorized: bool)
    ensures Inv(Initial(maxAttempts, authorized))
  {
  }

  lemma {:induction false} AfterKeepsInv(s: State, steps: seq<Step>)
    requires Inv(s)
    ensures Inv(After(s, steps))
  {
    if steps != [] {
      AfterKeepsInv(s, steps[..|steps| - 1]);
      NextKeepsInv(After(s, steps[..|steps| - 1]), steps[|steps| - 1]);
    }
  }

  lemma ReachableInv(s: State)
    requires Reachable(s)
    ensures Inv(s)
  {
    hide Inv, After;
    var maxAttempts: nat, authorized: bool, steps: seq<Step> :| After(Initial(maxAttempts, authorized), steps) == s;
    InitiallyInv(maxAttempts, authorized);
    AfterKeepsInv(Initial(maxAttempts, authorized), steps);
  }

  lemma {:induction false} AfterAppend(s: State, first: seq<Step>, rest: seq<Step>)
    ensures After(After(s, first), rest) == After(s, first + rest)
  {
    hide Next;
    if rest == [] {
      assert first + rest == first;
    } else {
      assert (first + rest)[..|first + rest| - 1] == first + rest[..|rest| - 1];
      AfterAppend(s, first, rest[..|rest| - 1]);
    }
  }

  lemma ReachableGoesOn(s: State, steps: seq<Step>)
    requires Reachable(s)
    ensures Reachable(After(s, steps))
  {
    hide After;
    var maxAttempts: nat, authorized: bool, first: seq<Step> :| After(Initial(maxAttempts, authorized), first) == s;
    AfterAppend(Initial(maxAttempts, authorized), first, steps);
  }

  // ---------- at most one email, exactly one winner ----------

  /** Exactly one entry of the log is an email accepted for the key. */
  ghost predicate AcceptedExactlyOnce(accepted: seq<Accepted>, key: Key) {
    exists i :: 0 <= i < |accepted| && KeyOf(accepted[i].action) == key
      && forall j :: 0 <= j < |accepted| && KeyOf(accepted[j].action) == key ==> j == i
  }

  ghost predicate WonExactlyOnce(wins: seq<Win>, key: Key) {
    exists i :: 0 <= i < |wins| && wins[i].key == key
      && forall j :: 0 <= j < |wins| && wins[j].key == key ==> j == i
  }

  /**
   * In every reachable state the outside world has accepted at most one email per key; each key in the
   * ledger was won by exactly one caller, and no other key by any.
   */
  lemma AtMostOnePerKey(s: State)
    requires Reachable(s)
    ensures forall i, j :: 0 <= i < j < |s.exec.accepted| ==> KeyOf(s.exec.accepted[i].action) != KeyOf(s.exec.accepted[j].action)
    ensures forall i :: 0 <= i < |s.exec.accepted| ==> KeyOf(s.exec.accepted[i].action) in s.exec.ledger
    ensures forall key :: key in s.exec.ledger <==> WonExactlyOnce(s.exec.wins, key)
  {
    ReachableInv(s);
    hide Reachable, ApprovalsInv, BindingInv, ResultsInv, SessionsInv, RunsHoldClaims, AttemptsBelong, RunsAwaitTheirOwn;
    forall key
      ensures key in s.exec.ledger <==> WonExactlyOnce(s.exec.wins, key)
    {
      LedgerKeysAreWon(s.exec, key);
    }
    hide WinsAreDistinct, WonExactlyOnce;
  }

  lemma LedgerKeysAreWon(x: Execution, key: Key)
    requires WinsAreDistinct(x)
    ensures key in x.ledger <==> WonExactlyOnce(x.wins, key)
  {
    if key in x.ledger {
      assert HasWin(x.wins, key);
      var i :| 0 <= i < |x.wins| && x.wins[i].key == key;
    }
  }

  /** Even across keys: for one action of one session at most one email is ever accepted. */
  lemma AtMostOnePerAction(s: State)
    requires Reachable(s)
    ensures forall i, j :: 0 <= i < j < |s.exec.accepted| ==>
      DedupeOf(KeyOf(s.exec.accepted[i].action)) != DedupeOf(KeyOf(s.exec.accepted[j].action))
  {
    ReachableInv(s);
    var accepted := s.exec.accepted;
    hide Reachable, ApprovalsInv, ResultsInv, SessionsInv, IsApproved, IsValid, ParseEmail, RunInv, AttemptInv;
    forall i, j | 0 <= i < j < |accepted|
      ensures DedupeOf(KeyOf(accepted[i].action)) != DedupeOf(KeyOf(accepted[j].action))
    {
      assert AcceptedInv(s.desk.approvals, accepted[i]) && AcceptedInv(s.desk.approvals, accepted[j]);
      if DedupeOf(KeyOf(accepted[i].action)) == DedupeOf(KeyOf(accepted[j].action)) {
        SameActionSameKey(s.desk.approvals, accepted[i].action, accepted[j].action);
      }
    }
  }

  // ---------- every email was approved ----------

  /** The accepted request carries, up to key order, the payload of an action that was granted under its id. */
  ghost predicate WasApproved(granted: seq<ProposedAction>, e: Accepted) {
    exists i :: 0 <= i < |granted|
      && granted[i].id == e.request.actionId
      && SameContent(granted[i].content, e.action.action.content)
      && granted[i].content.kind == SEND_EMAIL
      && Same(granted[i].content.payload, EmailPayload(e.request.email))
  }

  lemma SamePayloadTransfers(a: Value, b: Value, e: Email)
    requires Same(a, b) && ParseEmail(b) == Some(e) && CanonicalText(b).Success?
    ensures Same(a, EmailPayload(e))
  {
    ParsedPayloadIsSame(b);
    hide ParseEmail;
    EmailPayloadIsWellFormed(e);
    SameValueSameText(a, b);
    SameValueSameText(b, EmailPayload(e));
    WrittenExactlyWhenSerializable(a);
    CanonicalTextInjective(a, EmailPayload(e));
  }

  lemma EmailPayloadIsWellFormed(e: Email)
    ensures WellFormed(EmailPayload(e))
  {
    assert RECIPIENT[0] != SUBJECT[0] && RECIPIENT[0] != BODY[0] && SUBJECT[0] != BODY[0];
  }

  lemma HashedPayloadIsWritten(c: Content)
    requires PayloadHashFor(c).Success?
    ensures CanonicalText(c.payload).Success?
  {
    var whole := HashedObject(c);
    WrittenExactlyWhenSerializable(whole);
    assert whole.fields[2].value == c.payload && whole.fields[2] in whole.fields;
    hide CanonicalText;
    WrittenExactlyWhenSerializable(c.payload);
  }

  /** Whatever the service accepts was approved: by id, type, target and payload, across all three hash checks. */
  lemma EveryAcceptedEmailWasApproved(s: State)
    requires Reachable(s)
    ensures forall i :: 0 <= i < |s.exec.accepted| ==> WasApproved(s.desk.granted, s.exec.accepted[i])
  {
    ReachableInv(s);
    hide Reachable, ClaimsInv, ResultsInv, SessionsInv, RunInv, AttemptInv, DecisionsAreCurrent;
    forall i | 0 <= i < |s.exec.accepted|
      ensures WasApproved(s.desk.granted, s.exec.accepted[i])
    {
      var e := s.exec.accepted[i];
      assert AcceptedInv(s.desk.approvals, e);
      hide PayloadHashFor, ParseEmail, IsComplete;
      var hash := e.action.payloadHash;
      assert WasGranted(s.desk.granted, e.action.action.id, hash);
      var j :| 0 <= j < |s.desk.granted| && s.desk.granted[j].id == e.action.action.id
            && PayloadHashFor(s.desk.granted[j].content) == Success(hash);
      HashBindsContent(s.desk.granted[j].content, e.action.action.content);
      HashedPayloadIsWritten(e.action.action.content);
      SamePayloadTransfers(s.desk.granted[j].content.payload, e.action.action.content.payload, e.request.email);
    }
  }

  // ---------- terminal records ----------

  lemma ExecutionKeepsTerminal(x: Execution, approvals: map<string, A.ApprovalRecord>, step: ExecutionStep, key: Key)
    requires ClaimsInv(x) && key in x.ledger && Terminal(x.ledger[key])
    ensures var t := ExecutionNext(x, approvals, step); key in t.ledger && t.ledger[key] == x.ledger[key]
  {
    hide WinsAreDistinct, AttemptsBelong, RunsAwaitTheirOwn, AcceptedOnce;
    hide PayloadHashFor, Verified, Sent, Accepts, ParseEmail, StageAfterLook, StageAfterSend, PhaseAfter, FinalRecord;
  }

  lemma NextKeepsTerminal(s: State, step: Step, key: Key)
    requires Inv(s) && key in s.exec.ledger && Terminal(s.exec.ledger[key])
    ensures var t := Next(s, step); key in t.exec.ledger && t.exec.ledger[key] == s.exec.ledger[key]
  {
    if step.Executes? { ExecutionKeepsTerminal(s.exec, s.desk.approvals, step.step, key); }
    ReclaimSettles(s.exec.ledger);
    hide Inv, ExecutionNext, DeskNext, Reclaimed, Launched, ReconcileAll, ReconcileSession, Admitted, Terminal, MayLaunch;
  }

  /** A terminal record is never changed again: not by later calls, orphans, crashes or reloads. */
  lemma {:induction false} TerminalRecordsAreImmutable(s: State, steps: seq<Step>, key: Key)
    requires Inv(s) && key in s.exec.ledger && Terminal(s.exec.ledger[key])
    ensures key in After(s, steps).exec.ledger && After(s, steps).exec.ledger[key] == s.exec.ledger[key]
  {
    hide Inv, Next, Terminal;
    if steps != [] {
      TerminalRecordsAreImmutable(s, steps[..|steps| - 1], key);
      AfterKeepsInv(s, steps[..|steps| - 1]);
      NextKeepsTerminal(After(s, steps[..|steps| - 1]), steps[|steps| - 1], key);
    }
  }

  /**
   * A record is `succeeded` only for an action whose email was accepted exactly once, under the message id
   * that the record and the stored receipt carry.
   */
  lemma SucceededMeansAcceptedOnce(s: State, key: Key)
    requires Reachable(s) && key in s.exec.ledger && s.exec.ledger[key].status == Succeeded
    ensures s.exec.ledger[key].result.Some? && s.exec.ledger[key].result.value.Delivered?
    ensures var messageId := s.exec.ledger[key].result.value.messageId;
      Receipted(s.exec.receipts, key, messageId) && Backed(s.exec.accepted, key, messageId)
    ensures AcceptedExactlyOnce(s.exec.accepted, key)
    ensures forall i :: 0 <= i < |s.exec.accepted| && DedupeOf(KeyOf(s.exec.accepted[i].action)) == DedupeOf(key) ==>
              KeyOf(s.exec.accepted[i].action) == key
  {
    ReachableInv(s);
    AtMostOnePerAction(s);
    hide Reachable, ApprovalsInv, BindingInv, SessionsInv, ServiceIsBacked, StageResult, PhaseResult;
    assert RecordResult(s.exec.receipts, key, s.exec.ledger[key]);
    ReceiptMeansAcceptedOnce(s, key);
  }

  lemma {:induction false} ReceiptMeansAcceptedOnce(s: State, key: Key)
    requires Inv(s) && key in s.exec.receipts
    ensures Backed(s.exec.accepted, key, s.exec.receipts[key]) && AcceptedExactlyOnce(s.exec.accepted, key)
  {
    hide ApprovalsInv, BindingInv, SessionsInv, ServiceIsBacked, StageResult, PhaseResult, RecordResult;
    var accepted := s.exec.accepted;
    var i :| 0 <= i < |accepted| && KeyOf(accepted[i].action) == key && accepted[i].messageId == s.exec.receipts[key];
  }

  // ---------- sessions ----------

  /** A stored receipt of the session, backed by exactly one accepted email. */
  ghost predicate WasDelivered(x: Execution, session: string) {
    exists key :: key in x.receipts && key.sessionId == session && AcceptedExactlyOnce(x.accepted, key)
  }

  lemma ClosedWasDelivered(s: State, c: Close)
    requires Inv(s) && c in s.desk.closed && c.how != ByRace
    ensures WasDelivered(s.exec, c.session)
  {
    hide ClaimsInv, ApprovalsInv, BindingInv, ResultsInv, ClosingInv, AcceptedExactlyOnce;
    assert CloseIsReceipted(s.exec, c);
    var key :| key in s.exec.receipts && key.sessionId == c.session;
    ReceiptMeansAcceptedOnce(s, key);
  }

  /** A session completed other than by the duplicate race has a stored receipt backed by exactly one accepted email. */
  lemma CompletedSessionsWereDelivered(s: State, c: Close)
    requires Reachable(s) && c in s.desk.closed && c.how != ByRace
    ensures WasDelivered(s.exec, c.session)
  {
    hide Inv, WasDelivered, Reachable;
    ReachableInv(s);
    ClosedWasDelivered(s, c);
  }

  /** The step closes the session because all racing calls have ended. */
  predicate ClosesRace(d: Desk, step: Step, session: string) {
    && step.Handles? && step.handling.DoCloseSession?
    && step.handling.id in d.deciding && d.deciding[step.handling.id] == Closing(session, Completed, ByRace)
  }

  /** The step is the save with which policy ends, of a session that does not await approval. */
  predicate EndsByPolicy(d: Desk, step: Step, session: string) {
    step == Handles(DoPolicyEnds(session, Completed)) && session in d.sessions && d.sessions[session] != AwaitingApproval
  }

  /**
   * Whatever its status was, a session becomes completed only when a receipt of it is stored, backed by exactly one accepted
   * email; the exceptions are a policy run that asked for no approval, and the end of the duplicate race, which looks at no
   * outcome.
   */
  lemma SessionsCompleteWhenDelivered(s: State, step: Step, session: string)
    requires Reachable(s) && (session in s.desk.sessions ==> s.desk.sessions[session] != Completed)
    requires session in Next(s, step).desk.sessions && Next(s, step).desk.sessions[session] == Completed
    ensures WasDelivered(Next(s, step).exec, session) || ClosesRace(s.desk, step, session) || EndsByPolicy(s.desk, step, session)
  {
    hide Inv, Reachable, WasDelivered;
    ReachableInv(s);
    NextKeepsInv(s, step);
    if !ClosesRace(s.desk, step, session) && !EndsByPolicy(s.desk, step, session) {
      var c := CompletionIsRecorded(s, step, session);
      hide Next;
      ClosedWasDelivered(Next(s, step), c);
    }
  }

  lemma CompletionIsRecorded(s: State, step: Step, session: string) returns (c: Close)
    requires Inv(s) && (session in s.desk.sessions ==> s.desk.sessions[session] != Completed)
    requires session in Next(s, step).desk.sessions && Next(s, step).desk.sessions[session] == Completed
    requires !ClosesRace(s.desk, step, session) && !EndsByPolicy(s.desk, step, session)
    ensures c in Next(s, step).desk.closed && c.session == session && c.how != ByRace
  {
    hide Inv, ExecutionNext, StartRun, LoadedExecution, HasReceipt, FirstIsApproved, Upserted, DecisionOn, FindAction, AfterRun, AllEnded, PayloadHashFor;
    if s.up && step.Handles? && step.handling.DoCloseSession? {
      c := Close(session, s.desk.deciding[step.handling.id].how);
    } else {
      c := Close(session, ByReconciliation);
    }
  }

  /**
   * After a restart a session that was running has failed, and one awaiting an approval already saved is completed iff a
   * receipt is stored, else it has failed; no other status changes.
   */
  lemma RestartReconciles(s: State, authorized: bool, session: string)
    requires Inv(s) && !s.up && session in s.desk.sessions
    ensures var t := Next(s, Restarts(authorized));
      && t.up && session in t.desk.sessions
      && (s.desk.sessions[session] == Running ==> t.desk.sessions[session] == FailedSession)
      && (forall key :: key in t.exec.ledger ==> Terminal(t.exec.ledger[key]))
      && (s.desk.sessions[session] == AwaitingApproval && FirstIsApproved(s.desk, session) ==>
            && (t.desk.sessions[session] == Completed <==> HasReceipt(s.exec.receipts, session))
            && (t.desk.sessions[session] == FailedSession <==> !HasReceipt(s.exec.receipts, session)))
      && (s.desk.sessions[session] == AwaitingApproval && !FirstIsApproved(s.desk, session) ==>
            t.desk.sessions[session] == AwaitingApproval)
      && (s.desk.sessions[session] !in {Running, AwaitingApproval} ==> t.desk.sessions[session] == s.desk.sessions[session])
  {
    ReclaimSettles(s.exec.ledger);
    hide Inv, Reclaimed, HasReceipt, FirstIsApproved, Completes;
  }

  // ---------- the duplicate race ----------

  /** The receipts that the race counts as sends: those of the session and the action. */
  function Sends(receipts: map<Key, nat>, session: string, action: string): set<Key> {
    set key | key in receipts && key.sessionId == session && key.actionId == action
  }

  function ClaimsWon(ledger: Ledger, key: Key): nat {
    if key in ledger && ledger[key].status == Succeeded then 1 else 0
  }

  lemma SendsAreOne(s: State, key: Key)
    requires Reachable(s)
    ensures |Sends(s.exec.receipts, key.sessionId, key.actionId)| <= 1
    ensures key in s.exec.receipts ==> |Sends(s.exec.receipts, key.sessionId, key.actionId)| == 1
  {
    hide Reachable;
    ReachableInv(s);
    AtMostOnePerAction(s);
    var sends := Sends(s.exec.receipts, key.sessionId, key.actionId);
    forall k | k in sends
      ensures k in s.exec.receipts && AcceptedExactlyOnce(s.exec.accepted, k)
    {
      ReceiptMeansAcceptedOnce(s, k);
    }
    hide Inv;
    forall k, l | k in sends && l in sends
      ensures k == l
    {
      SameActionSameReceipt(s.exec.accepted, k, l);
    }
    assert key in s.exec.receipts ==> key in sends;
    AtMostOneElement(sends);
  }

  /**
   * The report reads the ledger first and the receipts later, with anything in between. However many calls race for a key,
   * it counts at most one send, and one whenever it counts a claim as won.
   */
  lemma RaceReportsOneSend(s: State, steps: seq<Step>, key: Key)
    requires Reachable(s)
    ensures ClaimsWon(s.exec.ledger, key) <= |Sends(After(s, steps).exec.receipts, key.sessionId, key.actionId)| <= 1
  {
    hide Reachable, After, Inv, Sends;
    ReachableInv(s);
    ReachableGoesOn(s, steps);
    SendsAreOne(After(s, steps), key);
    if ClaimsWon(s.exec.ledger, key) == 1 {
      TerminalRecordsAreImmutable(s, steps, key);
      SucceededMeansAcceptedOnce(After(s, steps), key);
    }
  }

  /** Whether the raced action was delivered is exactly what the report says: one send, or none. */
  lemma RaceIsDeliveredExactly(s: State, session: string, action: string)
    requires Reachable(s)
    ensures |Sends(s.exec.receipts, session, action)| == 1 <==>
            exists k :: k in s.exec.receipts && k.sessionId == session && k.actionId == action && AcceptedExactlyOnce(s.exec.accepted, k)
  {
    hide Reachable, AcceptedExactlyOnce;
    ReachableInv(s);
    var sends := Sends(s.exec.receipts, session, action);
    if sends != {} {
      var k :| k in sends;
      SendsAreOne(s, k);
      ReceiptMeansAcceptedOnce(s, k);
    }
    hide Inv;
    assert forall k :: k in sends <==> k in s.exec.receipts && k.sessionId == session && k.actionId == action;
    assert |sends| == 1 ==> sends != {};
  }

  /** A call of the race that was told of a delivery suffices: its session has a receipt. */
  lemma DeliveredCallHasReceipt(s: State, r: nat)
    requires Reachable(s) && r in s.exec.runs && s.exec.runs[r].phase.Returned?
    requires !s.exec.runs[r].phase.outcome.terminal && s.exec.runs[r].phase.outcome.result.Delivered?
    ensures WasDelivered(s.exec, s.exec.runs[r].action.action.sessionId)
  {
    hide Reachable, ClaimsInv, ApprovalsInv, BindingInv, SessionsInv, AcceptedExactlyOnce, StageResult, RecordResult;
    ReachableInv(s);
    assert PhaseResult(s.exec.receipts, s.exec.runs[r]);
    ReceiptMeansAcceptedOnce(s, KeyOf(s.exec.runs[r].action));
  }

  lemma SameActionSameReceipt(accepted: seq<Accepted>, k: Key, l: Key)
    requires forall i, j :: 0 <= i < j < |accepted| ==> DedupeOf(KeyOf(accepted[i].action)) != DedupeOf(KeyOf(accepted[j].action))
    requires AcceptedExactlyOnce(accepted, k) && AcceptedExactlyOnce(accepted, l) && DedupeOf(k) == DedupeOf(l)
    ensures k == l
  {
    var i :| 0 <= i < |accepted| && KeyOf(accepted[i].action) == k;
    var j :| 0 <= j < |accepted| && KeyOf(accepted[j].action) == l;
  }

  lemma AtMostOneElement<T>(s: set<T>)
    requires forall x, y :: x in s && y in s ==> x == y
    ensures |s| <= 1 && (|s| == 1 <==> s != {})
  {
    if s != {} {
      var x :| x in s;
      assert s == {x};
    }
  }

  // ---------- later calls ----------

  /** The call passes every check that depends on the call alone; the content is checked only with an approval. */
  predicate Passes(a: ApprovedAction, decision: Decision) {
    && Admitted(a, decision) in {Verifying, Claiming}
    && (decision == RequireApproval ==> PayloadHashFor(a.action.content) == Success(a.payloadHash))
  }

  /** The refusals that are left once the approval stands. */
  predicate Refused(outcome: Outcome) {
    || outcome == GiveUp(ProtectedActionRequiresApproval)
    || outcome == GiveUp(IdempotencyKeyMismatch)
    || outcome == GiveUp(HashMismatch)
  }

  /**
   * A call that comes after its key has succeeded makes no attempt. One that passes goes on to the stored result, unless a
   * write throws; any other one never gets to the claim, and is refused or throws.
   */
  ghost predicate Follows(x: Execution, r: nat, key: Key, stored: ActionResult) {
    r in x.runs && KeyOf(x.runs[r].action) == key ==>
      && (forall id :: id in x.attempts ==> x.attempts[id].run != r)
      && FollowsIn(x.runs[r], stored)
  }

  predicate FollowsIn(run: Run, stored: ActionResult) {
    match run.phase
    case Verifying => run.decision == RequireApproval && Admitted(run.action, run.decision) == Verifying
    case Claiming => Passes(run.action, run.decision)
    case Lost => Passes(run.action, run.decision)
    case Threw => true
    case Returned(outcome) => if Passes(run.action, run.decision) then outcome == Outcome(stored, false) else Refused(outcome)
    case _ => false
  }

  /** The ledger holds the key as succeeded, with this result, and its approval stands. */
  ghost predicate Settled(x: Execution, approvals: map<string, A.ApprovalRecord>, key: Key, stored: ActionResult) {
    && key in x.ledger && x.ledger[key].status == Succeeded && x.ledger[key].result == Some(stored)
    && key.actionId in approvals && approvals[key.actionId].status == A.Approved
    && approvals[key.actionId].payloadHash == key.payloadHash
  }

  /** A key that has succeeded keeps its approval: the email it stands for was accepted under it. */
  lemma SucceededIsSettled(s: State, key: Key)
    requires Inv(s) && key in s.exec.ledger && s.exec.ledger[key].status == Succeeded
    ensures s.exec.ledger[key].result.Some?
    ensures Settled(s.exec, s.desk.approvals, key, s.exec.ledger[key].result.value)
  {
    hide ClaimsInv, ApprovalsInv, SessionsInv, StageResult, PhaseResult, ServiceIsBacked, RunInv, AttemptInv, ParseEmail, PayloadHashFor, IsValid;
    assert RecordResult(s.exec.receipts, key, s.exec.ledger[key]);
    var accepted := s.exec.accepted;
    assert Backed(accepted, key, s.exec.receipts[key]);
    var i :| 0 <= i < |accepted| && KeyOf(accepted[i].action) == key && accepted[i].messageId == s.exec.receipts[key];
    assert AcceptedInv(s.desk.approvals, accepted[i]);
  }

  lemma AttemptsHaveRuns(x: Execution, r: nat)
    requires AttemptsBelong(x) && r !in x.runs
    ensures forall id :: id in x.attempts ==> x.attempts[id].run != r
  {
  }

  lemma VerifiedFollows(approvals: map<string, A.ApprovalRecord>, run: Run, stored: ActionResult)
    requires run.phase == Verifying && FollowsIn(run, stored)
    requires var id := run.action.action.id;
      id in approvals && approvals[id].status == A.Approved && approvals[id].payloadHash == run.action.payloadHash
    ensures FollowsIn(run.(phase := Verified(approvals, run.action)), stored)
  {
    hide PayloadHashFor, Admitted;
  }

  lemma VerifyKeepsFollowing(x: Execution, approvals: map<string, A.ApprovalRecord>, q: nat, r: nat, key: Key, stored: ActionResult)
    requires Follows(x, r, key, stored) && Settled(x, approvals, key, stored)
    ensures Follows(VerifyRun(x, approvals, q), r, key, stored)
  {
    if q == r && r in x.runs && KeyOf(x.runs[r].action) == key && x.runs[r].phase == Verifying {
      VerifiedFollows(approvals, x.runs[r], stored);
    }
    hide FollowsIn, Verified;
  }

  lemma RunStepKeepsFollowing(x: Execution, approvals: map<string, A.ApprovalRecord>, step: ExecutionStep, r: nat,
                              key: Key, stored: ActionResult)
    requires Follows(x, r, key, stored) && (step.DoClaim? || step.DoReadExisting? || step.DoBeginAttempt?)
    requires Settled(x, approvals, key, stored)
    ensures Follows(ExecutionNext(x, approvals, step), r, key, stored)
  {
    hide Passes;
  }

  lemma OutcomeStepKeepsFollowing(x: Execution, approvals: map<string, A.ApprovalRecord>, step: ExecutionStep,
                                  r: nat, key: Key, stored: ActionResult)
    requires Follows(x, r, key, stored)
    requires step.DoSettle? || step.DoTimeOut? || step.DoRecord? || step.DoLook? || step.DoSaveReceipt?
    ensures Follows(ExecutionNext(x, approvals, step), r, key, stored)
  {
    hide StageAfterLook, PhaseAfter, FinalRecord, Passes;
  }

  lemma StagingKeepsFollowing(x: Execution, t: Execution, id: nat, r: nat, key: Key, stored: ActionResult)
    requires Follows(x, r, key, stored) && t.runs == x.runs
    requires id in x.attempts && id in t.attempts && t.attempts == Staged(x.attempts, id, t.attempts[id].stage)
    ensures Follows(t, r, key, stored)
  {
    hide FollowsIn;
  }

  lemma TransmitOnlyStages(x: Execution, id: nat, authorized: bool, request: EmailRequest)
    requires id in x.attempts && x.attempts[id].stage.Delivering?
    ensures var t := Transmit(x, id, authorized, request);
      t.runs == x.runs && t.ledger == x.ledger && id in t.attempts && t.attempts == Staged(x.attempts, id, t.attempts[id].stage)
  {
    hide Sent, Accepts, StageAfterSend;
  }

  lemma DeliverOnlyStages(x: Execution, id: nat, authorized: bool)
    requires id in x.attempts && x.attempts[id].stage.Delivering?
    ensures var t := Deliver(x, id, authorized);
      t.runs == x.runs && t.ledger == x.ledger && id in t.attempts && t.attempts == Staged(x.attempts, id, t.attempts[id].stage)
  {
    hide ParseEmail, Transmit;
    var a := x.attempts[id].action;
    var email := ParseEmail(a.action.content.payload);
    if email.Some? {
      TransmitOnlyStages(x, id, authorized, EmailRequest(a.action.sessionId, a.action.id, email.value));
    }
  }

  lemma SendKeepsFollowing(x: Execution, id: nat, authorized: bool, r: nat, key: Key, stored: ActionResult)
    requires Follows(x, r, key, stored)
    ensures Follows(Deliver(x, id, authorized), r, key, stored)
  {
    hide Follows;
    if id in x.attempts && x.attempts[id].stage.Delivering? {
      DeliverOnlyStages(x, id, authorized);
      StagingKeepsFollowing(x, Deliver(x, id, authorized), id, r, key, stored);
      hide Deliver;
    }
  }

  lemma FaultsKeepFollowing(x: Execution, transient: nat, error: Option<SendError>, r: nat, key: Key, stored: ActionResult)
    requires Follows(x, r, key, stored)
    ensures Follows(InjectFaults(x, transient, error), r, key, stored)
  {
    hide FollowsIn;
  }

  lemma ExecutionKeepsFollowing(x: Execution, approvals: map<string, A.ApprovalRecord>, step: ExecutionStep, r: nat,
                                key: Key, stored: ActionResult)
    requires Follows(x, r, key, stored) && Settled(x, approvals, key, stored)
    ensures Follows(ExecutionNext(x, approvals, step), r, key, stored)
  {
    hide Follows, Settled;
    if step.DoVerify? {
      VerifyKeepsFollowing(x, approvals, step.run, r, key, stored);
    } else if step.DoClaim? || step.DoReadExisting? || step.DoBeginAttempt? {
      hide ExecutionNext;
      RunStepKeepsFollowing(x, approvals, step, r, key, stored);
    } else if step.DoDeliver? {
      SendKeepsFollowing(x, step.attempt, x.authorized, r, key, stored);
    } else if step.DoInjectFaults? {
      FaultsKeepFollowing(x, step.transient, step.error, r, key, stored);
    } else {
      hide ExecutionNext;
      OutcomeStepKeepsFollowing(x, approvals, step, r, key, stored);
    }
  }

  lemma AdmittedFollows(a: ApprovedAction, decision: Decision, stored: ActionResult)
    ensures FollowsIn(Run(a, decision, Admitted(a, decision)), stored)
  {
    hide PayloadHashFor;
  }

  lemma StartedFollows(x: Execution, q: nat, a: ApprovedAction, decision: Decision, r: nat, key: Key, stored: ActionResult)
    requires ClaimsInv(x) && Follows(x, r, key, stored)
    ensures Follows(StartRun(x, q, a, decision), r, key, stored)
  {
    if q !in x.runs {
      AttemptsHaveRuns(x, q);
      AdmittedFollows(a, decision, stored);
    }
    hide ClaimsInv, FollowsIn, Admitted;
  }

  lemma NextKeepsFollowing(s: State, step: Step, r: nat, key: Key, stored: ActionResult)
    requires Inv(s) && Follows(s.exec, r, key, stored) && Settled(s.exec, s.desk.approvals, key, stored)
    ensures Follows(Next(s, step).exec, r, key, stored)
  {
    match step
    case Executes(x) => ExecutionKeepsFollowing(s.exec, s.desk.approvals, x, r, key, stored);
      hide Inv, ExecutionNext, Follows, Settled;
    case Calls(q, a, decision) => StartedFollows(s.exec, q, a, decision, r, key, stored);
      hide Inv, StartRun, Follows, Settled;
    case Launches(id, q, race) =>
      if MayLaunch(s.desk, s.exec.runs, id, q, race) {
        StartedFollows(s.exec, q, s.desk.deciding[id].action, RequireApproval, r, key, stored);
      }
      hide Inv, StartRun, Follows, Launched, Settled;
    case _ => OtherKeepsFollowing(s, step, r, key, stored);
      hide Inv, Next, Follows, Settled;
  }

  lemma OtherKeepsFollowing(s: State, step: Step, r: nat, key: Key, stored: ActionResult)
    requires Follows(s.exec, r, key, stored)
    requires !step.Executes? && !step.Calls? && !step.Launches?
    ensures Follows(Next(s, step).exec, r, key, stored)
  {
    hide Inv, DeskNext, ReconcileAll, ReconcileSession, Reclaimed, FollowsIn;
  }

  lemma {:induction false} AfterKeepsFollowing(s: State, steps: seq<Step>, r: nat, key: Key, stored: ActionResult)
    requires Inv(s) && Follows(s.exec, r, key, stored)
    requires key in s.exec.ledger && s.exec.ledger[key].status == Succeeded && s.exec.ledger[key].result == Some(stored)
    ensures Follows(After(s, steps).exec, r, key, stored)
  {
    hide Inv, Next, Follows, Settled;
    if steps != [] {
      var before := steps[..|steps| - 1];
      AfterKeepsFollowing(s, before, r, key, stored);
      AfterKeepsInv(s, before);
      TerminalRecordsAreImmutable(s, before, key);
      SucceededIsSettled(After(s, before), key);
      NextKeepsFollowing(After(s, before), steps[|steps| - 1], r, key, stored);
    }
  }

  /**
   * Once a key has succeeded, a call made later for it never reaches the executor. If its decision, its idempotency key and
   * its content are in order, all it can end with is the stored result or an exception; if they are not, all it can end with
   * is a refusal by one of those three checks or an exception.
   */
  lemma LaterCallsReturnTheStoredResult(s: State, steps: seq<Step>, r: nat, key: Key)
    requires Inv(s) && key in s.exec.ledger && s.exec.ledger[key].status == Succeeded
    requires r !in s.exec.runs
    ensures s.exec.ledger[key].result.Some?
    ensures Follows(After(s, steps).exec, r, key, s.exec.ledger[key].result.value)
  {
    hide Inv, After, FollowsIn;
    SucceededIsSettled(s, key);
    AfterKeepsFollowing(s, steps, r, key, s.exec.ledger[key].result.value);
  }

  // ---------- what a single run does ----------

  /** The service would accept the email of attempt `id` now. */
  predicate WouldAccept(x: Execution, id: nat) {
    && id in x.attempts && x.attempts[id].stage.Delivering? && x.authorized
    && DedupeOf(KeyOf(x.attempts[id].action)) !in x.service.receipts
    && x.service.errorQueue == [] && x.service.transientFailures == 0
    && ParseEmail(x.attempts[id].action.action.content.payload).Some?
  }

  lemma AcceptingSend(x: Execution, id: nat)
    requires WouldAccept(x, id)
    ensures var y, a := Deliver(x, id, x.authorized), x.attempts[id];
      && y.ledger == x.ledger && y.receipts == x.receipts && y.runs == x.runs && y.maxAttempts == x.maxAttempts
      && |y.accepted| == |x.accepted| + 1 && y.accepted[|x.accepted|].action == a.action
      && id in y.attempts && y.attempts[id] == a.(stage := Saving(a.stage.key, x.service.counter + 1))
  {
    hide ParseEmail;
  }

  lemma UnservedKeyIsOpen(x: Execution, id: nat)
    requires ClaimsInv(x) && ResultsInv(x) && WouldAccept(x, id)
    requires x.attempts[id].run in x.runs && Active(x.runs[x.attempts[id].run].phase)
    ensures var key := KeyOf(x.attempts[id].action);
      key in x.ledger && x.ledger[key] == NewExecutingRecord(key) && key !in x.receipts
  {
    hide ParseEmail, Backed, HasWin, PhaseResult, StageResult, RecordResult, ServiceIsBacked;
  }

  /** A send that the outside world accepts, a crash before the write-back, a restart: a failed record for a sent email. */
  lemma {:induction false} FailedDoesNotMeanUnsent(x: Execution, id: nat, authorized: bool)
    requires ClaimsInv(x) && ResultsInv(x) && WouldAccept(x, id)
    requires x.attempts[id].run in x.runs && Active(x.runs[x.attempts[id].run].phase)
    ensures var key := KeyOf(x.attempts[id].action);
      var t := LoadedExecution(CrashedExecution(Deliver(x, id, x.authorized)), authorized);
      && key in t.ledger && t.ledger[key].status == Failed && key !in t.receipts
      && exists i :: 0 <= i < |t.accepted| && KeyOf(t.accepted[i].action) == key
  {
    AcceptingSend(x, id);
    UnservedKeyIsOpen(x, id);
    var sent := Deliver(x, id, x.authorized);
    hide ClaimsInv, ResultsInv, WouldAccept, Deliver;
    assert KeyOf(sent.accepted[|x.accepted|].action) == KeyOf(x.attempts[id].action);
  }

  lemma ClaimAndLook(x: Execution, r: nat, id: nat)
    requires r in x.runs && x.runs[r].phase == Claiming && id !in x.attempts && 1 <= x.maxAttempts
    requires var a := x.runs[r].action; IsValid(a) && IsKeyed(a) && KeyOf(a) !in x.ledger && KeyOf(a) !in x.receipts
    ensures var a := x.runs[r].action;
      var y := Look(BeginAttempt(ClaimKey(x, r, true), r, id), id);
      && r in y.runs && y.runs[r].action == a && y.runs[r].phase == Attempting(1, id)
      && id in y.attempts && y.attempts[id] == Attempt(r, a, Delivering(KeyOf(a)))
      && y.service == x.service && y.accepted == x.accepted && y.maxAttempts == x.maxAttempts && y.authorized == x.authorized
  {
    assert x.runs[r].action.supplied.Some?;
    hide IsValid;
    var y := BeginAttempt(ClaimKey(x, r, true), r, id);
    assert y.attempts[id] == Attempt(r, x.runs[r].action, Looking);
    hide ClaimKey, BeginAttempt;
  }

  lemma SaveAndRecord(x: Execution, r: nat, id: nat, messageId: nat)
    requires r in x.runs && x.runs[r].phase.Attempting? && x.runs[r].phase.id == id
    requires id in x.attempts && x.attempts[id].stage.Saving? && x.attempts[id].stage.messageId == messageId
    ensures var key := KeyOf(x.runs[r].action);
      var y := RecordOutcome(SettleAttempt(SaveReceipt(x, id, true), r), r, true);
      && r in y.runs && y.runs[r].phase == Returned(Outcome(Delivered(messageId), false))
      && key in y.ledger && y.ledger[key] == ExecutionRecord(key, Succeeded, 1, Some(Delivered(messageId)))
      && x.attempts[id].stage.key in y.receipts && y.receipts[x.attempts[id].stage.key] == messageId
      && y.accepted == x.accepted
  {
    var y := SettleAttempt(SaveReceipt(x, id, true), r);
    assert y.runs[r].phase == Recording(Outcome(Delivered(messageId), false)) && y.runs[r].action == x.runs[r].action;
    hide SettleAttempt, SaveReceipt;
  }

  /** A cleared run that meets no fault sends one email, stores its receipt, and returns and records success. */
  lemma UndisturbedRunDelivers(x: Execution, r: nat, id: nat)
    requires r in x.runs && x.runs[r].phase == Claiming && id !in x.attempts && 1 <= x.maxAttempts
    requires var a := x.runs[r].action;
      && IsValid(a) && IsKeyed(a) && KeyOf(a) !in x.ledger && KeyOf(a) !in x.receipts
      && DedupeOf(KeyOf(a)) !in x.service.receipts && ParseEmail(a.action.content.payload).Some?
    requires x.authorized && x.service.errorQueue == [] && x.service.transientFailures == 0
    ensures var key, n := KeyOf(x.runs[r].action), x.service.counter + 1;
      var sent := Deliver(Look(BeginAttempt(ClaimKey(x, r, true), r, id), id), id, x.authorized);
      var y := RecordOutcome(SettleAttempt(SaveReceipt(sent, id, true), r), r, true);
      && r in y.runs && y.runs[r].phase == Returned(Outcome(Delivered(n), false))
      && key in y.ledger && y.ledger[key] == ExecutionRecord(key, Succeeded, 1, Some(Delivered(n)))
      && key in y.receipts && y.receipts[key] == n
      && |y.accepted| == |x.accepted| + 1 && KeyOf(y.accepted[|x.accepted|].action) == key
  {
    ClaimAndLook(x, r, id);
    hide IsValid, ParseEmail;
    var looked := Look(BeginAttempt(ClaimKey(x, r, true), r, id), id);
    hide Look, BeginAttempt, ClaimKey;
    assert WouldAccept(looked, id);
    AcceptingSend(looked, id);
    hide Deliver;
    var sent := Deliver(looked, id, x.authorized);
    SaveAndRecord(sent, r, id, x.service.counter + 1);
    assert sent.attempts[id].stage.key == KeyOf(x.runs[r].action);
    assert sent.runs[r].action == x.runs[r].action;
    hide RecordOutcome, SettleAttempt, SaveReceipt;
  }
}
