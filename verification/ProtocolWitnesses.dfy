/** Runs that end as they may: which reasons of a failed record leave it open whether the email was sent. */
module ProtocolWitnesses {
  import opened Wrappers
  import opened JsonText
  import opened CanonicalJson
  import opened Actions
  import opened EmailService
  import opened ExecutionLedger
  import opened Recovery
  import opened Protocol
  import opened ProtocolTheorems
  import opened ProtocolUnsent
  import A = ApprovalService

  // ---------- reachable states ----------

  ghost predicate LeadsTo(maxAttempts: nat, authorized: bool, steps: seq<Step>, s: State) {
    After(Initial(maxAttempts, authorized), steps) == s
  }

  /** Reachable under this limit; with `genuine`, by steps that queue no authorization error. */
  ghost predicate Got(maxAttempts: nat, genuine: bool, s: State) {
    exists authorized: bool, steps: seq<Step> :: LeadsTo(maxAttempts, authorized, steps, s) && (genuine ==> AllGenuine(steps))
  }

  lemma GotStart(maxAttempts: nat, genuine: bool, authorized: bool)
    ensures Got(maxAttempts, genuine, Initial(maxAttempts, authorized))
  {
    assert LeadsTo(maxAttempts, authorized, [], Initial(maxAttempts, authorized)) && AllGenuine([]);
  }

  lemma GotNext(maxAttempts: nat, genuine: bool, s: State, step: Step)
    requires Got(maxAttempts, genuine, s) && (genuine ==> Genuine(step))
    ensures Got(maxAttempts, genuine, Next(s, step))
  {
    hide Next, Genuine;
    var authorized: bool, steps: seq<Step> :|
      LeadsTo(maxAttempts, authorized, steps, s) && (genuine ==> AllGenuine(steps));
    assert (steps + [step])[..|steps|] == steps;
    assert LeadsTo(maxAttempts, authorized, steps + [step], Next(s, step));
  }

  lemma GotExecution(maxAttempts: nat, genuine: bool, s: State, x: ExecutionStep) returns (t: State)
    requires Got(maxAttempts, genuine, s) && s.up && (genuine ==> Genuine(Executes(x)))
    ensures t == s.(exec := ExecutionNext(s.exec, s.desk.approvals, x)) && Got(maxAttempts, genuine, t)
  {
    hide Got, ExecutionNext, Genuine;
    t := Next(s, Executes(x));
    GotNext(maxAttempts, genuine, s, Executes(x));
  }

  lemma GotHandling(maxAttempts: nat, genuine: bool, s: State, d: DeskStep) returns (t: State)
    requires Got(maxAttempts, genuine, s) && s.up
    ensures t == s.(desk := DeskNext(s.desk, s.exec.runs, d)) && Got(maxAttempts, genuine, t)
  {
    hide Got, DeskNext;
    t := Next(s, Handles(d));
    GotNext(maxAttempts, genuine, s, Handles(d));
  }

  lemma GotIsReachable(maxAttempts: nat, genuine: bool, s: State)
    requires Got(maxAttempts, genuine, s)
    ensures Reachable(s)
  {
    hide After, AllGenuine;
    var authorized: bool, steps: seq<Step> :|
      LeadsTo(maxAttempts, authorized, steps, s) && (genuine ==> AllGenuine(steps));
  }

  // ---------- an approved action ----------

  function Granting(p: ProposedAction, hash: Text): ApprovedAction {
    GrantedAction(A.ApprovalRecord(p.id, p.sessionId, hash, A.Approved), p)
  }

  function ApprovedDesk(p: ProposedAction, hash: Text): Desk {
    Desk([p], map[p.id := A.ApprovalRecord(p.id, p.sessionId, hash, A.Approved)], map[p.sessionId := Running],
         map[p.id := Granted(Granting(p, hash))], [p], {})
  }

  /** A session is opened, an action proposed, its approval requested. */
  lemma GotRequested(maxAttempts: nat, genuine: bool, authorized: bool, p: ProposedAction, hash: Text) returns (s: State)
    requires PayloadHashFor(p.content) == Success(hash)
    ensures Got(maxAttempts, genuine, s) && s.up && s.exec == Initial(maxAttempts, authorized).exec
    ensures s.desk == Desk([p], map[p.id := A.ApprovalRecord(p.id, p.sessionId, hash, A.Pending)],
                           map[p.sessionId := Running], map[], [], {})
  {
    hide Got, PayloadHashFor;
    GotStart(maxAttempts, genuine, authorized);
    s := GotHandling(maxAttempts, genuine, Initial(maxAttempts, authorized), DoOpenSession(p.sessionId));
    s := GotHandling(maxAttempts, genuine, s, DoProposeAction(p));
    assert s.desk.actions == [p];
    s := GotHandling(maxAttempts, genuine, s, DoRequestApproval(p.id));
  }

  /** A decision to approve has read what it needs. */
  lemma GotDecided(maxAttempts: nat, genuine: bool, authorized: bool, p: ProposedAction, hash: Text) returns (s: State)
    requires PayloadHashFor(p.content) == Success(hash)
    ensures Got(maxAttempts, genuine, s) && s.up && s.exec == Initial(maxAttempts, authorized).exec
    ensures var record := A.ApprovalRecord(p.id, p.sessionId, hash, A.Pending);
      s.desk == Desk([p], map[p.id := record], map[p.sessionId := Running],
                     map[p.id := HasSession(Approving, record)], [], {})
  {
    s := GotRequested(maxAttempts, genuine, authorized, p, hash);
    hide Got, PayloadHashFor;
    var record := A.ApprovalRecord(p.id, p.sessionId, hash, A.Pending);
    s := GotHandling(maxAttempts, genuine, s, DoBeginDecision(p.id, Approving));
    assert s.desk.deciding == map[p.id := Begun(Approving)];
    s := GotHandling(maxAttempts, genuine, s, DoReadApproval(p.id));
    assert s.desk.deciding == map[p.id := HasApproval(Approving, record)];
    s := GotHandling(maxAttempts, genuine, s, DoReadSession(p.id));
    assert s.desk.deciding == map[p.id := HasSession(Approving, record)];
  }

  /** It is saved. */
  lemma GotApproved(maxAttempts: nat, genuine: bool, authorized: bool, p: ProposedAction, hash: Text) returns (s: State)
    requires PayloadHashFor(p.content) == Success(hash)
    ensures Got(maxAttempts, genuine, s) && s.up && s.exec == Initial(maxAttempts, authorized).exec
    ensures s.desk == ApprovedDesk(p, hash)
  {
    s := GotDecided(maxAttempts, genuine, authorized, p, hash);
    hide Got, PayloadHashFor;
    var record := A.ApprovalRecord(p.id, p.sessionId, hash, A.Approved);
    s := GotHandling(maxAttempts, genuine, s, DoReadAction(p.id));
    assert s.desk.deciding == map[p.id := SavingDecision(record, p)];
    s := GotHandling(maxAttempts, genuine, s, DoSaveDecision(p.id, true));
    assert s.desk.deciding == map[p.id := Granted(Granting(p, hash))];
    assert s.desk.approvals == map[p.id := record];
  }

  // ---------- its first attempt, about to send ----------

  function AboutToSend(maxAttempts: nat, authorized: bool, a: ApprovedAction): Execution {
    var key := KeyOf(a);
    Execution(maxAttempts, authorized, map[key := NewExecutingRecord(key)], map[], FRESH_SERVICE, map[key := 0],
              map[0 := Run(a, RequireApproval, Attempting(1, 0))], map[0 := Attempt(0, a, Delivering(key))], [], [Win(key, 0)])
  }

  /** A complete protected action with this hash. */
  predicate IsExecutable(p: ProposedAction, hash: Text) {
    p.content.kind == SEND_EMAIL && PayloadHashFor(p.content) == Success(hash) && IsComplete(p.content.payload)
  }

  lemma GrantingIsValid(p: ProposedAction, hash: Text)
    requires IsExecutable(p, hash)
    ensures var a := Granting(p, hash); IsValid(a) && a.supplied == Some(KeyOf(a)) && a.payloadHash == hash && a.action == p
  {
    hide PayloadHashFor, IsComplete;
  }

  lemma GotVerifying(maxAttempts: nat, genuine: bool, authorized: bool, p: ProposedAction, hash: Text) returns (s: State)
    requires IsExecutable(p, hash)
    ensures Got(maxAttempts, genuine, s) && s.up && s.desk.approvals == ApprovedDesk(p, hash).approvals
    ensures s.exec == Initial(maxAttempts, authorized).exec.(runs := map[0 := Run(Granting(p, hash), RequireApproval, Verifying)])
  {
    s := GotApproved(maxAttempts, genuine, authorized, p, hash);
    GrantingIsValid(p, hash);
    hide Got, PayloadHashFor, IsComplete, IsValid;
    GotNext(maxAttempts, genuine, s, Launches(p.id, 0, false));
    s := Next(s, Launches(p.id, 0, false));
    assert s.exec.runs == map[0 := Run(Granting(p, hash), RequireApproval, Verifying)];
  }

  /** The key is claimed. */
  function Holding(maxAttempts: nat, authorized: bool, a: ApprovedAction): Execution {
    var key := KeyOf(a);
    Execution(maxAttempts, authorized, map[key := NewExecutingRecord(key)], map[], FRESH_SERVICE, map[key := 0],
              map[0 := Run(a, RequireApproval, Recovering(1))], map[], [], [Win(key, 0)])
  }

  lemma VerifiesAndClaims(maxAttempts: nat, authorized: bool, approvals: map<string, A.ApprovalRecord>, a: ApprovedAction)
    requires Verified(approvals, a) == Claiming
    ensures var x := Initial(maxAttempts, authorized).exec.(runs := map[0 := Run(a, RequireApproval, Verifying)]);
      ClaimKey(VerifyRun(x, approvals, 0), 0, true) == Holding(maxAttempts, authorized, a)
  {
    hide Verified;
    var x := Initial(maxAttempts, authorized).exec.(runs := map[0 := Run(a, RequireApproval, Verifying)]);
    assert VerifyRun(x, approvals, 0).runs == map[0 := Run(a, RequireApproval, Claiming)];
    var y := ClaimKey(VerifyRun(x, approvals, 0), 0, true);
    assert y.runs == map[0 := Run(a, RequireApproval, Recovering(1))];
    assert y.wins == [Win(KeyOf(a), 0)];
  }

  lemma GrantedIsVerified(p: ProposedAction, hash: Text)
    requires IsExecutable(p, hash)
    ensures Verified(ApprovedDesk(p, hash).approvals, Granting(p, hash)) == Claiming
  {
    hide PayloadHashFor, IsComplete;
  }

  lemma GotHolding(maxAttempts: nat, genuine: bool, authorized: bool, p: ProposedAction, hash: Text) returns (s: State)
    requires IsExecutable(p, hash)
    ensures Got(maxAttempts, genuine, s) && s.up && s.exec == Holding(maxAttempts, authorized, Granting(p, hash))
  {
    hide Got, IsExecutable, Holding, VerifyRun, ClaimKey, Verified, ApprovedDesk, Granting, Initial;
    s := GotVerifying(maxAttempts, genuine, authorized, p, hash);
    GrantedIsVerified(p, hash);
    VerifiesAndClaims(maxAttempts, authorized, s.desk.approvals, Granting(p, hash));
    s := GotExecution(maxAttempts, genuine, s, DoVerify(0));
    s := GotExecution(maxAttempts, genuine, s, DoClaim(0, true));
  }

  lemma FirstAttemptLooks(maxAttempts: nat, authorized: bool, a: ApprovedAction)
    requires 1 <= maxAttempts && IsValid(a) && a.supplied == Some(KeyOf(a))
    ensures Look(BeginAttempt(Holding(maxAttempts, authorized, a), 0, 0), 0) == AboutToSend(maxAttempts, authorized, a)
  {
    hide IsValid;
    var x := BeginAttempt(Holding(maxAttempts, authorized, a), 0, 0);
    assert x.runs == map[0 := Run(a, RequireApproval, Attempting(1, 0))];
    assert x.attempts == map[0 := Attempt(0, a, Looking)];
    assert Look(x, 0).attempts == map[0 := Attempt(0, a, Delivering(KeyOf(a)))];
  }

  lemma GotAboutToSend(maxAttempts: nat, genuine: bool, authorized: bool, p: ProposedAction, hash: Text) returns (s: State)
    requires 1 <= maxAttempts && IsExecutable(p, hash)
    ensures Got(maxAttempts, genuine, s) && s.up && s.exec == AboutToSend(maxAttempts, authorized, Granting(p, hash))
  {
    hide Got, IsValid, IsExecutable, Holding, AboutToSend, BeginAttempt, Look, Granting;
    s := GotHolding(maxAttempts, genuine, authorized, p, hash);
    GrantingIsValid(p, hash);
    FirstAttemptLooks(maxAttempts, authorized, Granting(p, hash));
    s := GotExecution(maxAttempts, genuine, s, DoBeginAttempt(0, 0));
    s := GotExecution(maxAttempts, genuine, s, DoLook(0));
  }

  // ---------- what the key's record can say in the end ----------

  /** The ledger holds the key as failed, for this reason. */
  predicate FailedWith(x: Execution, key: Key, reason: Reason) {
    key in x.ledger && x.ledger[key].status == Failed && x.ledger[key].result == Some(Undelivered(reason))
  }

  /** Run 0 is about to record an outcome. */
  lemma GotRecorded(maxAttempts: nat, genuine: bool, s: State, reason: Reason) returns (t: State)
    requires Got(maxAttempts, genuine, s) && s.up && 0 in s.exec.runs && s.exec.runs[0].phase == Recording(GiveUp(reason))
    ensures Got(maxAttempts, genuine, t) && FailedWith(t.exec, KeyOf(s.exec.runs[0].action), reason)
    ensures t.up && t.exec.accepted == s.exec.accepted && t.exec.attempts == s.exec.attempts && t.exec.service == s.exec.service
    ensures t.exec.authorized == s.exec.authorized
  {
    hide Got;
    t := GotExecution(maxAttempts, genuine, s, DoRecord(0, true));
  }

  /** Run 0 waits for an attempt that has failed for good. */
  lemma GotFailed(maxAttempts: nat, genuine: bool, s: State, error: AttemptError, reason: Reason) returns (t: State)
    requires Got(maxAttempts, genuine, s) && s.up && 0 in s.exec.runs && s.exec.runs[0].phase.Attempting?
    requires var id := s.exec.runs[0].phase.id; id in s.exec.attempts && s.exec.attempts[id].stage == Done(Failure(error))
    requires Followed(Failure(error), s.exec.runs[0].phase.attempt, s.exec.maxAttempts) == Some(GiveUp(reason))
    ensures Got(maxAttempts, genuine, t) && FailedWith(t.exec, KeyOf(s.exec.runs[0].action), reason)
    ensures t.up && t.exec.accepted == s.exec.accepted && t.exec.attempts == s.exec.attempts && t.exec.service == s.exec.service
    ensures t.exec.authorized == s.exec.authorized
  {
    hide Got;
    t := GotExecution(maxAttempts, genuine, s, DoSettle(0));
    hide ExecutionNext;
    t := GotRecorded(maxAttempts, genuine, t, reason);
  }

  /** The email of the first attempt is sent, its receipt not stored yet. */
  ghost predicate JustSent(x: Execution, a: ApprovedAction) {
    && 0 in x.runs && x.runs[0] == Run(a, RequireApproval, Attempting(1, 0))
    && x.attempts.Keys == {0} && x.attempts[0].stage.Saving?
    && KeyOf(a) in x.ledger && x.ledger[KeyOf(a)] == NewExecutingRecord(KeyOf(a)) && x.owner.Keys == {KeyOf(a)}
    && !NoneAccepted(x.accepted, KeyOf(a))
  }

  lemma SendIsAccepted(x: Execution, id: nat)
    requires WouldAccept(x, id)
    ensures var t, a := Deliver(x, id, x.authorized), x.attempts[id];
      && !NoneAccepted(t.accepted, KeyOf(a.action))
      && t.runs == x.runs && t.ledger == x.ledger && t.owner == x.owner && t.maxAttempts == x.maxAttempts
      && t.attempts == x.attempts[id := a.(stage := Saving(a.stage.key, x.service.counter + 1))]
  {
    AcceptingSend(x, id);
    hide WouldAccept, ParseEmail;
    var t := Deliver(x, id, x.authorized);
    assert t.accepted[|x.accepted|].action == x.attempts[id].action;
  }

  lemma FirstAttemptSends(maxAttempts: nat, a: ApprovedAction)
    requires ParseEmail(a.action.content.payload).Some?
    ensures JustSent(Deliver(AboutToSend(maxAttempts, true, a), 0, true), a)
    ensures Deliver(AboutToSend(maxAttempts, true, a), 0, true).maxAttempts == maxAttempts
    ensures AboutToSend(maxAttempts, true, a).authorized
  {
    hide ParseEmail, NoneAccepted;
    assert WouldAccept(AboutToSend(maxAttempts, true, a), 0);
    SendIsAccepted(AboutToSend(maxAttempts, true, a), 0);
    hide Deliver;
  }

  lemma GotSent(maxAttempts: nat, genuine: bool, p: ProposedAction, hash: Text) returns (s: State)
    requires 1 <= maxAttempts && IsExecutable(p, hash) && ParseEmail(p.content.payload).Some?
    ensures Got(maxAttempts, genuine, s) && s.up && s.exec.maxAttempts == maxAttempts && JustSent(s.exec, Granting(p, hash))
  {
    hide Got, ParseEmail, IsValid, IsExecutable, NoneAccepted, AboutToSend, Deliver, JustSent, Granting;
    s := GotAboutToSend(maxAttempts, genuine, true, p, hash);
    GrantingIsValid(p, hash);
    FirstAttemptSends(maxAttempts, Granting(p, hash));
    s := GotExecution(maxAttempts, genuine, s, DoDeliver(0));
  }

  /** Every further attempt times out. */
  lemma {:induction false} GotExhausted(maxAttempts: nat, genuine: bool, s: State, n: nat) returns (t: State)
    requires Got(maxAttempts, genuine, s) && s.up && s.exec.maxAttempts == maxAttempts
    requires 0 in s.exec.runs && s.exec.runs[0].phase.Attempting? && s.exec.runs[0].phase.attempt == n <= maxAttempts
    requires forall id :: id in s.exec.attempts ==> id < n
    ensures Got(maxAttempts, genuine, t) && FailedWith(t.exec, KeyOf(s.exec.runs[0].action), RetriesExhausted)
    ensures t.exec.accepted == s.exec.accepted
    decreases maxAttempts - n
  {
    hide Got;
    t := GotExecution(maxAttempts, genuine, s, DoTimeOut(0));
    if n < maxAttempts {
      t := GotExecution(maxAttempts, genuine, t, DoBeginAttempt(0, n));
      t := GotExhausted(maxAttempts, genuine, t, n + 1);
    } else {
      t := GotRecorded(maxAttempts, genuine, t, RetriesExhausted);
    }
  }

  predicate LeavesOpen(reason: Reason) {
    reason in {UnknownExecutionError, RetriesExhausted, ReclaimedAfterInterrupt}
  }

  /** Each of these reasons can stand beside an accepted email, whatever the limit on attempts. */
  lemma GotOpen(maxAttempts: nat, p: ProposedAction, hash: Text, reason: Reason) returns (t: State)
    requires 1 <= maxAttempts && IsExecutable(p, hash) && ParseEmail(p.content.payload).Some? && LeavesOpen(reason)
    ensures Got(maxAttempts, true, t)
    ensures var key := KeyOf(Granting(p, hash)); FailedWith(t.exec, key, reason) && !NoneAccepted(t.exec.accepted, key)
  {
    hide Got, IsExecutable, ParseEmail, NoneAccepted;
    var s := GotSent(maxAttempts, true, p, hash);
    match reason {
      case UnknownExecutionError =>
        t := GotExecution(maxAttempts, true, s, DoSaveReceipt(0, false));
        t := GotFailed(maxAttempts, true, t, UnknownFailure, UnknownExecutionError);
      case RetriesExhausted =>
        t := GotExhausted(maxAttempts, true, s, 1);
      case ReclaimedAfterInterrupt =>
        GotNext(maxAttempts, true, s, Crashes);
        t := Next(s, Crashes);
        GotNext(maxAttempts, true, t, LoadsLedger);
        t := Next(t, LoadsLedger);
      case _ =>
    }
  }

  // ---------- actions to begin with ----------

  /** The payload of an email, with one field more that the strict schema does not know. */
  function Overfull(e: Email): Json {
    Obj([Field(RECIPIENT, Str(e.recipient)), Field(SUBJECT, Str(e.subject)), Field(BODY, Str(e.body)), Field([], Null)])
  }

  lemma SampleEmail() returns (e: Email)
    ensures WellFormed(EmailPayload(e)) && IsComplete(EmailPayload(e)) && ParseEmail(EmailPayload(e)) == Some(e)
    ensures WellFormed(Overfull(e)) && IsComplete(Overfull(e)) && ParseEmail(Overfull(e)).None?
    ensures Serializable(EmailPayload(e)) && Serializable(Overfull(e))
  {
    e := Email([0x61], [0x61], [0x61]);
    EmailPayloadIsWellFormed(e);
    assert RECIPIENT[0] != SUBJECT[0] && RECIPIENT[0] != BODY[0] && SUBJECT[0] != BODY[0];
    PropertiesOf(e);
    assert !IsBlank([0x61]) by { assert !IsSpace([0x61][0]); }
    assert Overfull(e).fields[3].name == [];
  }

  lemma PropertiesOf(e: Email)
    ensures var fields := EmailPayload(e).fields;
      Property(fields, RECIPIENT) == Some(Str(e.recipient)) && Property(fields, SUBJECT) == Some(Str(e.subject))
      && Property(fields, BODY) == Some(Str(e.body))
    ensures var fields := Overfull(e).fields;
      Property(fields, RECIPIENT) == Some(Str(e.recipient)) && Property(fields, SUBJECT) == Some(Str(e.subject))
      && Property(fields, BODY) == Some(Str(e.body))
  {
    assert RECIPIENT[0] != SUBJECT[0] && RECIPIENT[0] != BODY[0] && SUBJECT[0] != BODY[0];
    var fs, gs := EmailPayload(e).fields, Overfull(e).fields;
    FieldUnderName(fs, RECIPIENT, 0);
    FieldUnderName(fs, SUBJECT, 1);
    FieldUnderName(fs, BODY, 2);
    FieldUnderName(gs, RECIPIENT, 0);
    FieldUnderName(gs, SUBJECT, 1);
    FieldUnderName(gs, BODY, 2);
  }

  lemma SampleAction(strict: bool) returns (p: ProposedAction, hash: Text)
    ensures IsExecutable(p, hash) && (ParseEmail(p.content.payload).Some? <==> strict)
  {
    var e := SampleEmail();
    hide ParseEmail, IsComplete, Serializable, WellFormed;
    p := ProposedAction("a", "s", Content(SEND_EMAIL, [], if strict then EmailPayload(e) else Overfull(e)));
    HashIsWritten(p.content);
    hash := PayloadHashFor(p.content).value;
  }

  lemma HashIsWritten(c: Content)
    requires Serializable(c.payload)
    ensures PayloadHashFor(c).Success?
  {
    WrittenExactlyWhenSerializable(HashedObject(c));
    hide CanonicalText;
  }

  // ---------- the reasons ----------

  /** Whenever a record has failed for this reason, nothing was ever accepted for its key. */
  ghost predicate MeansUnsent(maxAttempts: nat, genuine: bool, reason: Reason) {
    forall s, key :: Got(maxAttempts, genuine, s) && FailedWith(s.exec, key, reason) ==> NoneAccepted(s.exec.accepted, key)
  }

  lemma OtherReasonsMeanUnsent(maxAttempts: nat, s: State, key: Key, reason: Reason)
    requires Got(maxAttempts, true, s) && FailedWith(s.exec, key, reason) && !LeavesOpen(reason)
    ensures NoneAccepted(s.exec.accepted, key) && reason in {AuthRejected, InvalidAction}
  {
    hide After, AllGenuine, Inv, TokenInv, RefusedInv, NoneAccepted, Reachable;
    GotIsReachable(maxAttempts, true, s);
    var authorized: bool, steps: seq<Step> :| LeadsTo(maxAttempts, authorized, steps, s) && AllGenuine(steps);
    AfterKeepsRefused(maxAttempts, authorized, steps);
    if reason == AuthRejected {
      UnauthorizedMeansUnsent(maxAttempts, authorized, steps, key);
    } else {
      InvalidMeansUnsent(s, key);
    }
  }

  /**
    * A failed record means that nothing was sent if and only if it does not say that an unknown error occurred, that retries
    * were exhausted, or that the execution was interrupted: for any limit on attempts above zero, each of these three stands
    * beside an accepted email in some reachable state, and no other reason the ledger holds ever does.
    */
  lemma ReasonsThatMeanUnsent(maxAttempts: nat, reason: Reason)
    requires 1 <= maxAttempts
    ensures MeansUnsent(maxAttempts, true, reason) <==> !LeavesOpen(reason)
  {
    hide Got, NoneAccepted, FailedWith;
    if LeavesOpen(reason) {
      var p, hash := SampleAction(true);
      var t := GotOpen(maxAttempts, p, hash, reason);
    } else {
      forall s, key | Got(maxAttempts, true, s) && FailedWith(s.exec, key, reason)
        ensures NoneAccepted(s.exec.accepted, key)
      {
        OtherReasonsMeanUnsent(maxAttempts, s, key, reason);
      }
    }
  }

  /** The ledger holds failures for five reasons and no others. */
  lemma RecordedReasons(maxAttempts: nat, reason: Reason)
    requires 1 <= maxAttempts
    ensures (exists s, key :: Got(maxAttempts, true, s) && FailedWith(s.exec, key, reason))
       <==> LeavesOpen(reason) || reason in {AuthRejected, InvalidAction}
  {
    hide Got, NoneAccepted, FailedWith;
    forall s, key | Got(maxAttempts, true, s) && FailedWith(s.exec, key, reason)
      ensures LeavesOpen(reason) || reason in {AuthRejected, InvalidAction}
    {
      if !LeavesOpen(reason) {
        OtherReasonsMeanUnsent(maxAttempts, s, key, reason);
      }
    }
    if LeavesOpen(reason) {
      var p, hash := SampleAction(true);
      var t := GotOpen(maxAttempts, p, hash, reason);
    }
    if reason == AuthRejected {
      var t, key := GotUnauthorized(maxAttempts);
    }
    if reason == InvalidAction {
      var t, key := GotInvalid(maxAttempts);
    }
  }

  /** The process has the wrong token. */
  lemma GotUnauthorized(maxAttempts: nat) returns (t: State, key: Key)
    requires 1 <= maxAttempts
    ensures Got(maxAttempts, true, t) && FailedWith(t.exec, key, AuthRejected)
  {
    var p, hash := SampleAction(true);
    var s := GotAboutToSend(maxAttempts, true, false, p, hash);
    GrantingIsValid(p, hash);
    hide Got, ParseEmail, IsValid, IsExecutable;
    t := GotExecution(maxAttempts, true, s, DoDeliver(0));
    assert t.exec.attempts[0].stage == Done(Failure(AuthFailure));
    hide ExecutionNext;
    t := GotFailed(maxAttempts, true, t, AuthFailure, AuthRejected);
    key := KeyOf(Granting(p, hash));
  }

  /** The payload is complete, but carries a field more. */
  lemma GotInvalid(maxAttempts: nat) returns (t: State, key: Key)
    requires 1 <= maxAttempts
    ensures Got(maxAttempts, true, t) && FailedWith(t.exec, key, InvalidAction)
  {
    var p, hash := SampleAction(false);
    var s := GotAboutToSend(maxAttempts, true, true, p, hash);
    GrantingIsValid(p, hash);
    hide Got, ParseEmail, IsValid, IsExecutable;
    t := GotExecution(maxAttempts, true, s, DoDeliver(0));
    assert t.exec.attempts[0].stage == Done(Failure(ValidationFailure));
    hide ExecutionNext;
    t := GotFailed(maxAttempts, true, t, ValidationFailure, InvalidAction);
    key := KeyOf(Granting(p, hash));
  }

  // ---------- an authorization error queued by hand ----------

  /** The first attempt has timed out, about to send; the second is about to send. */
  function BothAboutToSend(maxAttempts: nat, a: ApprovedAction): Execution {
    AboutToSend(maxAttempts, true, a)
      .(runs := map[0 := Run(a, RequireApproval, Attempting(2, 1))],
        attempts := map[0 := Attempt(0, a, Delivering(KeyOf(a))), 1 := Attempt(0, a, Delivering(KeyOf(a)))])
  }

  lemma SecondAttemptLooks(maxAttempts: nat, a: ApprovedAction)
    requires 2 <= maxAttempts && IsValid(a) && a.supplied == Some(KeyOf(a))
    ensures Look(BeginAttempt(TimeOut(AboutToSend(maxAttempts, true, a), 0), 0, 1), 1) == BothAboutToSend(maxAttempts, a)
  {
    hide IsValid;
    var x := TimeOut(AboutToSend(maxAttempts, true, a), 0);
    assert x.runs == map[0 := Run(a, RequireApproval, Recovering(2))];
    var y := BeginAttempt(x, 0, 1);
    assert y.runs == map[0 := Run(a, RequireApproval, Attempting(2, 1))];
    assert Look(y, 1).attempts == BothAboutToSend(maxAttempts, a).attempts;
  }

  lemma GotTwoAttempts(maxAttempts: nat, p: ProposedAction, hash: Text) returns (s: State)
    requires 2 <= maxAttempts && IsExecutable(p, hash)
    ensures Got(maxAttempts, false, s) && s.up && s.exec == BothAboutToSend(maxAttempts, Granting(p, hash))
  {
    hide Got, IsValid, IsExecutable, AboutToSend, BothAboutToSend, TimeOut, BeginAttempt, Look, Granting;
    s := GotAboutToSend(maxAttempts, false, true, p, hash);
    GrantingIsValid(p, hash);
    SecondAttemptLooks(maxAttempts, Granting(p, hash));
    s := GotExecution(maxAttempts, false, s, DoTimeOut(0));
    s := GotExecution(maxAttempts, false, s, DoBeginAttempt(0, 1));
    s := GotExecution(maxAttempts, false, s, DoLook(1));
  }

  /** The second attempt meets the queued error, and the first could still send. */
  lemma SecondAttemptFails(maxAttempts: nat, a: ApprovedAction)
    requires ParseEmail(a.action.content.payload).Some?
    ensures var x := Deliver(InjectFaults(BothAboutToSend(maxAttempts, a), 0, Some(AuthError)), 1, true);
      && x.runs == map[0 := Run(a, RequireApproval, Attempting(2, 1))] && x.authorized
      && 1 in x.attempts && x.attempts[1].stage == Done(Failure(AuthFailure)) && WouldAccept(x, 0) && x.attempts[0].action == a
  {
    hide ParseEmail;
  }

  /** Then a record that failed for its token can stand beside an accepted email: the first attempt sends after all. */
  lemma QueuedErrorHidesASend(maxAttempts: nat)
    requires 2 <= maxAttempts
    ensures !MeansUnsent(maxAttempts, false, AuthRejected)
  {
    hide Got, IsValid, IsExecutable, ParseEmail, NoneAccepted, Deliver, InjectFaults, BothAboutToSend, FailedWith, Granting;
    var p, hash := SampleAction(true);
    var a := Granting(p, hash);
    var s := GotTwoAttempts(maxAttempts, p, hash);
    GrantingIsValid(p, hash);
    SecondAttemptFails(maxAttempts, a);
    assert s.exec.authorized by { BothAreAuthorized(maxAttempts, a); }
    s := GotExecution(maxAttempts, false, s, DoInjectFaults(0, Some(AuthError)));
    assert s.exec.authorized by { BothAreAuthorized(maxAttempts, a); }
    s := GotExecution(maxAttempts, false, s, DoDeliver(1));
    var t := GotFailed(maxAttempts, false, s, AuthFailure, AuthRejected);
    assert WouldAccept(t.exec, 0);
    SendIsAccepted(t.exec, 0);
    var u := GotExecution(maxAttempts, false, t, DoDeliver(0));
    StillFailed(t.exec, u.exec, KeyOf(a), AuthRejected);
  }

  lemma BothAreAuthorized(maxAttempts: nat, a: ApprovedAction)
    ensures BothAboutToSend(maxAttempts, a).authorized
    ensures InjectFaults(BothAboutToSend(maxAttempts, a), 0, Some(AuthError)).authorized
  {
  }

  lemma StillFailed(x: Execution, t: Execution, key: Key, reason: Reason)
    requires FailedWith(x, key, reason) && t.ledger == x.ledger
    ensures FailedWith(t, key, reason)
  {
  }

  // ---------- a race that completes its session without a delivery ----------

  function FirstRuns(n: nat): (runs: set<nat>)
    ensures forall r: nat :: r in runs <==> r < n
  {
    if n == 0 then {} else FirstRuns(n - 1) + {n - 1}
  }

  /** `n` calls race for the approved action; the first `k` have thrown, and nothing was claimed. */
  ghost predicate RacingAt(s: State, p: ProposedAction, hash: Text, n: nat, k: nat) {
    && s.up && s.exec.ledger == map[] && s.exec.accepted == [] && s.desk.approvals == ApprovedDesk(p, hash).approvals
    && s.desk.sessions == map[p.sessionId := AwaitingApproval]
    && s.desk.deciding == map[p.id := Racing(Granting(p, hash), FirstRuns(n))]
    && s.exec.runs.Keys == FirstRuns(n)
    && forall r :: 0 <= r < n ==> s.exec.runs[r] == Run(Granting(p, hash), RequireApproval, if r < k then Threw else Verifying)
  }

  lemma {:induction false} GotRacing(maxAttempts: nat, p: ProposedAction, hash: Text, n: nat) returns (s: State)
    requires IsExecutable(p, hash) && n > 0
    ensures Got(maxAttempts, true, s) && RacingAt(s, p, hash, n, 0)
  {
    GrantingIsValid(p, hash);
    hide Got, IsValid, IsExecutable;
    if n == 1 {
      s := GotApproved(maxAttempts, true, true, p, hash) by { IsHashed(p, hash); }
      s := GotHandling(maxAttempts, true, s, DoPolicyEnds(p.sessionId, AwaitingApproval));
      assert s.desk.sessions == map[p.sessionId := AwaitingApproval];
    } else {
      s := GotRacing(maxAttempts, p, hash, n - 1);
    }
    LaunchRaces(s, p, hash, n);
    GotNext(maxAttempts, true, s, Launches(p.id, n - 1, true));
    s := Next(s, Launches(p.id, n - 1, true));
  }

  lemma IsHashed(p: ProposedAction, hash: Text)
    requires IsExecutable(p, hash)
    ensures PayloadHashFor(p.content) == Success(hash)
  {
    hide PayloadHashFor, IsComplete;
  }

  lemma LaunchRaces(s: State, p: ProposedAction, hash: Text, n: nat)
    requires n > 0 && Granting(p, hash).supplied == Some(KeyOf(Granting(p, hash)))
    requires n == 1 ==> s.up && s.exec.ledger == map[] && s.exec.accepted == [] && s.exec.runs == map[]
                        && s.desk == ApprovedDesk(p, hash).(sessions := map[p.sessionId := AwaitingApproval])
    requires n > 1 ==> RacingAt(s, p, hash, n - 1, 0)
    ensures RacingAt(Next(s, Launches(p.id, n - 1, true)), p, hash, n, 0)
  {
    var t := Next(s, Launches(p.id, n - 1, true));
    assert FirstRuns(0) == {} && FirstRuns(n) == FirstRuns(n - 1) + {n - 1};
    assert MayLaunch(s.desk, s.exec.runs, p.id, n - 1, true);
    assert Launched(s.desk, p.id, n - 1, true).deciding == map[p.id := Racing(Granting(p, hash), FirstRuns(n))];
    assert t.desk.deciding == map[p.id := Racing(Granting(p, hash), FirstRuns(n))];
  }

  /** The ledger cannot be written: every call throws. */
  lemma {:induction false} GotAllThrown(maxAttempts: nat, s: State, p: ProposedAction, hash: Text, n: nat, k: nat) returns (t: State)
    requires Got(maxAttempts, true, s) && IsExecutable(p, hash) && RacingAt(s, p, hash, n, k) && k <= n
    ensures Got(maxAttempts, true, t) && RacingAt(t, p, hash, n, n)
    decreases n - k
  {
    if k == n {
      t := s;
    } else {
      ClaimThrows(s, p, hash, n, k);
      hide Got, IsExecutable, RacingAt, VerifyRun, ClaimKey;
      RacingIsUp(s, p, hash, n, k);
      t := GotExecution(maxAttempts, true, s, DoVerify(k));
      t := GotExecution(maxAttempts, true, t, DoClaim(k, false));
      t := GotAllThrown(maxAttempts, t, p, hash, n, k + 1);
    }
  }

  lemma RacingIsUp(s: State, p: ProposedAction, hash: Text, n: nat, k: nat)
    requires RacingAt(s, p, hash, n, k)
    ensures s.up
  {
  }

  lemma ClaimThrows(s: State, p: ProposedAction, hash: Text, n: nat, k: nat)
    requires IsExecutable(p, hash) && RacingAt(s, p, hash, n, k) && k < n
    ensures RacingAt(s.(exec := ClaimKey(VerifyRun(s.exec, s.desk.approvals, k), k, false)), p, hash, n, k + 1)
  {
    IsHashed(p, hash);
    GrantingIsValid(p, hash);
    hide PayloadHashFor, IsExecutable, IsValid;
    assert k in FirstRuns(n);
    assert Verified(s.desk.approvals, Granting(p, hash)) == Claiming;
    var x := VerifyRun(s.exec, s.desk.approvals, k);
    assert x.runs == s.exec.runs[k := Run(Granting(p, hash), RequireApproval, Claiming)];
    assert ClaimKey(x, k, false).runs == s.exec.runs[k := Run(Granting(p, hash), RequireApproval, Threw)];
    assert ClaimKey(x, k, false).runs.Keys == FirstRuns(n);
  }

  lemma ThrownRaceCloses(s: State, p: ProposedAction, hash: Text, n: nat)
    requires RacingAt(s, p, hash, n, n) && Granting(p, hash).supplied == Some(KeyOf(Granting(p, hash)))
    requires Granting(p, hash).action == p
    ensures var t := s.(desk := ConcludeRace(s.desk, s.exec.runs, p.id));
      var step := Handles(DoCloseSession(p.id));
      && ClosesRace(t.desk, step, p.sessionId)
      && p.sessionId in t.desk.sessions && t.desk.sessions[p.sessionId] == AwaitingApproval && t.exec.accepted == []
      && p.sessionId in Next(t, step).desk.sessions && Next(t, step).desk.sessions[p.sessionId] == Completed
      && Next(t, step).exec.accepted == []
  {
    var t := s.(desk := ConcludeRace(s.desk, s.exec.runs, p.id));
    assert t.desk.deciding == map[p.id := Closing(p.sessionId, Completed, ByRace)];
  }

  /** However many calls race, a step can complete the awaiting session although nothing was ever accepted. */
  lemma RaceCompletesUndelivered(maxAttempts: nat, n: nat) returns (s: State, step: Step, session: string)
    requires n > 0
    ensures Got(maxAttempts, true, s) && ClosesRace(s.desk, step, session)
    ensures session in s.desk.sessions && s.desk.sessions[session] == AwaitingApproval && s.exec.accepted == []
    ensures var t := Next(s, step); session in t.desk.sessions && t.desk.sessions[session] == Completed && t.exec.accepted == []
  {
    hide Got, IsExecutable, IsValid, Next, RacingAt, ConcludeRace, ClosesRace, ParseEmail, Granting, KeyOf;
    var p, hash := SampleAction(true);
    s := GotRacing(maxAttempts, p, hash, n);
    s := GotAllThrown(maxAttempts, s, p, hash, n, 0);
    GrantingIsValid(p, hash);
    ThrownRaceCloses(s, p, hash, n);
    RacingIsUp(s, p, hash, n, n);
    s := GotHandling(maxAttempts, true, s, DoConcludeRace(p.id));
    step, session := Handles(DoCloseSession(p.id)), p.sessionId;
  }
}
