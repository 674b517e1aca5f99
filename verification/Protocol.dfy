/**
 * Protected execution as one step function. Any number of `run` calls, executor attempts (orphaned ones
 * included) and approval decisions are in flight at once; every await is a point between two steps, a
 * timeout or an I/O error may happen at any such point, and a crash may happen anywhere. A step that is
 * not enabled changes nothing, so every sequence of steps is a run.
 */
module Protocol {
  import opened Wrappers
  import opened JsonText
  import opened Actions
  import opened EmailService
  import opened ExecutionLedger
  import opened Recovery
  import A = ApprovalService

  const SEND_EMAIL: Text := [0x53, 0x45, 0x4E, 0x44, 0x5F, 0x45, 0x4D, 0x41, 0x49, 0x4C]

  datatype Decision = AutoExecute | RequireApproval | RecommendOnly | DenyAction

  /** An action handed to the executor; `supplied` is its idempotency key, `None` for the empty string. */
  datatype ApprovedAction = ApprovedAction(action: ProposedAction, payloadHash: Text, supplied: Option<Key>)

  function KeyOf(a: ApprovedAction): Key {
    Key(a.action.sessionId, a.action.id, a.payloadHash)
  }

  // ---------- in-flight work ----------

  /** Where a `run` call stands between two awaits. */
  datatype Phase =
    | Verifying
    | Claiming
    | Lost                               // the claim found a record; about to read it
    | Recovering(next: nat)              // won the claim; about to begin attempt `next`
    | Attempting(attempt: nat, id: nat)  // waiting for attempt `attempt`, whose handle is `id`
    | Recording(outcome: Outcome)        // about to write the outcome to the ledger
    | Returned(outcome: Outcome)
    | Threw

  datatype Run = Run(action: ApprovedAction, decision: Decision, phase: Phase)

  /** Where one `execute` call stands; it goes on even when its run no longer waits for it. */
  datatype Stage =
    | Looking
    | Delivering(key: Key)                 // no receipt is stored under `key`; about to send
    | Saving(key: Key, messageId: nat)     // sent; about to store the receipt
    | Done(result: AttemptResult)

  datatype Attempt = Attempt(run: nat, action: ApprovedAction, stage: Stage)

  datatype Choice = Approving | Denying

  /** Where one `decideApproval` call stands. */
  datatype Deciding =
    | Begun(choice: Choice)
    | HasApproval(choice: Choice, record: A.ApprovalRecord)
    | HasSession(choice: Choice, record: A.ApprovalRecord)
    | SavingDecision(record: A.ApprovalRecord, subject: ProposedAction)
    | Degrading(session: string)
    | Granted(action: ApprovedAction)
    | Waiting(action: ApprovedAction, run: nat)
    | Racing(action: ApprovedAction, runs: set<nat>)
    | Closing(session: string, status: SessionStatus, how: Closure)

  datatype SessionStatus = Running | AwaitingApproval | Degraded | Completed | FailedSession

  /** On what grounds a session is closed; only a completed one is remembered in `closed`. */
  datatype Closure = ByExecution(key: Key) | ByRace | ByReconciliation | ByFailure

  // ---------- the whole state ----------

  /** What the outside world accepted, with the action that caused it. */
  datatype Accepted = Accepted(action: ApprovedAction, request: EmailRequest, messageId: nat)

  datatype Win = Win(key: Key, run: nat)

  datatype Close = Close(session: string, how: Closure)

  /** The execution ledger's file, the stored receipts, and the work in flight. */
  datatype Execution = Execution(
    maxAttempts: nat,
    authorized: bool,                   // the executor's token is the one the service expects, throughout a process
    ledger: Ledger,                     // durable
    receipts: map<Key, nat>,            // durable
    service: Service,
    owner: map<Key, nat>,               // the run of this process that won the key
    runs: map<nat, Run>,
    attempts: map<nat, Attempt>,
    accepted: seq<Accepted>,            // history
    wins: seq<Win>)                     // history

  /** The relay store's actions, approvals and sessions, and the decisions in flight. */
  datatype Desk = Desk(
    actions: seq<ProposedAction>,                // durable
    approvals: map<string, A.ApprovalRecord>,    // durable
    sessions: map<string, SessionStatus>,        // durable
    deciding: map<string, Deciding>,
    granted: seq<ProposedAction>,                // history: each action whose pending approval became approved
    closed: set<Close>)                          // history: sessions that left for `completed`

  datatype State = State(up: bool, exec: Execution, desk: Desk)

  function Initial(maxAttempts: nat, authorized: bool): State {
    State(true,
          Execution(maxAttempts, authorized, map[], map[], FRESH_SERVICE, map[], map[], map[], [], []),
          Desk([], map[], map[], map[], [], {}))
  }

  // ---------- run calls ----------

  /** The checks before the first await of `run`. */
  function Admitted(a: ApprovedAction, decision: Decision): Phase {
    if decision == DenyAction || decision == RecommendOnly then Threw
    else if a.action.content.kind == SEND_EMAIL && decision == AutoExecute then Returned(GiveUp(ProtectedActionRequiresApproval))
    else if a.supplied.Some? && a.supplied.value != KeyOf(a) then Returned(GiveUp(IdempotencyKeyMismatch))
    else if decision == RequireApproval then Verifying
    else Claiming
  }

  /** `isSatisfied`: the stored approval against the recomputed hash. */
  function Verified(approvals: map<string, A.ApprovalRecord>, a: ApprovedAction): Phase {
    if a.action.id !in approvals then Returned(GiveUp(NoApproval))
    else
      var approval := approvals[a.action.id];
      match approval.status
      case Denied => Returned(GiveUp(Reason.ApprovalDenied))
      case Invalidated => Returned(GiveUp(Reason.ApprovalInvalidated))
      case Pending => Returned(GiveUp(NoApproval))
      case Approved =>
        match PayloadHashFor(a.action.content)
        case Failure(_) => Threw
        case Success(current) =>
          if approval.payloadHash != current || a.payloadHash != current then Returned(GiveUp(HashMismatch)) else Claiming
  }

  function Moved(runs: map<nat, Run>, r: nat, phase: Phase): map<nat, Run>
    requires r in runs
  {
    runs[r := runs[r].(phase := phase)]
  }

  function StartRun(x: Execution, r: nat, a: ApprovedAction, decision: Decision): Execution {
    if r in x.runs then x
    else x.(runs := x.runs[r := Run(a, decision, Admitted(a, decision))])
  }

  function VerifyRun(x: Execution, approvals: map<string, A.ApprovalRecord>, r: nat): Execution {
    if r !in x.runs || x.runs[r].phase != Verifying then x
    else x.(runs := Moved(x.runs, r, Verified(approvals, x.runs[r].action)))
  }

  /** One queued ledger mutation: the compare-and-set, written and published, or not at all. */
  function ClaimKey(x: Execution, r: nat, writes: bool): Execution {
    if r !in x.runs || x.runs[r].phase != Claiming then x
    else
      var key := KeyOf(x.runs[r].action);
      var won := writes && key !in x.ledger;
      x.(runs := Moved(x.runs, r, if won then Recovering(1) else if writes then Lost else Threw),
         ledger := if won then Claimed(x.ledger, key) else x.ledger,
         owner := if won then x.owner[key := r] else x.owner,
         wins := if won then x.wins + [Win(key, r)] else x.wins)
  }

  /** What a caller that lost the claim returns. */
  function Existing(ledger: Ledger, key: Key): Outcome {
    if key !in ledger then Outcome(InProgress, false)
    else
      var record := ledger[key];
      if record.status == Succeeded && record.result.Some? then Outcome(record.result.value, false)
      else if record.status == Failed then
        Outcome(if record.result.Some? then record.result.value else Undelivered(Unspecified), true)
      else Outcome(InProgress, false)
  }

  function ReadExisting(x: Execution, r: nat): Execution {
    if r !in x.runs || x.runs[r].phase != Lost then x
    else x.(runs := Moved(x.runs, r, Returned(Existing(x.ledger, KeyOf(x.runs[r].action)))))
  }

  function BeginAttempt(x: Execution, r: nat, id: nat): Execution {
    if r !in x.runs || !x.runs[r].phase.Recovering? || id in x.attempts then x
    else
      var n := x.runs[r].phase.next;
      var more := n <= x.maxAttempts;
      x.(runs := Moved(x.runs, r, if more then Attempting(n, id) else Recording(GiveUp(RetriesExhausted))),
         attempts := if more then x.attempts[id := Attempt(r, x.runs[r].action, Looking)] else x.attempts)
  }

  function PhaseAfter(result: AttemptResult, attempt: nat, maxAttempts: nat): Phase {
    match Followed(result, attempt, maxAttempts)
    case None => Recovering(attempt + 1)
    case Some(outcome) => Recording(outcome)
  }

  /** The awaited attempt has settled first. */
  function SettleAttempt(x: Execution, r: nat): Execution {
    if r !in x.runs || !x.runs[r].phase.Attempting? then x
    else
      var Attempting(n, id) := x.runs[r].phase;
      if id !in x.attempts || !x.attempts[id].stage.Done? then x
      else x.(runs := Moved(x.runs, r, PhaseAfter(x.attempts[id].stage.result, n, x.maxAttempts)))
  }

  /** The timer has fired first; the attempt lives on as an orphan. */
  function TimeOut(x: Execution, r: nat): Execution {
    if r !in x.runs || !x.runs[r].phase.Attempting? then x
    else x.(runs := Moved(x.runs, r, PhaseAfter(Failure(TransientFailure), x.runs[r].phase.attempt, x.maxAttempts)))
  }

  function FinalRecord(claimed: ExecutionRecord, outcome: Outcome): ExecutionRecord {
    claimed.(status := if outcome.terminal then Failed else Succeeded,
             attempts := claimed.attempts + 1,
             result := Some(outcome.result))
  }

  /** The write-back: the record the claim returned, completed by the outcome. */
  function RecordOutcome(x: Execution, r: nat, writes: bool): Execution {
    if r !in x.runs || !x.runs[r].phase.Recording? then x
    else
      var key, outcome := KeyOf(x.runs[r].action), x.runs[r].phase.outcome;
      x.(runs := Moved(x.runs, r, if writes then Returned(outcome) else Threw),
         ledger := if writes then x.ledger[key := FinalRecord(NewExecutingRecord(key), outcome)] else x.ledger)
  }

  // ---------- executor attempts ----------

  function Staged(attempts: map<nat, Attempt>, id: nat, stage: Stage): map<nat, Attempt>
    requires id in attempts
  {
    attempts[id := attempts[id].(stage := stage)]
  }

  /** `validate`: type, hash, completeness, idempotency key. */
  predicate IsValid(a: ApprovedAction) {
    && a.action.content.kind == SEND_EMAIL
    && PayloadHashFor(a.action.content) == Success(a.payloadHash)
    && IsComplete(a.action.content.payload)
    && a.supplied.Some?
  }

  /** Validation, then the receipt lookup. */
  function StageAfterLook(receipts: map<Key, nat>, a: ApprovedAction): Stage {
    if !IsValid(a) then Done(Failure(UnknownFailure))
    else if a.supplied.value in receipts then Done(Success(receipts[a.supplied.value]))
    else Delivering(a.supplied.value)
  }

  function Look(x: Execution, id: nat): Execution {
    if id !in x.attempts || x.attempts[id].stage != Looking then x
    else x.(attempts := Staged(x.attempts, id, StageAfterLook(x.receipts, x.attempts[id].action)))
  }

  function StageAfterSend(key: Key, sent: Result<nat, SendError>): Stage {
    match sent
    case Failure(AuthError) => Done(Failure(AuthFailure))
    case Failure(OtherError) => Done(Failure(TransientFailure))
    case Success(messageId) => Saving(key, messageId)
  }

  /** The strict schema, then one await-free `send`. */
  function Deliver(x: Execution, id: nat, authorized: bool): Execution {
    if id !in x.attempts || !x.attempts[id].stage.Delivering? then x
    else
      var a, key := x.attempts[id].action, x.attempts[id].stage.key;
      var email := ParseEmail(a.action.content.payload);
      if email.None? then x.(attempts := Staged(x.attempts, id, Done(Failure(ValidationFailure))))
      else Transmit(x, id, authorized, EmailRequest(a.action.sessionId, a.action.id, email.value))
  }

  function Transmit(x: Execution, id: nat, authorized: bool, request: EmailRequest): Execution
    requires id in x.attempts && x.attempts[id].stage.Delivering?
  {
    var (service, sent) := Sent(x.service, authorized, request);
    x.(attempts := Staged(x.attempts, id, StageAfterSend(x.attempts[id].stage.key, sent)),
       service := service,
       accepted := if Accepts(x.service, authorized, request)
                   then x.accepted + [Accepted(x.attempts[id].action, request, x.service.counter + 1)] else x.accepted)
  }

  function SaveReceipt(x: Execution, id: nat, writes: bool): Execution {
    if id !in x.attempts || !x.attempts[id].stage.Saving? then x
    else
      var Saving(key, messageId) := x.attempts[id].stage;
      x.(attempts := Staged(x.attempts, id, Done(if writes then Success(messageId) else Failure(UnknownFailure))),
         receipts := if writes then x.receipts[key := messageId] else x.receipts)
  }

  // ---------- sessions and proposed actions ----------

  function Upserted(actions: seq<ProposedAction>, a: ProposedAction): seq<ProposedAction> {
    if actions == [] then [a]
    else if actions[0].id == a.id then [a] + actions[1..]
    else [actions[0]] + Upserted(actions[1..], a)
  }

  function FindAction(actions: seq<ProposedAction>, id: string): Option<ProposedAction> {
    if actions == [] then None
    else if actions[0].id == id then Some(actions[0])
    else FindAction(actions[1..], id)
  }

  function FirstAction(actions: seq<ProposedAction>, session: string): Option<ProposedAction> {
    if actions == [] then None
    else if actions[0].sessionId == session then Some(actions[0])
    else FirstAction(actions[1..], session)
  }

  function OpenSession(d: Desk, session: string): Desk {
    if session in d.sessions then d else d.(sessions := d.sessions[session := Running])
  }

  /** An agent run stores, or stores again, an action it proposes. */
  function ProposeAction(d: Desk, a: ProposedAction): Desk {
    d.(actions := Upserted(d.actions, a))
  }

  /** Policy asks for an approval, once per action. */
  function RequestApproval(d: Desk, id: string): Desk {
    var found := FindAction(d.actions, id);
    if id in d.approvals || found.None? || PayloadHashFor(found.value.content).Failure? then d
    else
      d.(approvals := d.approvals[id :=
           A.ApprovalRecord(id, found.value.sessionId, PayloadHashFor(found.value.content).value, A.Pending)])
  }

  /** The one save with which policy ends; it overwrites what a quick decision may have saved before. */
  function PolicyEnds(d: Desk, session: string, status: SessionStatus): Desk {
    if session !in d.sessions || d.sessions[session] == AwaitingApproval || status == Running then d
    else d.(sessions := d.sessions[session := status])
  }

  // ---------- approval decisions ----------

  /** A decision call goes on, or ends (`None`) so that its id may be decided again. */
  function Advanced(deciding: map<string, Deciding>, id: string, next: Option<Deciding>): map<string, Deciding> {
    match next
    case None => deciding - {id}
    case Some(d) => deciding[id := d]
  }

  function BeginDecision(d: Desk, id: string, choice: Choice): Desk {
    if id in d.deciding then d
    else d.(deciding := Advanced(d.deciding, id, Some(Begun(choice))))
  }

  function ReadApproval(d: Desk, id: string): Desk {
    if id !in d.deciding || !d.deciding[id].Begun? then d
    else
      var pending := id in d.approvals && d.approvals[id].status == A.Pending;
      d.(deciding := Advanced(d.deciding, id,
           if pending then Some(HasApproval(d.deciding[id].choice, d.approvals[id])) else None))
  }

  function ReadSession(d: Desk, id: string): Desk {
    if id !in d.deciding || !d.deciding[id].HasApproval? then d
    else
      var HasApproval(choice, record) := d.deciding[id];
      var open := record.sessionId in d.sessions && d.sessions[record.sessionId] !in {Completed, FailedSession};
      d.(deciding := Advanced(d.deciding, id, if open then Some(HasSession(choice, record)) else None))
  }

  /** What is to be saved for the action now stored: invalidated when its hash has changed. */
  function DecisionOn(found: Option<ProposedAction>, choice: Choice, record: A.ApprovalRecord): Option<Deciding> {
    if found.None? then None
    else
      match PayloadHashFor(found.value.content)
      case Failure(_) => None
      case Success(hash) =>
        var status := if record.payloadHash != hash then A.Invalidated else if choice == Denying then A.Denied else A.Approved;
        Some(SavingDecision(record.(status := status), found.value))
  }

  function ReadAction(d: Desk, id: string): Desk {
    if id !in d.deciding || !d.deciding[id].HasSession? then d
    else
      var HasSession(choice, record) := d.deciding[id];
      d.(deciding := Advanced(d.deciding, id, DecisionOn(FindAction(d.actions, record.actionId), choice, record)))
  }

  /** The action as it is executed once its approval is saved. */
  function GrantedAction(record: A.ApprovalRecord, subject: ProposedAction): ApprovedAction {
    ApprovedAction(subject, record.payloadHash, Some(Key(record.sessionId, subject.id, record.payloadHash)))
  }

  function AfterSaving(record: A.ApprovalRecord, subject: ProposedAction): Option<Deciding> {
    match record.status
    case Denied => Some(Degrading(record.sessionId))
    case Approved => Some(Granted(GrantedAction(record, subject)))
    case _ => None
  }

  function SaveDecision(d: Desk, id: string, writes: bool): Desk {
    if id !in d.deciding || !d.deciding[id].SavingDecision? then d
    else
      var SavingDecision(record, subject) := d.deciding[id];
      d.(deciding := Advanced(d.deciding, id, if writes then AfterSaving(record, subject) else None),
         approvals := if writes then d.approvals[id := record] else d.approvals,
         granted := if writes && record.status == A.Approved then d.granted + [subject] else d.granted)
  }

  function Degrade(d: Desk, id: string, writes: bool): Desk {
    if id !in d.deciding || !d.deciding[id].Degrading? then d
    else
      d.(deciding := Advanced(d.deciding, id, None),
         sessions := if writes then d.sessions[d.deciding[id].session := Degraded] else d.sessions)
  }

  /** Whether a granted decision may start run `r`, alone or as one more of a race. */
  predicate MayLaunch(d: Desk, runs: map<nat, Run>, id: string, r: nat, race: bool) {
    && id in d.deciding && r !in runs
    && (d.deciding[id].Granted? || (race && d.deciding[id].Racing?))
  }

  /** `decideApproval` starts its run; in the duplicate-approval scenario it starts several, the race being on from the first. */
  function Launched(d: Desk, id: string, r: nat, race: bool): Desk
    requires id in d.deciding && (d.deciding[id].Granted? || d.deciding[id].Racing?)
  {
    var a := d.deciding[id].action;
    var others := if d.deciding[id].Racing? then d.deciding[id].runs else {};
    d.(deciding := Advanced(d.deciding, id, Some(if race then Racing(a, others + {r}) else Waiting(a, r))))
  }

  /** The session that an executed decision belongs to. */
  function SessionOf(a: ApprovedAction): string {
    if a.supplied.Some? then a.supplied.value.sessionId else a.action.sessionId
  }

  function Failing(a: ApprovedAction): Deciding {
    Closing(SessionOf(a), FailedSession, ByFailure)
  }

  /** What `decideApproval` does once its run has ended; while it has not, it keeps waiting. */
  function AfterRun(a: ApprovedAction, r: nat, phase: Phase): Option<Deciding> {
    if phase.Threw? then Some(Failing(a))
    else if !phase.Returned? then Some(Waiting(a, r))
    else if phase.outcome.terminal then Some(Failing(a))
    else if phase.outcome.result.Delivered? then Some(Closing(SessionOf(a), Completed, ByExecution(KeyOf(a))))
    else None
  }

  function Conclude(d: Desk, runs: map<nat, Run>, id: string): Desk {
    if id !in d.deciding || !d.deciding[id].Waiting? || d.deciding[id].run !in runs then d
    else
      var Waiting(a, r) := d.deciding[id];
      d.(deciding := Advanced(d.deciding, id, AfterRun(a, r, runs[r].phase)))
  }

  predicate AllEnded(runs: map<nat, Run>, racers: set<nat>) {
    forall r :: r in racers ==> r in runs && (runs[r].phase.Returned? || runs[r].phase.Threw?)
  }

  function ConcludeRace(d: Desk, runs: map<nat, Run>, id: string): Desk {
    if id !in d.deciding || !d.deciding[id].Racing? || !AllEnded(runs, d.deciding[id].runs) then d
    else d.(deciding := Advanced(d.deciding, id, Some(Closing(SessionOf(d.deciding[id].action), Completed, ByRace))))
  }

  /** An I/O error after the grant lands the session in `failed`. */
  function AfterError(stage: Deciding): Deciding {
    match stage
    case Granted(a) => Failing(a)
    case Waiting(a, _) => Failing(a)
    case Closing(session, _, ByExecution(_)) => Closing(session, FailedSession, ByFailure)
    case _ => stage
  }

  function FailDecision(d: Desk, id: string): Desk {
    if id !in d.deciding then d
    else d.(deciding := Advanced(d.deciding, id, Some(AfterError(d.deciding[id]))))
  }

  function CloseSession(d: Desk, id: string): Desk {
    if id !in d.deciding || !d.deciding[id].Closing? then d
    else
      var Closing(session, status, how) := d.deciding[id];
      d.(deciding := Advanced(d.deciding, id, None),
         sessions := d.sessions[session := status],
         closed := if status == Completed then d.closed + {Close(session, how)} else d.closed)
  }

  /** An I/O error ends the call early. */
  function AbandonDecision(d: Desk, id: string): Desk {
    d.(deciding := Advanced(d.deciding, id, None))
  }

  // ---------- faults, crash and restart ----------

  function InjectFaults(x: Execution, transient: nat, error: Option<SendError>): Execution {
    x.(service := x.service.(
         transientFailures := transient,
         errorQueue := x.service.errorQueue + if error.Some? then [error.value] else []))
  }

  /** The process dies: the files stay, everything in memory goes. */
  function CrashedExecution(x: Execution): Execution {
    x.(service := FRESH_SERVICE, owner := map[], runs := map[], attempts := map[])
  }

  /** A new process, with its own token, loads the ledger. */
  function LoadedExecution(x: Execution, authorized: bool): Execution {
    x.(ledger := Reclaimed(x.ledger), authorized := authorized)
  }

  ghost predicate HasReceipt(receipts: map<Key, nat>, session: string) {
    exists key :: key in receipts && key.sessionId == session
  }

  /** The first action stored for the session carries a saved approval. */
  predicate FirstIsApproved(d: Desk, session: string) {
    var first := FirstAction(d.actions, session);
    first.Some? && first.value.id in d.approvals && d.approvals[first.value.id].status == A.Approved
  }

  /** `initialize` on one session: interrupted runs fail, half-done approvals follow the stored receipts. */
  ghost function Reconciled(d: Desk, receipts: map<Key, nat>, session: string): SessionStatus
    requires session in d.sessions
  {
    match d.sessions[session]
    case Running => FailedSession
    case AwaitingApproval =>
      if !FirstIsApproved(d, session) then AwaitingApproval
      else if HasReceipt(receipts, session) then Completed
      else FailedSession
    case other => other
  }

  /** The sessions that reconciliation moves from awaiting to completed. */
  ghost predicate Completes(d: Desk, receipts: map<Key, nat>, session: string) {
    session in d.sessions && d.sessions[session] == AwaitingApproval && Reconciled(d, receipts, session) == Completed
  }

  ghost function ReconcileSession(d: Desk, receipts: map<Key, nat>, session: string): Desk {
    if session !in d.sessions then d
    else
      d.(sessions := d.sessions[session := Reconciled(d, receipts, session)],
         closed := if Completes(d, receipts, session) then d.closed + {Close(session, ByReconciliation)} else d.closed)
  }

  /** `initialize` on all sessions. */
  ghost function ReconcileAll(d: Desk, receipts: map<Key, nat>): Desk {
    d.(sessions := map session | session in d.sessions :: Reconciled(d, receipts, session),
       closed := d.closed + set session | session in d.sessions && Completes(d, receipts, session) :: Close(session, ByReconciliation))
  }

  // ---------- steps and runs ----------

  /** Steps of `run` calls and executor attempts. */
  datatype ExecutionStep =
    | DoVerify(run: nat)
    | DoClaim(run: nat, writes: bool)
    | DoReadExisting(run: nat)
    | DoBeginAttempt(run: nat, attempt: nat)
    | DoSettle(run: nat)
    | DoTimeOut(run: nat)
    | DoRecord(run: nat, writes: bool)
    | DoLook(attempt: nat)
    | DoDeliver(attempt: nat)
    | DoSaveReceipt(attempt: nat, writes: bool)
    | DoInjectFaults(transient: nat, error: Option<SendError>)

  /** Steps of sessions, proposed actions and approval decisions. */
  datatype DeskStep =
    | DoOpenSession(session: string)
    | DoProposeAction(proposed: ProposedAction)
    | DoRequestApproval(id: string)
    | DoPolicyEnds(session: string, status: SessionStatus)
    | DoBeginDecision(id: string, choice: Choice)
    | DoReadApproval(id: string)
    | DoReadSession(id: string)
    | DoReadAction(id: string)
    | DoSaveDecision(id: string, writes: bool)
    | DoDegrade(id: string, writes: bool)
    | DoConclude(id: string)
    | DoConcludeRace(id: string)
    | DoFailDecision(id: string)
    | DoCloseSession(id: string)
    | DoAbandonDecision(id: string)

  datatype Step =
    | Executes(step: ExecutionStep)
    | Handles(handling: DeskStep)
    | Calls(run: nat, action: ApprovedAction, decision: Decision)   // anyone may call `run`, with any action
    | Launches(id: string, run: nat, race: bool)                     // `decideApproval` calls it
    | Crashes
    | LoadsLedger
    | Reconciles(session: string)
    | Restarts(authorized: bool)

  function ExecutionNext(x: Execution, approvals: map<string, A.ApprovalRecord>, step: ExecutionStep): Execution {
    match step
    case DoVerify(r) => VerifyRun(x, approvals, r)
    case DoClaim(r, w) => ClaimKey(x, r, w)
    case DoReadExisting(r) => ReadExisting(x, r)
    case DoBeginAttempt(r, id) => BeginAttempt(x, r, id)
    case DoSettle(r) => SettleAttempt(x, r)
    case DoTimeOut(r) => TimeOut(x, r)
    case DoRecord(r, w) => RecordOutcome(x, r, w)
    case DoLook(id) => Look(x, id)
    case DoDeliver(id) => Deliver(x, id, x.authorized)
    case DoSaveReceipt(id, w) => SaveReceipt(x, id, w)
    case DoInjectFaults(t, e) => InjectFaults(x, t, e)
  }

  function DeskNext(d: Desk, runs: map<nat, Run>, step: DeskStep): Desk {
    match step
    case DoOpenSession(x) => OpenSession(d, x)
    case DoProposeAction(a) => ProposeAction(d, a)
    case DoRequestApproval(id) => RequestApproval(d, id)
    case DoPolicyEnds(x, st) => PolicyEnds(d, x, st)
    case DoBeginDecision(id, c) => BeginDecision(d, id, c)
    case DoReadApproval(id) => ReadApproval(d, id)
    case DoReadSession(id) => ReadSession(d, id)
    case DoReadAction(id) => ReadAction(d, id)
    case DoSaveDecision(id, w) => SaveDecision(d, id, w)
    case DoDegrade(id, w) => Degrade(d, id, w)
    case DoConclude(id) => Conclude(d, runs, id)
    case DoConcludeRace(id) => ConcludeRace(d, runs, id)
    case DoFailDecision(id) => FailDecision(d, id)
    case DoCloseSession(id) => CloseSession(d, id)
    case DoAbandonDecision(id) => AbandonDecision(d, id)
  }

  ghost function Next(s: State, step: Step): State {
    if !s.up then
      match step
      case LoadsLedger => s.(exec := LoadedExecution(s.exec, s.exec.authorized))
      case Reconciles(session) => s.(desk := ReconcileSession(s.desk, s.exec.receipts, session))
      case Restarts(authorized) => State(true, LoadedExecution(s.exec, authorized), ReconcileAll(s.desk, s.exec.receipts))
      case _ => s
    else
      match step
      case Executes(x) => s.(exec := ExecutionNext(s.exec, s.desk.approvals, x))
      case Handles(d) => s.(desk := DeskNext(s.desk, s.exec.runs, d))
      case Calls(r, a, decision) => s.(exec := StartRun(s.exec, r, a, decision))
      case Launches(id, r, race) =>
        if !MayLaunch(s.desk, s.exec.runs, id, r, race) then s
        else State(true, StartRun(s.exec, r, s.desk.deciding[id].action, RequireApproval), Launched(s.desk, id, r, race))
      case Crashes => State(false, CrashedExecution(s.exec), s.desk.(deciding := map[]))
      case _ => s
  }

  /** The state that a sequence of steps leads to. */
  ghost function After(s: State, steps: seq<Step>): State {
    if steps == [] then s else Next(After(s, steps[..|steps| - 1]), steps[|steps| - 1])
  }

  ghost predicate Reachable(s: State) {
    exists maxAttempts: nat, authorized: bool, steps: seq<Step> :: After(Initial(maxAttempts, authorized), steps) == s
  }
}
