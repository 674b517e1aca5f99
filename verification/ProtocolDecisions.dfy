/** Approval decisions from their beginning to their end: what was chosen, what it grants, and how sessions change status. */
module ProtocolDecisions {
  import opened Wrappers
  import opened JsonText
  import opened Actions
  import opened EmailService
  import opened ExecutionLedger
  import opened Recovery
  import opened Protocol
  import opened ProtocolInvariants
  import opened ProtocolTheorems
  import A = ApprovalService

  // ---------- the choice a decision was begun with ----------

  /** The decision in flight for `id` was begun with this choice, and has been in flight ever since. */
  ghost predicate BegunWith(s: State, steps: seq<Step>, id: string, choice: Choice) {
    && steps != [] && id in After(s, steps).desk.deciding
    && var before := steps[..|steps| - 1];
       if id in After(s, before).desk.deciding then BegunWith(s, before, id, choice)
       else steps[|steps| - 1] == Handles(DoBeginDecision(id, choice))
  }

  /** The status a decision gives to a pending approval, for the action it has read. */
  predicate StatusFits(record: A.ApprovalRecord, subject: ProposedAction, choice: Choice) {
    && (record.status == A.Invalidated <==> PayloadHashFor(subject.content) != Success(record.payloadHash))
    && (record.status == A.Denied ==> choice == Denying)
    && (record.status == A.Approved ==> choice == Approving)
    && record.status != A.Pending
  }

  /** What a decision begun with `choice` may have come to. */
  predicate Fits(stage: Deciding, choice: Choice) {
    match stage
    case Begun(c) => c == choice
    case HasApproval(c, _) => c == choice
    case HasSession(c, _) => c == choice
    case SavingDecision(record, subject) => StatusFits(record, subject, choice)
    case Degrading(_) => choice == Denying
    case _ => choice == Approving
  }

  lemma HandlingFits(d: Desk, runs: map<nat, Run>, step: DeskStep, id: string, choice: Choice)
    requires id in d.deciding && Fits(d.deciding[id], choice)
    ensures id in DeskNext(d, runs, step).deciding ==> Fits(DeskNext(d, runs, step).deciding[id], choice)
  {
    hide PayloadHashFor, Upserted, FindAction, GrantedAction, AllEnded;
  }

  lemma HandlingBegins(d: Desk, runs: map<nat, Run>, step: DeskStep, id: string)
    requires id !in d.deciding && id in DeskNext(d, runs, step).deciding
    ensures step.DoBeginDecision? && step.id == id && DeskNext(d, runs, step).deciding[id] == Begun(step.choice)
  {
    hide PayloadHashFor, Upserted, FindAction, GrantedAction, AllEnded, AfterRun, AfterError, DecisionOn, AfterSaving;
  }

  lemma NextFits(s: State, step: Step, id: string, choice: Choice)
    requires id in s.desk.deciding && Fits(s.desk.deciding[id], choice) && id in Next(s, step).desk.deciding
    ensures Fits(Next(s, step).desk.deciding[id], choice)
  {
    hide DeskNext, ExecutionNext, StartRun, Reclaimed, Reconciled, Completes, StatusFits;
    if s.up && step.Handles? {
      HandlingFits(s.desk, s.exec.runs, step.handling, id, choice);
    }
  }

  lemma NextBegins(s: State, step: Step, id: string)
    requires id !in s.desk.deciding && id in Next(s, step).desk.deciding
    ensures s.up && step.Handles? && step.handling.DoBeginDecision? && step.handling.id == id
    ensures Next(s, step).desk.deciding[id] == Begun(step.handling.choice)
  {
    hide DeskNext, ExecutionNext, StartRun, Reclaimed, Reconciled, Completes;
    if s.up && step.Handles? {
      HandlingBegins(s.desk, s.exec.runs, step.handling, id);
    }
  }

  /** Every decision in flight was begun with one choice, and has come to nothing that does not fit it. */
  lemma {:induction false} DecisionsFitTheirChoice(s: State, steps: seq<Step>, id: string) returns (choice: Choice)
    requires s.desk.deciding == map[] && id in After(s, steps).desk.deciding
    ensures BegunWith(s, steps, id, choice) && Fits(After(s, steps).desk.deciding[id], choice)
    ensures forall c :: BegunWith(s, steps, id, c) ==> c == choice
  {
    hide Next, Fits;
    var before, step := steps[..|steps| - 1], steps[|steps| - 1];
    if id in After(s, before).desk.deciding {
      choice := DecisionsFitTheirChoice(s, before, id);
      NextFits(After(s, before), step, id, choice);
    } else {
      NextBegins(After(s, before), step, id);
      choice := step.handling.choice;
      BegunFits(choice);
    }
  }

  lemma BegunFits(choice: Choice)
    ensures Fits(Begun(choice), choice)
  {
  }

  // ---------- what is granted ----------

  /** This step saves a decision begun with `choice`, which finds its approval pending and gives it `status`. */
  ghost predicate SavesDecision(s: State, t: State, id: string, subject: ProposedAction, status: A.ApprovalStatus) {
    && subject.id == id && id in s.desk.approvals && s.desk.approvals[id].status == A.Pending
    && t.desk.approvals == s.desk.approvals[id := s.desk.approvals[id].(status := status)]
    && (PayloadHashFor(subject.content) == Success(s.desk.approvals[id].payloadHash) <==> status != A.Invalidated)
  }

  /**
    * `granted` grows only by the decision on a pending approval that was begun as an approval, for an action whose present
    * hash is the approval's, and together with that approval.
    */
  lemma GrantsWereChosen(maxAttempts: nat, authorized: bool, steps: seq<Step>, step: Step)
    ensures var start := Initial(maxAttempts, authorized);
      var s := After(start, steps); var t := Next(s, step);
      t.desk.granted == s.desk.granted
      || exists id, subject ::
           && step == Handles(DoSaveDecision(id, true)) && BegunWith(start, steps, id, Approving)
           && t.desk.granted == s.desk.granted + [subject]
           && SavesDecision(s, t, id, subject, A.Approved)
  {
    var start := Initial(maxAttempts, authorized);
    var s := After(start, steps);
    InitiallyInv(maxAttempts, authorized);
    AfterKeepsInv(start, steps);
    hide After, BegunWith;
    if Next(s, step).desk.granted != s.desk.granted {
      var id, subject := GrantsArePendingApprovals(s, step);
      var choice := DecisionsFitTheirChoice(start, steps, id);
    }
  }

  /** Only the saving of an approved decision grants anything: one action, whose approval was pending. */
  lemma GrantsArePendingApprovals(s: State, step: Step) returns (id: string, subject: ProposedAction)
    requires Inv(s) && Next(s, step).desk.granted != s.desk.granted
    ensures step == Handles(DoSaveDecision(id, true)) && id in s.desk.deciding && s.desk.deciding[id].SavingDecision?
    ensures s.desk.deciding[id].record.status == A.Approved
    ensures Next(s, step).desk.granted == s.desk.granted + [subject]
    ensures SavesDecision(s, Next(s, step), id, subject, A.Approved)
  {
    hide PayloadHashFor, ClaimsInv, BindingInv, ResultsInv, SessionsInv, ApprovalsWereGranted, ExecutionNext, StartRun, Reclaimed;
    id := step.handling.id;
    assert StageInv(s.desk.approvals, id, s.desk.deciding[id]);
    subject := s.desk.deciding[id].subject;
  }

  /** A denial grants nothing and never gets as far as a run. */
  lemma DenialsLaunchNothing(maxAttempts: nat, authorized: bool, steps: seq<Step>, id: string)
    requires BegunWith(Initial(maxAttempts, authorized), steps, id, Denying)
    ensures var s := After(Initial(maxAttempts, authorized), steps);
      && id in s.desk.deciding
      && !s.desk.deciding[id].Granted? && !s.desk.deciding[id].Waiting? && !s.desk.deciding[id].Racing? && !s.desk.deciding[id].Closing?
      && (forall r, race :: Next(s, Launches(id, r, race)) == s)
      && (forall writes :: Next(s, Handles(DoSaveDecision(id, writes))).desk.granted == s.desk.granted)
  {
    hide After, BegunWith;
    var start := Initial(maxAttempts, authorized);
    assert id in After(start, steps).desk.deciding by { BegunIsInFlight(start, steps, id, Denying); }
    var choice := DecisionsFitTheirChoice(start, steps, id);
    hide PayloadHashFor, ExecutionNext, StartRun;
  }

  lemma BegunIsInFlight(s: State, steps: seq<Step>, id: string, choice: Choice)
    requires BegunWith(s, steps, id, choice)
    ensures id in After(s, steps).desk.deciding
  {
  }

  /**
    * A stored approval changes only when the decision on it is saved: it was pending, and becomes invalidated exactly when
    * the action read has another hash, else denied or approved as was chosen when the decision was begun.
    */
  lemma ApprovalsAreDecided(maxAttempts: nat, authorized: bool, steps: seq<Step>, step: Step, id: string)
    requires id in After(Initial(maxAttempts, authorized), steps).desk.approvals
    ensures var start := Initial(maxAttempts, authorized);
      var s := After(start, steps); var t := Next(s, step);
      && id in t.desk.approvals
      && (t.desk.approvals[id] != s.desk.approvals[id] ==>
           exists subject, choice ::
             && step == Handles(DoSaveDecision(id, true)) && BegunWith(start, steps, id, choice)
             && SavesDecision(s, t, id, subject, t.desk.approvals[id].status)
             && (t.desk.approvals[id].status == A.Denied ==> choice == Denying)
             && (t.desk.approvals[id].status == A.Approved ==> choice == Approving))
  {
    var start := Initial(maxAttempts, authorized);
    var s := After(start, steps);
    InitiallyInv(maxAttempts, authorized);
    AfterKeepsInv(start, steps);
    hide After, BegunWith;
    ApprovalStep(s, step, id);
    if Next(s, step).desk.approvals[id] != s.desk.approvals[id] {
      var choice := DecisionsFitTheirChoice(start, steps, id);
      SavedAsDecided(s, id, choice);
      assert SavesDecision(s, Next(s, step), id, s.desk.deciding[id].subject, Next(s, step).desk.approvals[id].status);
    }
  }

  lemma ApprovalStep(s: State, step: Step, id: string)
    requires Inv(s) && id in s.desk.approvals
    ensures id in Next(s, step).desk.approvals
    ensures Next(s, step).desk.approvals[id] != s.desk.approvals[id] ==>
              step == Handles(DoSaveDecision(id, true)) && s.up && id in s.desk.deciding && s.desk.deciding[id].SavingDecision?
  {
    hide PayloadHashFor, ClaimsInv, BindingInv, ResultsInv, SessionsInv, ApprovalsWereGranted, ExecutionNext, StartRun, Reclaimed;
    hide FindAction, Upserted, AfterRun, AfterError, DecisionOn, AfterSaving, AllEnded, GrantedAction, Reconciled, Completes;
  }

  lemma SavedAsDecided(s: State, id: string, choice: Choice)
    requires Inv(s) && s.up && id in s.desk.deciding && s.desk.deciding[id].SavingDecision? && Fits(s.desk.deciding[id], choice)
    ensures var t := Next(s, Handles(DoSaveDecision(id, true)));
      && SavesDecision(s, t, id, s.desk.deciding[id].subject, t.desk.approvals[id].status)
      && (t.desk.approvals[id].status == A.Denied ==> choice == Denying)
      && (t.desk.approvals[id].status == A.Approved ==> choice == Approving)
  {
    hide PayloadHashFor, ClaimsInv, BindingInv, ResultsInv, SessionsInv, ApprovalsWereGranted;
    assert StageInv(s.desk.approvals, id, s.desk.deciding[id]);
  }

  // ---------- a decision that nothing disturbs ----------

  lemma AfterNext(s: State, steps: seq<Step>, step: Step)
    ensures After(s, steps + [step]) == Next(After(s, steps), step)
  {
    assert (steps + [step])[..|steps|] == steps;
  }

  lemma Handled(s: State, steps: seq<Step>, d: DeskStep)
    requires After(s, steps).up
    ensures var t := After(s, steps);
      After(s, steps + [Handles(d)]) == t.(desk := DeskNext(t.desk, t.exec.runs, d))
  {
    hide After, DeskNext;
    AfterNext(s, steps, Handles(d));
  }

  /** One call of `decideApproval` up to its grant, with every save through; what is not its turn changes nothing. */
  function DecisionCall(id: string, choice: Choice): seq<Step> {
    [Handles(DoBeginDecision(id, choice)), Handles(DoReadApproval(id)), Handles(DoReadSession(id)), Handles(DoReadAction(id)),
     Handles(DoSaveDecision(id, true)), Handles(DoDegrade(id, true))]
  }

  /** The desk with the decision on `id` over. */
  function Ended(d: Desk, id: string): Desk {
    d.(deciding := d.deciding - {id})
  }

  /** The action stored under this id. */
  ghost predicate Stored(actions: seq<ProposedAction>, id: string, a: ProposedAction) {
    exists k :: 0 <= k < |actions| && actions[k] == a && a.id == id && forall j :: 0 <= j < k ==> actions[j].id != id
  }

  lemma {:induction false} FoundIsStored(actions: seq<ProposedAction>, id: string, a: ProposedAction)
    requires Stored(actions, id, a)
    ensures FindAction(actions, id) == Some(a)
  {
    if actions[0].id != id {
      var k :| 0 <= k < |actions| && actions[k] == a && a.id == id && forall j :: 0 <= j < k ==> actions[j].id != id;
      assert actions[1..][k - 1] == a;
      FoundIsStored(actions[1..], id, a);
    }
  }

  lemma {:induction false} MissingIsNotFound(actions: seq<ProposedAction>, id: string)
    requires forall k :: 0 <= k < |actions| ==> actions[k].id != id
    ensures FindAction(actions, id).None?
  {
    if actions != [] { MissingIsNotFound(actions[1..], id); }
  }

  /** Storing an action puts it in the place of the one with its id, or at the end. */
  lemma {:induction false} StoresInPlace(actions: seq<ProposedAction>, a: ProposedAction, k: nat)
    requires k <= |actions| && (forall j :: 0 <= j < k ==> actions[j].id != a.id) && (k < |actions| ==> actions[k].id == a.id)
    ensures Upserted(actions, a) == if k < |actions| then actions[k := a] else actions + [a]
  {
    if k > 0 {
      StoresInPlace(actions[1..], a, k - 1);
      assert actions == [actions[0]] + actions[1..];
    }
  }

  /** What sessions and policy do to the desk: open, store, ask once with the hash as it is, and end. */
  lemma PolicyStepsExactly(d: Desk, session: string, status: SessionStatus, id: string, a: ProposedAction)
    ensures OpenSession(d, session) == if session in d.sessions then d else d.(sessions := d.sessions[session := Running])
    ensures PolicyEnds(d, session, status)
         == if session in d.sessions && d.sessions[session] != AwaitingApproval && status != Running
            then d.(sessions := d.sessions[session := status]) else d
    ensures id in d.approvals ==> RequestApproval(d, id) == d
    ensures id !in d.approvals && a.id == id && Stored(d.actions, id, a) && PayloadHashFor(a.content).Success? ==>
              RequestApproval(d, id)
              == d.(approvals := d.approvals[id := A.ApprovalRecord(id, a.sessionId, PayloadHashFor(a.content).value, A.Pending)])
    ensures id !in d.approvals && (forall k :: 0 <= k < |d.actions| ==> d.actions[k].id != id) ==> RequestApproval(d, id) == d
  {
    hide PayloadHashFor, FindAction;
    if Stored(d.actions, id, a) { FoundIsStored(d.actions, id, a); }
    if forall k :: 0 <= k < |d.actions| ==> d.actions[k].id != id { MissingIsNotFound(d.actions, id); }
  }

  /** A save that fails, and an error before one, end the decision with nothing changed, so that it can be made again. */
  lemma FailedSavesEndTheDecision(d: Desk, runs: map<nat, Run>, id: string)
    requires id in d.deciding
    ensures d.deciding[id].SavingDecision? ==> DeskNext(d, runs, DoSaveDecision(id, false)) == Ended(d, id)
    ensures d.deciding[id].Degrading? ==> DeskNext(d, runs, DoDegrade(id, false)) == Ended(d, id)
    ensures DeskNext(d, runs, DoAbandonDecision(id)) == Ended(d, id)
  {
  }

  /** What `decideApproval` asks before it looks at the action. */
  predicate MayDecide(d: Desk, id: string) {
    && id !in d.deciding && id in d.approvals && d.approvals[id].status == A.Pending && d.approvals[id].actionId == id
    && d.approvals[id].sessionId in d.sessions && d.sessions[d.approvals[id].sessionId] !in {Completed, FailedSession}
  }

  lemma ReadsOfDecision(d: Desk, id: string, choice: Choice)
    requires MayDecide(d, id)
    ensures ReadSession(ReadApproval(BeginDecision(d, id, choice), id), id)
         == d.(deciding := d.deciding[id := HasSession(choice, d.approvals[id])])
  {
    var asked := ReadApproval(BeginDecision(d, id, choice), id);
    assert asked.deciding == d.deciding[id := HasApproval(choice, d.approvals[id])];
    assert ReadSession(asked, id).deciding == d.deciding[id := HasSession(choice, d.approvals[id])];
  }

  lemma DecisionReads(s: State, id: string, choice: Choice)
    requires s.up && MayDecide(s.desk, id)
    ensures var steps := [Handles(DoBeginDecision(id, choice)), Handles(DoReadApproval(id)), Handles(DoReadSession(id))];
      After(s, steps) == s.(desk := s.desk.(deciding := s.desk.deciding[id := HasSession(choice, s.desk.approvals[id])]))
  {
    hide After, BeginDecision, ReadApproval, ReadSession, MayDecide;
    ReadsOfDecision(s.desk, id, choice);
    FirstThree(s, id, choice);
  }

  /** The first three steps of the call, one after the other. */
  lemma FirstThree(s: State, id: string, choice: Choice)
    requires s.up
    ensures var third := [Handles(DoBeginDecision(id, choice)), Handles(DoReadApproval(id)), Handles(DoReadSession(id))];
      After(s, third) == s.(desk := ReadSession(ReadApproval(BeginDecision(s.desk, id, choice), id), id))
  {
    hide After, BeginDecision, ReadApproval, ReadSession;
    assert After(s, []) == s by { NoSteps(s); }
    var none: seq<Step> := [];
    assert none + [Handles(DoBeginDecision(id, choice))] == [Handles(DoBeginDecision(id, choice))];
    Handled(s, none, DoBeginDecision(id, choice));
    Handled(s, [Handles(DoBeginDecision(id, choice))], DoReadApproval(id));
    Handled(s, [Handles(DoBeginDecision(id, choice))] + [Handles(DoReadApproval(id))], DoReadSession(id));
    assert [Handles(DoBeginDecision(id, choice))] + [Handles(DoReadApproval(id))] + [Handles(DoReadSession(id))]
        == [Handles(DoBeginDecision(id, choice)), Handles(DoReadApproval(id)), Handles(DoReadSession(id))];
  }

  lemma NoSteps(s: State)
    ensures After(s, []) == s
  {
  }

  /** The reading of the action and both saves. */
  lemma DecisionSaves(d: Desk, runs: map<nat, Run>, id: string, choice: Choice, subject: ProposedAction)
    requires MayDecide(d, id) && FindAction(d.actions, id) == Some(subject) && PayloadHashFor(subject.content).Success?
    ensures var record := d.approvals[id];
      var read := ReadAction(d.(deciding := d.deciding[id := HasSession(choice, record)]), id);
      var t := Degrade(SaveDecision(read, id, true), id, true);
      && (PayloadHashFor(subject.content) != Success(record.payloadHash) ==>
           t == d.(approvals := d.approvals[id := record.(status := A.Invalidated)]))
      && (PayloadHashFor(subject.content) == Success(record.payloadHash) && choice == Denying ==>
           t == d.(approvals := d.approvals[id := record.(status := A.Denied)],
                   sessions := d.sessions[record.sessionId := Degraded]))
      && (PayloadHashFor(subject.content) == Success(record.payloadHash) && choice == Approving ==>
           t == d.(approvals := d.approvals[id := record.(status := A.Approved)],
                   granted := d.granted + [subject],
                   deciding := d.deciding[id := Granted(ApprovedAction(subject, record.payloadHash,
                                                          Some(Key(record.sessionId, subject.id, record.payloadHash))))]))
  {
    hide PayloadHashFor, FindAction;
    var record := d.approvals[id];
    var reading := d.(deciding := d.deciding[id := HasSession(choice, record)]);
    var read := ReadAction(reading, id);
    assert read.deciding == d.deciding[id := read.deciding[id]];
    var saved := SaveDecision(read, id, true);
    var t := Degrade(saved, id, true);
    assert saved.deciding == if id in saved.deciding then d.deciding[id := saved.deciding[id]] else d.deciding;
    assert t.deciding == if id in t.deciding then d.deciding[id := t.deciding[id]] else d.deciding;
  }

  /**
    * A decision on a pending approval of an open session, undisturbed: a changed action invalidates the approval whatever
    * was chosen; else a denial denies it and degrades the session, granting and running nothing; and an approval grants it,
    * ready to run under the approved hash and nothing else.
    */
  lemma UndisturbedDecision(s: State, id: string, choice: Choice, subject: ProposedAction)
    requires s.up && MayDecide(s.desk, id) && Stored(s.desk.actions, id, subject) && PayloadHashFor(subject.content).Success?
    ensures var d, record := s.desk, s.desk.approvals[id];
      var t := After(s, DecisionCall(id, choice));
      && t.up && t.exec == s.exec
      && (PayloadHashFor(subject.content) != Success(record.payloadHash) ==>
           t.desk == d.(approvals := d.approvals[id := record.(status := A.Invalidated)]))
      && (PayloadHashFor(subject.content) == Success(record.payloadHash) && choice == Denying ==>
           t.desk == d.(approvals := d.approvals[id := record.(status := A.Denied)],
                        sessions := d.sessions[record.sessionId := Degraded]))
      && (PayloadHashFor(subject.content) == Success(record.payloadHash) && choice == Approving ==>
           t.desk == d.(approvals := d.approvals[id := record.(status := A.Approved)],
                        granted := d.granted + [subject],
                        deciding := d.deciding[id := Granted(ApprovedAction(subject, record.payloadHash,
                                                               Some(Key(record.sessionId, id, record.payloadHash))))]))
  {
    hide After, PayloadHashFor, ReadAction, SaveDecision, Degrade;
    FoundIsStored(s.desk.actions, id, subject);
    DecisionReads(s, id, choice);
    DecisionSaves(s.desk, s.exec.runs, id, choice, subject);
    LastThree(s, id, choice);
    hide FindAction;
  }

  /** The last three steps of the call, one after the other. */
  lemma LastThree(s: State, id: string, choice: Choice)
    requires s.up
    requires var third := [Handles(DoBeginDecision(id, choice)), Handles(DoReadApproval(id)), Handles(DoReadSession(id))];
      After(s, third).up
    ensures var third := [Handles(DoBeginDecision(id, choice)), Handles(DoReadApproval(id)), Handles(DoReadSession(id))];
      var t := After(s, third);
      After(s, DecisionCall(id, choice)) == t.(desk := Degrade(SaveDecision(ReadAction(t.desk, id), id, true), id, true))
  {
    hide After, ReadAction, SaveDecision, Degrade;
    var third := [Handles(DoBeginDecision(id, choice)), Handles(DoReadApproval(id)), Handles(DoReadSession(id))];
    Handled(s, third, DoReadAction(id));
    Handled(s, third + [Handles(DoReadAction(id))], DoSaveDecision(id, true));
    Handled(s, third + [Handles(DoReadAction(id))] + [Handles(DoSaveDecision(id, true))], DoDegrade(id, true));
    assert DecisionCall(id, choice)
        == third + [Handles(DoReadAction(id))] + [Handles(DoSaveDecision(id, true))] + [Handles(DoDegrade(id, true))];
  }

  /** A call that is refused, by what it reads, leaves everything as it was. */
  lemma RefusedDecision(s: State, id: string, choice: Choice)
    requires s.up && Inv(s) && id !in s.desk.deciding
    requires !MayDecide(s.desk, id) || (forall k :: 0 <= k < |s.desk.actions| ==> s.desk.actions[k].id != id)
    ensures After(s, DecisionCall(id, choice)) == s
  {
    var record := if id in s.desk.approvals then s.desk.approvals[id] else A.ApprovalRecord(id, "", [], A.Denied);
    assert id in s.desk.approvals ==> record.actionId == id;
    hide After, Inv, BeginDecision, ReadApproval, ReadSession, ReadAction, SaveDecision, Degrade;
    FirstThree(s, id, choice);
    RefusedReads(s.desk, id, choice);
    LastThree(s, id, choice);
  }

  lemma RefusedReads(d: Desk, id: string, choice: Choice)
    requires id !in d.deciding && (id in d.approvals ==> d.approvals[id].actionId == id)
    requires !MayDecide(d, id) || (forall k :: 0 <= k < |d.actions| ==> d.actions[k].id != id)
    ensures var read := ReadSession(ReadApproval(BeginDecision(d, id, choice), id), id);
      Degrade(SaveDecision(ReadAction(read, id), id, true), id, true) == d
  {
    hide PayloadHashFor, FindAction;
    var begun := BeginDecision(d, id, choice);
    var asked := ReadApproval(begun, id);
    var read := ReadSession(asked, id);
    assert asked.deciding == if id in asked.deciding then d.deciding[id := HasApproval(choice, d.approvals[id])] else d.deciding;
    assert read.deciding == if id in read.deciding then d.deciding[id := HasSession(choice, d.approvals[id])] else d.deciding;
    if id in read.deciding {
      MissingIsNotFound(d.actions, id);
      assert ReadAction(read, id).deciding == d.deciding;
    }
  }

  // ---------- how a session changes its status ----------

  function StatusOf(d: Desk, session: string): Option<SessionStatus> {
    if session in d.sessions then Some(d.sessions[session]) else None
  }

  /**
    * The only steps that change the status of a session: it is opened as running; the end of a policy run gives it any status
    * but running, unless it awaits approval; a denial degrades it; a decision that ends closes it; and when a new process
    * starts, a session that was running has failed, and one that awaits an approval already given is completed if a receipt
    * of it is stored and has failed if none is.
    */
  lemma SessionsChangeByTheseSteps(s: State, step: Step, session: string)
    requires StatusOf(Next(s, step).desk, session) != StatusOf(s.desk, session)
    ensures var was, now := StatusOf(s.desk, session), StatusOf(Next(s, step).desk, session);
      || (s.up && step == Handles(DoOpenSession(session)) && was == None && now == Some(Running))
      || (s.up && now.Some? && now != Some(Running) && step == Handles(DoPolicyEnds(session, now.value))
          && was.Some? && was != Some(AwaitingApproval))
      || (s.up && exists id :: step == Handles(DoDegrade(id, true)) && id in s.desk.deciding
                               && s.desk.deciding[id] == Degrading(session) && now == Some(Degraded))
      || (s.up && exists id, how :: now.Some? && step == Handles(DoCloseSession(id)) && id in s.desk.deciding
                                    && s.desk.deciding[id] == Closing(session, now.value, how))
      || (!s.up && (step == Reconciles(session) || step.Restarts?)
          && ((was == Some(Running) && now == Some(FailedSession))
              || (was == Some(AwaitingApproval) && ApprovalIsGiven(s.desk, session)
                  && now == Some(if ReceiptIsStored(s.exec.receipts, session) then Completed else FailedSession))))
  {
    hide ExecutionNext, StartRun, LoadedExecution, Upserted, DecisionOn, FindAction, AfterRun, AfterError, AllEnded, PayloadHashFor,
      ApprovalIsGiven, ReceiptIsStored, FirstIsApproved, HasReceipt;
    GivenIsFirst(s.desk, session);
    assert HasReceipt(s.exec.receipts, session) <==> ReceiptIsStored(s.exec.receipts, session) by { ReceiptsAgree(s.exec.receipts, session); }
    if s.up && step.Handles? && step.handling.DoCloseSession? {
      assert s.desk.deciding[step.handling.id] == Closing(session, Next(s, step).desk.sessions[session], s.desk.deciding[step.handling.id].how);
    }
  }

  /** The session's first action carries a stored approval that is approved. */
  ghost predicate ApprovalIsGiven(d: Desk, session: string) {
    exists k :: 0 <= k < |d.actions| && d.actions[k].sessionId == session
      && (forall j :: 0 <= j < k ==> d.actions[j].sessionId != session)
      && d.actions[k].id in d.approvals && d.approvals[d.actions[k].id].status == A.Approved
  }

  ghost predicate ReceiptIsStored(receipts: map<Key, nat>, session: string) {
    exists key :: key in receipts && key.sessionId == session
  }

  lemma ReceiptsAgree(receipts: map<Key, nat>, session: string)
    ensures HasReceipt(receipts, session) <==> ReceiptIsStored(receipts, session)
  {
  }

  lemma {:induction false} FirstActionIsFirst(actions: seq<ProposedAction>, session: string) returns (k: nat)
    ensures FirstAction(actions, session).None? ==> forall j :: 0 <= j < |actions| ==> actions[j].sessionId != session
    ensures FirstAction(actions, session).Some? ==>
              && k < |actions| && actions[k] == FirstAction(actions, session).value && actions[k].sessionId == session
              && forall j :: 0 <= j < k ==> actions[j].sessionId != session
  {
    k := 0;
    if actions != [] && actions[0].sessionId != session {
      var i := FirstActionIsFirst(actions[1..], session);
      k := i + 1;
      assert forall j :: 0 < j < |actions| ==> actions[j] == actions[1..][j - 1];
    }
  }

  lemma GivenIsFirst(d: Desk, session: string)
    ensures FirstIsApproved(d, session) <==> ApprovalIsGiven(d, session)
  {
    var k := FirstActionIsFirst(d.actions, session);
    hide FirstAction;
    if ApprovalIsGiven(d, session) {
      var i :| 0 <= i < |d.actions| && d.actions[i].sessionId == session
        && (forall j :: 0 <= j < i ==> d.actions[j].sessionId != session)
        && d.actions[i].id in d.approvals && d.approvals[d.actions[i].id].status == A.Approved;
    }
  }

  // ---------- how a granted decision ends ----------

  function Closed(d: Desk, id: string, session: string, status: SessionStatus): Desk {
    Ended(d, id).(sessions := d.sessions[session := status])
  }

  lemma TwoHandled(s: State, first: DeskStep, second: DeskStep)
    requires s.up
    ensures After(s, [Handles(first), Handles(second)])
         == s.(desk := DeskNext(DeskNext(s.desk, s.exec.runs, first), s.exec.runs, second))
  {
    hide After, DeskNext;
    assert After(s, []) == s by { NoSteps(s); }
    var none: seq<Step> := [];
    assert none + [Handles(first)] == [Handles(first)];
    assert [Handles(first)] + [Handles(second)] == [Handles(first), Handles(second)];
    Handled(s, none, first);
    Handled(s, [Handles(first)], second);
  }

  /**
    * A decision that waits for its run completes the session when the run was told of a delivery, fails it when the run gave
    * up or threw, leaves it alone when another call holds the claim, and waits on as long as the run goes on.
    */
  lemma DecisionsConclude(s: State, id: string)
    requires s.up && id in s.desk.deciding && s.desk.deciding[id].Waiting?
    requires s.desk.deciding[id].action.supplied.Some? && s.desk.deciding[id].run in s.exec.runs
    ensures var a := s.desk.deciding[id].action;
      var session, phase := a.supplied.value.sessionId, s.exec.runs[s.desk.deciding[id].run].phase;
      var t := After(s, [Handles(DoConclude(id)), Handles(DoCloseSession(id))]);
      && t.exec == s.exec
      && (phase.Returned? && !phase.outcome.terminal && phase.outcome.result.Delivered? ==>
           t.desk == Closed(s.desk, id, session, Completed).(closed := s.desk.closed + {Close(session, ByExecution(KeyOf(a)))}))
      && (phase.Threw? || (phase.Returned? && phase.outcome.terminal) ==> t.desk == Closed(s.desk, id, session, FailedSession))
      && (phase.Returned? && !phase.outcome.terminal && !phase.outcome.result.Delivered? ==> t.desk == Ended(s.desk, id))
      && (!phase.Returned? && !phase.Threw? ==> t.desk == s.desk)
  {
    TwoHandled(s, DoConclude(id), DoCloseSession(id));
    hide After;
    var concluded := Conclude(s.desk, s.exec.runs, id);
    assert concluded.deciding == if id in concluded.deciding then s.desk.deciding[id := concluded.deciding[id]] else s.desk.deciding - {id};
    assert CloseSession(concluded, id).deciding
        == if id in CloseSession(concluded, id).deciding then s.desk.deciding else s.desk.deciding - {id};
  }

  /** A race completes its session as soon as all its calls have ended, however they ended, and not before. */
  lemma RacesConclude(s: State, id: string)
    requires s.up && id in s.desk.deciding && s.desk.deciding[id].Racing? && s.desk.deciding[id].action.supplied.Some?
    ensures var session := s.desk.deciding[id].action.supplied.value.sessionId;
      var t := After(s, [Handles(DoConcludeRace(id)), Handles(DoCloseSession(id))]);
      && t.exec == s.exec
      && t.desk == if (forall r :: r in s.desk.deciding[id].runs ==>
                         r in s.exec.runs && (s.exec.runs[r].phase.Returned? || s.exec.runs[r].phase.Threw?))
                   then Closed(s.desk, id, session, Completed).(closed := s.desk.closed + {Close(session, ByRace)})
                   else s.desk
  {
    TwoHandled(s, DoConcludeRace(id), DoCloseSession(id));
    hide After;
    var concluded := ConcludeRace(s.desk, s.exec.runs, id);
    assert concluded.deciding == s.desk.deciding[id := concluded.deciding[id]];
    assert CloseSession(concluded, id).deciding
        == if id in CloseSession(concluded, id).deciding then s.desk.deciding else s.desk.deciding - {id};
  }

  /** What an error can still fail: a decision from its grant to the save that would complete its session. */
  predicate FailsOnError(stage: Deciding) {
    || (stage.Granted? && stage.action.supplied.Some?)
    || (stage.Waiting? && stage.action.supplied.Some?)
    || (stage.Closing? && stage.how.ByExecution?)
  }

  /** An error between the grant and the end of the close fails the session. */
  lemma ErrorsFailTheSession(s: State, id: string)
    requires s.up && id in s.desk.deciding && FailsOnError(s.desk.deciding[id])
    ensures var stage := s.desk.deciding[id];
      var session := if stage.Closing? then stage.session else stage.action.supplied.value.sessionId;
      After(s, [Handles(DoFailDecision(id)), Handles(DoCloseSession(id))])
      == s.(desk := Closed(s.desk, id, session, FailedSession))
  {
    TwoHandled(s, DoFailDecision(id), DoCloseSession(id));
    hide After;
    var failing := FailDecision(s.desk, id);
    assert failing.deciding == s.desk.deciding[id := failing.deciding[id]];
    assert CloseSession(failing, id).deciding == s.desk.deciding - {id};
  }

  // ---------- an approval that nothing disturbs ----------

  lemma Executed(s: State, steps: seq<Step>, x: ExecutionStep)
    requires After(s, steps).up
    ensures var t := After(s, steps);
      After(s, steps + [Executes(x)]) == t.(exec := ExecutionNext(t.exec, t.desk.approvals, x))
  {
    hide After, ExecutionNext;
    AfterNext(s, steps, Executes(x));
  }

  /** One `run` call from its launch to its claim. */
  function Preparing(id: string, r: nat, k: nat): seq<Step> {
    [Launches(id, r, false)] + [Executes(DoVerify(r))] + [Executes(DoClaim(r, true))] + [Executes(DoBeginAttempt(r, k))]
    + [Executes(DoLook(k))]
  }

  /** From its one attempt's delivery to its write-back, with every write through. */
  function Sending(r: nat, k: nat): seq<Step> {
    [Executes(DoDeliver(k))] + [Executes(DoSaveReceipt(k, true))] + [Executes(DoSettle(r))] + [Executes(DoRecord(r, true))]
  }

  function RunCall(id: string, r: nat, k: nat): seq<Step> {
    Preparing(id, r, k) + Sending(r, k)
  }

  function AfterClaim(x: Execution, r: nat, k: nat): Execution {
    Look(BeginAttempt(ClaimKey(x, r, true), r, k), k)
  }

  function AfterLook(x: Execution, r: nat, k: nat): Execution {
    RecordOutcome(SettleAttempt(SaveReceipt(Deliver(x, k, x.authorized), k, true), r), r, true)
  }

  lemma PreparingSteps(s: State, id: string, r: nat, k: nat)
    requires s.up && MayLaunch(s.desk, s.exec.runs, id, r, false)
    ensures var launched := Next(s, Launches(id, r, false));
      After(s, Preparing(id, r, k)) == launched.(exec := AfterClaim(VerifyRun(launched.exec, launched.desk.approvals, r), r, k))
  {
    hide After, VerifyRun, ClaimKey, BeginAttempt, Look, StartRun, Launched, MayLaunch;
    assert After(s, []) == s by { NoSteps(s); }
    var none: seq<Step> := [];
    assert none + [Launches(id, r, false)] == [Launches(id, r, false)];
    AfterNext(s, none, Launches(id, r, false));
    var steps := [Launches(id, r, false)];
    Executed(s, steps, DoVerify(r));
    steps := steps + [Executes(DoVerify(r))];
    Executed(s, steps, DoClaim(r, true));
    steps := steps + [Executes(DoClaim(r, true))];
    Executed(s, steps, DoBeginAttempt(r, k));
    steps := steps + [Executes(DoBeginAttempt(r, k))];
    Executed(s, steps, DoLook(k));
  }

  lemma SendingSteps(s: State, r: nat, k: nat)
    requires s.up
    ensures After(s, Sending(r, k)) == s.(exec := AfterLook(s.exec, r, k))
  {
    hide After, Deliver, SaveReceipt, SettleAttempt, RecordOutcome;
    assert After(s, []) == s by { NoSteps(s); }
    var none: seq<Step> := [];
    assert none + [Executes(DoDeliver(k))] == [Executes(DoDeliver(k))];
    Executed(s, none, DoDeliver(k));
    var steps := [Executes(DoDeliver(k))];
    Executed(s, steps, DoSaveReceipt(k, true));
    steps := steps + [Executes(DoSaveReceipt(k, true))];
    Executed(s, steps, DoSettle(r));
    steps := steps + [Executes(DoSettle(r))];
    Executed(s, steps, DoRecord(r, true));
  }

  lemma RunCallSteps(s: State, id: string, r: nat, k: nat)
    requires s.up && MayLaunch(s.desk, s.exec.runs, id, r, false)
    ensures var launched := Next(s, Launches(id, r, false));
      After(s, RunCall(id, r, k))
      == launched.(exec := AfterLook(AfterClaim(VerifyRun(launched.exec, launched.desk.approvals, r), r, k), r, k))
  {
    hide After, VerifyRun, AfterClaim, AfterLook, Preparing, Sending;
    PreparingSteps(s, id, r, k);
    AfterAppend(s, Preparing(id, r, k), Sending(r, k));
    SendingSteps(After(s, Preparing(id, r, k)), r, k);
  }

  /** Nothing stands in the way of the email: it is complete, never tried before, and the service would accept it. */
  predicate Deliverable(x: Execution, a: ApprovedAction, r: nat, k: nat) {
    && 1 <= x.maxAttempts && x.authorized && x.service.errorQueue == [] && x.service.transientFailures == 0
    && r !in x.runs && k !in x.attempts
    && a.action.content.kind == SEND_EMAIL && IsComplete(a.action.content.payload) && ParseEmail(a.action.content.payload).Some?
    && KeyOf(a) !in x.ledger && KeyOf(a) !in x.receipts && DedupeOf(KeyOf(a)) !in x.service.receipts
  }

  lemma ApprovedIsVerified(approvals: map<string, A.ApprovalRecord>, a: ApprovedAction)
    requires a.action.id in approvals && approvals[a.action.id].status == A.Approved && approvals[a.action.id].payloadHash == a.payloadHash
    requires PayloadHashFor(a.action.content) == Success(a.payloadHash)
    ensures Verified(approvals, a) == Claiming
  {
    hide PayloadHashFor;
  }

  /** The execution as the launched and verified run finds it: about to claim. */
  lemma LaunchedRunClaims(s: State, id: string, r: nat, a: ApprovedAction)
    requires s.up && id in s.desk.deciding && s.desk.deciding[id] == Granted(a) && r !in s.exec.runs
    requires a.supplied == Some(KeyOf(a)) && Verified(s.desk.approvals, a) == Claiming
    ensures MayLaunch(s.desk, s.exec.runs, id, r, false)
    ensures var launched := Next(s, Launches(id, r, false));
      && launched.up && launched.desk == s.desk.(deciding := s.desk.deciding[id := Waiting(a, r)])
      && VerifyRun(launched.exec, s.desk.approvals, r)
         == s.exec.(runs := s.exec.runs[r := Run(a, RequireApproval, Claiming)])
  {
    hide Verified;
    var launched := Next(s, Launches(id, r, false));
    assert launched.exec.runs == s.exec.runs[r := Run(a, RequireApproval, Verifying)];
    assert VerifyRun(launched.exec, s.desk.approvals, r).runs == s.exec.runs[r := Run(a, RequireApproval, Claiming)];
  }

  /** The email is accepted for the action, its receipt and its ledger record carry the message id, and the run knows. */
  ghost predicate DeliveredBy(s: State, x: Execution, r: nat, a: ApprovedAction) {
    var key, n := KeyOf(a), s.exec.service.counter + 1;
    && r in x.runs && x.runs[r].phase == Returned(Outcome(Delivered(n), false))
    && key in x.ledger && x.ledger[key] == ExecutionRecord(key, Succeeded, 1, Some(Delivered(n)))
    && key in x.receipts && x.receipts[key] == n
    && |x.accepted| == |s.exec.accepted| + 1 && KeyOf(x.accepted[|s.exec.accepted|].action) == key
  }

  lemma GrantedRunDelivers(s: State, id: string, r: nat, k: nat, a: ApprovedAction)
    requires s.up && id in s.desk.deciding && s.desk.deciding[id] == Granted(a) && Deliverable(s.exec, a, r, k)
    requires a.supplied == Some(KeyOf(a)) && PayloadHashFor(a.action.content) == Success(a.payloadHash)
    requires var action := a.action.id;
      action in s.desk.approvals && s.desk.approvals[action].status == A.Approved && s.desk.approvals[action].payloadHash == a.payloadHash
    ensures var t := After(s, RunCall(id, r, k));
      && t.up && t.desk == s.desk.(deciding := s.desk.deciding[id := Waiting(a, r)]) && DeliveredBy(s, t.exec, r, a)
  {
    hide After, PayloadHashFor, IsComplete, ParseEmail, ClaimKey, BeginAttempt, Look, Deliver, SaveReceipt, SettleAttempt, RecordOutcome,
      VerifyRun, Verified, Next;
    ApprovedIsVerified(s.desk.approvals, a);
    LaunchedRunClaims(s, id, r, a);
    RunCallSteps(s, id, r, k);
    var x := s.exec.(runs := s.exec.runs[r := Run(a, RequireApproval, Claiming)]);
    assert IsValid(a) && IsKeyed(a);
    ClaimAndLook(x, r, k);
    UndisturbedRunDelivers(x, r, k);
  }

  /**
    * An approval that nothing disturbs, from the pending approval to the last save: the approval is approved, exactly one
    * email is accepted for the action, its receipt and record are stored, and the session is completed.
    */
  lemma UndisturbedApprovalDelivers(s: State, id: string, subject: ProposedAction, r: nat, k: nat)
    requires s.up && Inv(s) && MayDecide(s.desk, id) && Stored(s.desk.actions, id, subject)
    requires var record := s.desk.approvals[id];
      && PayloadHashFor(subject.content) == Success(record.payloadHash) && subject.sessionId == record.sessionId
      && Deliverable(s.exec, ApprovedAction(subject, record.payloadHash, Some(Key(record.sessionId, id, record.payloadHash))), r, k)
    ensures var record := s.desk.approvals[id];
      var a := ApprovedAction(subject, record.payloadHash, Some(Key(record.sessionId, id, record.payloadHash)));
      var t := After(s, DecisionCall(id, Approving) + RunCall(id, r, k) + [Handles(DoConclude(id)), Handles(DoCloseSession(id))]);
      && t.desk.approvals == s.desk.approvals[id := record.(status := A.Approved)]
      && t.desk.granted == s.desk.granted + [subject]
      && t.desk.sessions == s.desk.sessions[record.sessionId := Completed]
      && id !in t.desk.deciding && DeliveredBy(s, t.exec, r, a)
  {
    hide After, PayloadHashFor, IsComplete, ParseEmail, MayLaunch, Inv;
    var record := s.desk.approvals[id];
    var a := ApprovedAction(subject, record.payloadHash, Some(Key(record.sessionId, id, record.payloadHash)));
    UndisturbedDecision(s, id, Approving, subject);
    var granted := After(s, DecisionCall(id, Approving));
    GrantedRunDelivers(granted, id, r, k, a);
    AfterAppend(s, DecisionCall(id, Approving), RunCall(id, r, k));
    var ran := After(s, DecisionCall(id, Approving) + RunCall(id, r, k));
    DecisionsConclude(ran, id);
    AfterAppend(s, DecisionCall(id, Approving) + RunCall(id, r, k), [Handles(DoConclude(id)), Handles(DoCloseSession(id))]);
  }
}
