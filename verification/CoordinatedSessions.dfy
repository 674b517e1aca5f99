/**
  * The session machine driven by the coordinator: an attempt begins when the tick in flight executes its task, whatever has
  * been completed, and the tick ends with what the attempts came to. What the session machine asks of an attempt that begins
  * is then always so, as long as no tick is started after a rejected one.
  */
module CoordinatedSessions {
  import opened Wrappers
  import opened Sequences
  import opened TaskGraph
  import opened TaskDefinitions
  import opened TaskLifecycle
  import opened CapabilityRouter
  import opened Scheduler
  import opened CoordinatorRun
  import C = CoordinatorCalls
  import G = AccessGrants
  import P = Provenance
  import T = ProvenanceTheorems
  import E = EvidenceSelection
  import F = FrozenContext

  datatype Joint = Joint(
    machine: C.Machine,
    state: P.State,
    begun: set<string>, // the tasks whose attempt began in the tick in flight
    again: bool         // history: a tick was started after a rejected one
  )

  datatype Event =
    | Coordinate(tick: C.Event)
    | BeginAttempt(i: nat, agent: AgentManifest, token: string, now: int) // of the i-th task the tick was started with
    | Proceed(event: P.Event)                                             // anything but the begin of an attempt

  function RunningTask(agents: seq<AgentManifest>, t: AgentTask): AgentTask {
    match RouteTaskByCapability(t.definition, agents)
    case NotAssigned(_) => t
    case Assigned(agentId) => Moved(t.(assignedAgentId := Some(agentId)), TaskStatus.Running)
  }

  /** The tick in flight executes the task, which has not begun in it, with a token that was never issued. */
  predicate MayBegin(agents: seq<AgentManifest>, j: Joint, i: nat, agent: AgentManifest, token: string) {
    && j.state.session.alive && j.machine.inFlight && i < |j.machine.snapshot|
    && C.CanCall(agents, j.machine.snapshot[i])
    && RouteTaskByCapability(j.machine.snapshot[i].definition, agents) == Assigned(agent.agentId)
    && j.machine.snapshot[i].Id() !in j.begun
    && token !in P.IssuedIds(j.state.gateway.issued)
  }

  /** The attempt begins: its dependencies, and whether the task was completed before, are not looked at. */
  function Begun(w: P.Workflow, s: P.State, task: AgentTask, agent: AgentManifest, token: string, now: int): P.State {
    s.(gateway := P.WithGrant(s.gateway, G.NewGrant(token, w.sessionId, task.Id(), agent, now)),
       session := P.Entered(s.session, task.Id(), P.Granted(task, token)))
  }

  /** The attempts of the tick are over, and it ends with what they came to. */
  predicate Reports(agents: seq<AgentManifest>, j: Joint, outcomes: string -> Outcome) {
    forall i :: 0 <= i < |j.machine.snapshot| && C.CanCall(agents, j.machine.snapshot[i]) ==>
      var id := j.machine.snapshot[i].Id();
      id !in j.state.session.work && (outcomes(id) == Returned <==> id in j.state.session.completed)
  }

  function Step(agents: seq<AgentManifest>, w: P.Workflow, j: Joint, e: Event): Joint {
    match e
    case Coordinate(Call) =>
      if !j.state.session.alive then j
      else j.(machine := C.Step(agents, j.machine, C.Call),
              begun := if j.machine.inFlight then j.begun else {},
              again := j.again || (!j.machine.inFlight && j.machine.rejections > 0))
    case Coordinate(End(outcomes, reach)) =>
      if !j.state.session.alive || !j.machine.inFlight || (!reach.NoPart? && !Reports(agents, j, outcomes)) then j
      else j.(machine := C.Step(agents, j.machine, C.End(outcomes, reach)))
    case BeginAttempt(i, agent, token, now) =>
      if !MayBegin(agents, j, i, agent, token) then j
      else
        var task := RunningTask(agents, j.machine.snapshot[i]);
        j.(state := Begun(w, j.state, task, agent, token, now), begun := j.begun + {task.Id()})
    case Proceed(event) =>
      if event.Begin? then j else j.(state := P.Step(w, j.state, event))
  }

  function Initially(definitions: seq<TaskDefinition>, shelf: P.Shelf): Joint {
    Joint(C.Initially(definitions), P.Initial(shelf), {}, false)
  }

  function Steps(agents: seq<AgentManifest>, definitions: seq<TaskDefinition>, w: P.Workflow, shelf: P.Shelf, events: seq<Event>)
    : Joint
  {
    if events == [] then Initially(definitions, shelf)
    else Step(agents, w, Steps(agents, definitions, w, shelf, events[..|events| - 1]), events[|events| - 1])
  }

  /** The coordinator is not held up: while the session lives, it makes its calls and its ticks end with what was reported. */
  lemma CoordinatorGoesOn(agents: seq<AgentManifest>, w: P.Workflow, j: Joint, outcomes: string -> Outcome, reach: C.Reach)
    requires j.state.session.alive
    ensures var t := Step(agents, w, j, Coordinate(C.Call));
      && t.machine == C.Step(agents, j.machine, C.Call) && t.state == j.state
      && t.begun == (if j.machine.inFlight then j.begun else {})
      && (t.again <==> j.again || (!j.machine.inFlight && j.machine.rejections > 0))
    ensures j.machine.inFlight && (reach.NoPart? || Reports(agents, j, outcomes)) ==>
              Step(agents, w, j, Coordinate(C.End(outcomes, reach))) == j.(machine := C.Step(agents, j.machine, C.End(outcomes, reach)))
  {
    hide C.Step;
  }

  /** At the start no tick has been started after a rejected one, and no attempt has begun. */
  lemma NothingBegun(definitions: seq<TaskDefinition>, shelf: P.Shelf)
    ensures var j := Initially(definitions, shelf); !j.again && j.begun == {} && j.state == P.Initial(shelf) && j.state.session.alive
  {
  }

  /** A task that the tick in flight calls begins its attempt once, with a grant for its agent, and any other event is the session's. */
  lemma AttemptsBegin(agents: seq<AgentManifest>, w: P.Workflow, j: Joint, i: nat, agent: AgentManifest, token: string, now: int,
                      event: P.Event)
    ensures MayBegin(agents, j, i, agent, token) ==>
              var t := Step(agents, w, j, BeginAttempt(i, agent, token, now));
              var task := RunningTask(agents, j.machine.snapshot[i]);
              && t.machine == j.machine && t.again == j.again && t.begun == j.begun + {task.Id()}
              && task.Id() in t.state.session.work && t.state.session.work[task.Id()] == P.Granted(task, token)
              && t.state.gateway == P.WithGrant(j.state.gateway, G.NewGrant(token, w.sessionId, task.Id(), agent, now))
              && t.state.session.completed == j.state.session.completed && t.state.shelf == j.state.shelf
    ensures !event.Begin? ==> Step(agents, w, j, Proceed(event)) == j.(state := P.Step(w, j.state, event))
  {
    hide MayBegin, P.Step, C.Step, RunningTask, P.WithGrant, G.NewGrant;
  }

  // ---------- the invariant ----------

  /** The coordinator rests on, or works from, a snapshot that shows the tasks as they are. */
  ghost predicate MachineShows(definitions: seq<TaskDefinition>, m: C.Machine) {
    m.run.tasks == m.snapshot && TasksInv(m.snapshot) && Follows(definitions, m.snapshot) && m.torn == false
  }

  ghost predicate WorkBegun(definitions: seq<TaskDefinition>, j: Joint) {
    forall t :: t in j.state.session.work ==> j.machine.inFlight && t in j.begun && t in Ids(definitions)
  }

  ghost predicate BegunCallable(agents: seq<AgentManifest>, definitions: seq<TaskDefinition>, j: Joint) {
    j.machine.inFlight ==>
      forall i :: 0 <= i < |definitions| == |j.machine.snapshot| && definitions[i].id in j.begun ==> C.CanCall(agents, j.machine.snapshot[i])
  }

  /** Completed in the session are the tasks the coordinator has completed, and attempts of the tick that are through. */
  ghost predicate CompletedAgree(definitions: seq<TaskDefinition>, j: Joint) {
    forall i :: 0 <= i < |definitions| == |j.machine.snapshot| ==>
      && (j.machine.snapshot[i].status == Completed ==> definitions[i].id in j.state.session.completed)
      && (definitions[i].id in j.state.session.completed ==>
           j.machine.snapshot[i].status == Completed || (j.machine.inFlight && definitions[i].id in j.begun))
  }

  ghost predicate Settled(agents: seq<AgentManifest>, definitions: seq<TaskDefinition>, j: Joint) {
    MachineShows(definitions, j.machine) && WorkBegun(definitions, j) && BegunCallable(agents, definitions, j) && CompletedAgree(definitions, j)
  }

  /** Until a tick has been rejected. */
  ghost predicate JointInv(agents: seq<AgentManifest>, definitions: seq<TaskDefinition>, j: Joint) {
    && (j.machine.inFlight && !j.again ==> j.machine.rejections == 0)
    && (j.state.session.alive && j.machine.rejections == 0 ==> Settled(agents, definitions, j))
  }

  lemma StartIsSettled(agents: seq<AgentManifest>, definitions: seq<TaskDefinition>, shelf: P.Shelf)
    requires Distinct(Ids(definitions))
    ensures JointInv(agents, definitions, Initially(definitions, shelf))
  {
    StartInv(definitions);
    var j := Initially(definitions, shelf);
    forall i | 0 <= i < |definitions| ensures j.machine.snapshot[i].status != Completed {
      assert j.machine.snapshot[i] in j.machine.snapshot;
    }
  }

  // ---------- what an attempt may rely on ----------

  lemma RunningIsRunning(agents: seq<AgentManifest>, t: AgentTask, agent: AgentManifest)
    requires C.CanCall(agents, t) && RouteTaskByCapability(t.definition, agents) == Assigned(agent.agentId)
    ensures var u := RunningTask(agents, t);
      u.definition == t.definition && u.status == TaskStatus.Running && u.assignedAgentId == Some(agent.agentId)
  {
    hide RouteTaskByCapability;
  }

  lemma {:induction false} DependenciesAreCompleted(definitions: seq<TaskDefinition>, j: Joint, i: nat)
    requires MachineShows(definitions, j.machine) && CompletedAgree(definitions, j) && i < |definitions|
    requires j.machine.snapshot[i].status == Ready
    ensures definitions[i].id in GraphOf(definitions)
    ensures forall d :: d in GraphOf(definitions)[definitions[i].id] ==> d in j.state.session.completed
  {
    var tasks := j.machine.snapshot;
    assert TaskInv(tasks, tasks[i]);
    assert TaskIds(tasks) == Ids(definitions);
    GraphAt(definitions, i);
    forall d | d in definitions[i].dependsOn
      ensures d in j.state.session.completed
    {
      assert HasStatus(tasks, d, Completed);
      ByIdFound(tasks, d);
      var k :| 0 <= k < |tasks| && tasks[k] == ById(tasks, d).value;
      assert definitions[k].id == tasks[k].Id();
    }
  }

  /** The two guards: all dependencies are completed, and the task never was, nor is it at work. */
  lemma BeginMeetsGuards(agents: seq<AgentManifest>, definitions: seq<TaskDefinition>, w: P.Workflow, j: Joint, i: nat,
                         agent: AgentManifest, token: string, now: int)
    requires w.graph == GraphOf(definitions) && JointInv(agents, definitions, j) && !j.again
    requires MayBegin(agents, j, i, agent, token)
    ensures P.CanBegin(w, j.state, RunningTask(agents, j.machine.snapshot[i]), agent, token)
    ensures Begun(w, j.state, RunningTask(agents, j.machine.snapshot[i]), agent, token, now)
         == P.Step(w, j.state, P.Begin(RunningTask(agents, j.machine.snapshot[i]), agent, token, now))
  {
    hide RouteTaskByCapability, P.IssuedIds, P.WithGrant, TasksInv, RunningTask, G.NewGrant, BegunCallable, CompletedAgree, WorkBegun;
    var t := j.machine.snapshot[i];
    RunningIsRunning(agents, t, agent);
    assert t.definition == definitions[i];
    DependenciesAreCompleted(definitions, j, i);
    TaskIsIdle(agents, definitions, j, i);
  }

  /** The task has no attempt under way and was not completed. */
  lemma TaskIsIdle(agents: seq<AgentManifest>, definitions: seq<TaskDefinition>, j: Joint, i: nat)
    requires Settled(agents, definitions, j) && j.machine.inFlight && i < |j.machine.snapshot|
    requires C.CanCall(agents, j.machine.snapshot[i]) && j.machine.snapshot[i].Id() !in j.begun
    ensures var id := j.machine.snapshot[i].Id();
      id in Ids(definitions) && id !in j.state.session.work && id !in j.state.session.completed
  {
    hide TasksInv, RouteTaskByCapability, BegunCallable;
    assert j.machine.snapshot[i].definition == definitions[i] && Ids(definitions)[i] == definitions[i].id;
  }

  // ---------- every event keeps it ----------

  lemma TickShows(agents: seq<AgentManifest>, definitions: seq<TaskDefinition>, m: C.Machine, outcomes: string -> Outcome)
    requires MachineShows(definitions, m)
    ensures var after := C.Ticked(agents, m.run, m.snapshot, outcomes).tasks;
      && |after| == |definitions| && TasksInv(after) && Follows(definitions, after)
      && forall i :: 0 <= i < |after| ==> Stepped(agents, m.snapshot, after, outcomes, i)
  {
    hide TasksInv, Tick, C.Ticked;
    C.OverlayOfSame(agents, m.run, outcomes);
    TickKeepsInv(agents, m.run, outcomes);
    TickSteps(agents, m.run, outcomes);
    var after := Tick(agents, m.run, outcomes).tasks;
    forall k | 0 <= k < |after| ensures after[k].definition == definitions[k] {
      StepKeepsDefinition(agents, m.snapshot, after, outcomes, k);
    }
    hide Stepped;
  }

  lemma StepKeepsDefinition(agents: seq<AgentManifest>, before: seq<AgentTask>, after: seq<AgentTask>, outcomes: string -> Outcome, i: nat)
    requires i < |before| == |after| && Stepped(agents, before, after, outcomes, i)
    ensures after[i].definition == before[i].definition
  {
    hide ExecuteTask, DependenciesCompleted;
  }

  lemma PlaceCompletes(agents: seq<AgentManifest>, before: seq<AgentTask>, after: seq<AgentTask>, outcomes: string -> Outcome, i: nat)
    requires i < |before| == |after| && Stepped(agents, before, after, outcomes, i) && TasksInv(before)
    ensures after[i].status == Completed <==>
              before[i].status == Completed || (C.CanCall(agents, before[i]) && outcomes(before[i].Id()) == Returned)
  {
    assert TaskInv(before, before[i]);
    StatusIsKnown(before, i);
    if before[i].status == Ready { CompletesWhenReturned(agents, before[i], outcomes(before[i].Id())); }
    CallableIsReady(agents, before[i]);
    hide ExecuteTask, DependenciesCompleted, TaskInv, C.CanCall;
  }

  lemma StatusIsKnown(tasks: seq<AgentTask>, i: nat)
    requires i < |tasks| && TaskInv(tasks, tasks[i])
    ensures tasks[i].status in {Blocked, Ready, Completed, Failed, Unassigned}
    ensures tasks[i].status == Ready ==> tasks[i].attempt == 0 || tasks[i].attempt < tasks[i].definition.maxAttempts
  {
  }

  lemma CompletesWhenReturned(agents: seq<AgentManifest>, t: AgentTask, outcome: Outcome)
    requires t.status == Ready
    ensures ExecuteTask(agents, t, outcome).status == Completed <==> C.CanCall(agents, t) && outcome == Returned
  {
    hide RouteTaskByCapability;
  }

  lemma CallableIsReady(agents: seq<AgentManifest>, t: AgentTask)
    ensures C.CanCall(agents, t) ==> t.status == Ready
  {
  }

  lemma PlacesAgree(definitions: seq<TaskDefinition>, tasks: seq<AgentTask>)
    requires Follows(definitions, tasks)
    ensures |tasks| == |definitions| && forall i :: 0 <= i < |definitions| ==> tasks[i].Id() == definitions[i].id
  {
  }

  /** What a settled tick completes is what its attempts reported. */
  lemma SettlingAgrees(agents: seq<AgentManifest>, definitions: seq<TaskDefinition>, j: Joint, outcomes: string -> Outcome)
    requires Settled(agents, definitions, j) && j.machine.inFlight && Reports(agents, j, outcomes)
    ensures var after := j.(machine := C.Step(agents, j.machine, C.End(outcomes, C.WholeTick)));
      Settled(agents, definitions, after)
  {
    hide C.Ticked, TasksInv, C.CanCall, C.Invocations, Stepped, Follows;
    var m := j.machine;
    var ticked := C.Ticked(agents, m.run, m.snapshot, outcomes).tasks;
    TickShows(agents, definitions, m, outcomes);
    PlacesAgree(definitions, m.snapshot);
    forall i | 0 <= i < |definitions|
      ensures ticked[i].status == Completed <==> definitions[i].id in j.state.session.completed
      ensures definitions[i].id in j.begun ==> definitions[i].id !in j.state.session.work
    {
      assert Stepped(agents, m.snapshot, ticked, outcomes, i);
      PlaceCompletes(agents, m.snapshot, ticked, outcomes, i);
      assert m.snapshot[i].Id() == definitions[i].id;
      CallableIsReady(agents, m.snapshot[i]);
    }
    assert forall t :: t in Ids(definitions) ==> exists i :: 0 <= i < |definitions| && definitions[i].id == t;
  }

  lemma EndKeepsJoint(agents: seq<AgentManifest>, definitions: seq<TaskDefinition>, w: P.Workflow, j: Joint,
                      outcomes: string -> Outcome, reach: C.Reach)
    requires JointInv(agents, definitions, j)
    ensures JointInv(agents, definitions, Step(agents, w, j, Coordinate(C.End(outcomes, reach))))
  {
    if j.state.session.alive && j.machine.inFlight && j.machine.rejections == 0 && reach.WholeTick? && Reports(agents, j, outcomes) {
      SettlingAgrees(agents, definitions, j, outcomes);
    }
    hide Settled, C.Ticked, C.Invocations, Reports;
  }

  lemma CallKeepsJoint(agents: seq<AgentManifest>, definitions: seq<TaskDefinition>, w: P.Workflow, j: Joint)
    requires JointInv(agents, definitions, j)
    ensures JointInv(agents, definitions, Step(agents, w, j, Coordinate(C.Call)))
  {
    hide TasksInv, C.CanCall;
    assert forall t :: t in j.state.session.work && j.state.session.alive && j.machine.rejections == 0 ==> j.machine.inFlight;
  }

  lemma BeginKeepsJoint(agents: seq<AgentManifest>, definitions: seq<TaskDefinition>, w: P.Workflow, j: Joint, i: nat,
                        agent: AgentManifest, token: string, now: int)
    requires JointInv(agents, definitions, j) && Distinct(Ids(definitions))
    ensures JointInv(agents, definitions, Step(agents, w, j, BeginAttempt(i, agent, token, now)))
  {
    hide RouteTaskByCapability, P.IssuedIds, P.WithGrant, TasksInv;
    if MayBegin(agents, j, i, agent, token) {
      RunningIsRunning(agents, j.machine.snapshot[i], agent);
      hide RunningTask, C.CanCall;
      if j.machine.rejections == 0 {
        assert j.machine.snapshot[i].definition == definitions[i];
        assert Ids(definitions)[i] == definitions[i].id;
        assert forall k :: 0 <= k < |definitions| && definitions[k].id == definitions[i].id ==> Ids(definitions)[k] == Ids(definitions)[i];
      }
    }
  }

  /** Nothing but the begin of an attempt adds to the work; what is completed was at work. */
  lemma ProceedingShrinksWork(w: P.Workflow, s: P.State, e: P.Event)
    requires !e.Begin?
    ensures var after := P.Step(w, s, e).session;
      && (forall t :: t in after.work ==> t in s.session.work)
      && (forall t :: t in s.session.completed ==> t in after.completed)
      && (forall t :: t in after.completed ==> t in s.session.completed || t in s.session.work)
      && (after.alive ==> s.session.alive)
  {
    hide P.DependencyEvidence, P.SourcesOf, P.Assessed, P.SavesPending, P.LookUp, P.Decide, P.FinishRead, P.WithGrant, G.AfterRevoke;
  }

  lemma ProceedKeepsJoint(agents: seq<AgentManifest>, definitions: seq<TaskDefinition>, w: P.Workflow, j: Joint, e: P.Event)
    requires JointInv(agents, definitions, j)
    ensures JointInv(agents, definitions, Step(agents, w, j, Proceed(e)))
  {
    hide P.Step, TasksInv, C.CanCall;
    if !e.Begin? {
      ProceedingShrinksWork(w, j.state, e);
    }
  }

  lemma StepKeepsJoint(agents: seq<AgentManifest>, definitions: seq<TaskDefinition>, w: P.Workflow, j: Joint, e: Event)
    requires JointInv(agents, definitions, j) && Distinct(Ids(definitions))
    ensures JointInv(agents, definitions, Step(agents, w, j, e))
  {
    hide JointInv, Step;
    match e
    case Coordinate(Call) => CallKeepsJoint(agents, definitions, w, j);
    case Coordinate(End(outcomes, reach)) => EndKeepsJoint(agents, definitions, w, j, outcomes, reach);
    case BeginAttempt(i, agent, token, now) => BeginKeepsJoint(agents, definitions, w, j, i, agent, token, now);
    case Proceed(event) => ProceedKeepsJoint(agents, definitions, w, j, event);
  }

  lemma {:induction false} StepsKeepJoint(agents: seq<AgentManifest>, definitions: seq<TaskDefinition>, w: P.Workflow,
                                          shelf: P.Shelf, events: seq<Event>)
    requires Distinct(Ids(definitions))
    ensures JointInv(agents, definitions, Steps(agents, definitions, w, shelf, events))
  {
    hide JointInv, Step;
    if events == [] {
      StartIsSettled(agents, definitions, shelf);
    } else {
      var init := events[..|events| - 1];
      StepsKeepJoint(agents, definitions, w, shelf, init);
      StepKeepsJoint(agents, definitions, w, Steps(agents, definitions, w, shelf, init), events[|events| - 1]);
    }
  }

  // ---------- the session machine runs ----------

  function Applied(w: P.Workflow, s: P.State, e: Option<P.Event>): P.State {
    match e case None => s case Some(event) => P.Step(w, s, event)
  }

  /** Each joint event is an event of the session machine, or none. */
  lemma SessionSteps(agents: seq<AgentManifest>, definitions: seq<TaskDefinition>, w: P.Workflow, j: Joint, e: Event)
    returns (event: Option<P.Event>)
    requires w.graph == GraphOf(definitions) && JointInv(agents, definitions, j) && !j.again
    ensures Step(agents, w, j, e).state == Applied(w, j.state, event)
  {
    hide JointInv, Begun, RunningTask, P.Step, C.Step, Reports;
    event := None;
    if e.BeginAttempt? && MayBegin(agents, j, e.i, e.agent, e.token) {
      BeginMeetsGuards(agents, definitions, w, j, e.i, e.agent, e.token, e.now);
      event := Some(P.Begin(RunningTask(agents, j.machine.snapshot[e.i]), e.agent, e.token, e.now));
    } else if e.Proceed? && !e.event.Begin? {
      event := Some(e.event);
    }
  }

  /**
    * In every joint run in which no tick was started after a rejected one, what the session goes through is a run of the
    * session machine: each attempt that begins meets its guards.
    */
  lemma {:induction false} SessionRuns(agents: seq<AgentManifest>, definitions: seq<TaskDefinition>, w: P.Workflow,
                                       shelf: P.Shelf, events: seq<Event>) returns (sessionEvents: seq<P.Event>)
    requires Distinct(Ids(definitions)) && w.graph == GraphOf(definitions)
    requires !Steps(agents, definitions, w, shelf, events).again
    ensures Steps(agents, definitions, w, shelf, events).state == P.Steps(w, shelf, sessionEvents)
  {
    hide JointInv, P.Step;
    sessionEvents := [];
    if events != [] {
      var init, e := events[..|events| - 1], events[|events| - 1];
      var j := Steps(agents, definitions, w, shelf, init);
      AgainStays(agents, w, j, e);
      hide Step;
      sessionEvents := SessionRuns(agents, definitions, w, shelf, init);
      StepsKeepJoint(agents, definitions, w, shelf, init);
      var event := SessionSteps(agents, definitions, w, j, e);
      if event.Some? {
        assert (sessionEvents + [event.value])[..|sessionEvents|] == sessionEvents;
        sessionEvents := sessionEvents + [event.value];
      }
    }
  }

  lemma AgainStays(agents: seq<AgentManifest>, w: P.Workflow, j: Joint, e: Event)
    ensures j.again ==> Step(agents, w, j, e).again
  {
    hide MayBegin, Reports, C.Step, P.Step;
  }

  /**
    * So what is proved of the session machine holds of the session that the coordinator drives: its contexts are frozen,
    * and the sources of its accepted evidence have their origin.
    */
  lemma DrivenSessionsKeepEvidence(agents: seq<AgentManifest>, definitions: seq<TaskDefinition>, w: P.Workflow,
                                   shelf: P.Shelf, events: seq<Event>)
    requires Distinct(Ids(definitions)) && w.graph == GraphOf(definitions) && P.Fresh(w, shelf)
    requires !Steps(agents, definitions, w, shelf, events).again
    ensures var s := Steps(agents, definitions, w, shelf, events).state;
      && T.GatewayInv(s.gateway) && T.EvidenceInv(w, s)
      && forall k :: 0 <= k < |s.session.passed| ==>
           var context := s.session.passed[k];
           context.taskId in w.graph && context.evidence == P.CapsuleEvidence(w, s.shelf, context.taskId)
           && E.IsSelection(w, s.shelf, context.taskId, context.evidence)
  {
    hide Steps, P.Steps, T.GatewayInv, T.EvidenceInv;
    var sessionEvents := SessionRuns(agents, definitions, w, shelf, events);
    T.StepsKeepEvidence(w, shelf, sessionEvents);
    F.StepsKeepFrozen(w, shelf, sessionEvents);
    var s := P.Steps(w, shelf, sessionEvents);
    hide P.DependencyEvidence, P.CapsuleEvidence, E.IsSelection;
    forall k | 0 <= k < |s.session.passed|
      ensures s.session.passed[k].taskId in w.graph
      ensures s.session.passed[k].evidence == P.CapsuleEvidence(w, s.shelf, s.session.passed[k].taskId)
      ensures E.IsSelection(w, s.shelf, s.session.passed[k].taskId, s.session.passed[k].evidence)
    {
      assert F.DependenciesDone(w, s.session.completed, s.session.passed[k].taskId);
      E.CapsuleIsDependencyEvidence(w, s.shelf, s.session.passed[k].taskId);
      E.DependencyEvidenceExactly(w, s.shelf, s.session.passed[k].taskId);
    }
  }
}
