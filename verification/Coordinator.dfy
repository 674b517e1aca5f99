/** The coordinator object: its fields, and the methods that advance a session. */
module Coordinators {
  import opened Wrappers
  import opened Sequences
  import opened TaskGraph
  import opened TaskDefinitions
  import opened DagValidator
  import opened TaskLifecycle
  import opened CapabilityRouter
  import opened Scheduler
  import opened CoordinatorRun
  import opened CoordinatorTheorems
  import opened CoordinatorCalls

  datatype Snapshot = Snapshot(
    tasks: seq<AgentTask>,
    readyTaskIds: seq<string>,
    blockedByFailedDependencyTaskIds: seq<string>
  )

  /** A start can also fail while it saves what it set up. */
  datatype StartResult = Began(snapshot: Snapshot) | NotStarted(errors: seq<DagError>) | StartFailed

  datatype TickStart = Launched | Joined | CoordinatorNotStarted

  /** The attempts of one tick, in the order of the ready tasks. */
  function Attempts(agents: seq<AgentManifest>, ready: seq<AgentTask>, outcomes: string -> Outcome): (r: seq<AgentTask>)
    ensures |r| == |ready| && forall i :: 0 <= i < |r| ==> r[i] == ExecuteTask(agents, ready[i], outcomes(ready[i].Id()))
  {
    seq(|ready|, i requires 0 <= i < |ready| => ExecuteTask(agents, ready[i], outcomes(ready[i].Id())))
  }

  /** Every task, or what its attempt made of it. */
  function Merged(tasks: seq<AgentTask>, updated: seq<AgentTask>): (r: seq<AgentTask>)
    ensures |r| == |tasks|
    ensures forall i :: 0 <= i < |r| ==>
              r[i] == match ById(updated, tasks[i].Id()) case Some(t) => t case None => tasks[i]
  {
    seq(|tasks|, i requires 0 <= i < |tasks| =>
      match ById(updated, tasks[i].Id()) case Some(t) => t case None => tasks[i])
  }

  lemma ExecutionKeepsId(agents: seq<AgentManifest>, t: AgentTask, outcome: Outcome)
    ensures ExecuteTask(agents, t, outcome).Id() == t.Id()
  {
  }

  /** Executing the snapshot's ready tasks apart and merging the results by id is executing them in their places. */
  lemma MergingIsOverlaying(agents: seq<AgentManifest>, tasks: seq<AgentTask>, snapshot: seq<AgentTask>, outcomes: string -> Outcome)
    requires TaskIds(tasks) == TaskIds(snapshot) && Distinct(TaskIds(snapshot))
    ensures Merged(tasks, Attempts(agents, ReadyTasks(snapshot), outcomes)) == Overlaid(agents, tasks, snapshot, outcomes)
  {
    hide ExecuteTask;
    var ready := ReadyTasks(snapshot);
    var updated := Attempts(agents, ready, outcomes);
    forall i | 0 <= i < |updated| ensures updated[i].Id() == ready[i].Id() {
      ExecutionKeepsId(agents, ready[i], outcomes(ready[i].Id()));
    }
    assert TaskIds(updated) == TaskIds(ready);
    ReadyIdsDistinct(snapshot);
    var merged, overlaid := Merged(tasks, updated), Overlaid(agents, tasks, snapshot, outcomes);
    forall i | 0 <= i < |tasks|
      ensures merged[i] == overlaid[i]
    {
      assert TaskIds(tasks)[i] == TaskIds(snapshot)[i];
      assert snapshot[i] in snapshot;
      if snapshot[i].status == Ready {
        assert snapshot[i] in ready;
        var k :| 0 <= k < |ready| && ready[k] == snapshot[i];
        ByIdAt(updated, k);
      } else {
        NotAmongReady(snapshot, i);
        ByIdFound(updated, tasks[i].Id());
      }
    }
  }

  lemma NotAmongReady(tasks: seq<AgentTask>, i: nat)
    requires Distinct(TaskIds(tasks)) && i < |tasks| && tasks[i].status != Ready
    ensures tasks[i].Id() !in TaskIds(ReadyTasks(tasks))
  {
    var ready := ReadyTasks(tasks);
    forall k | 0 <= k < |ready|
      ensures TaskIds(ready)[k] != tasks[i].Id()
    {
      assert ready[k] in ready;
      var j :| 0 <= j < |tasks| && tasks[j] == ready[k];
      assert TaskIds(tasks)[i] != TaskIds(tasks)[j];
    }
  }

  lemma {:induction false} ReadyIdsDistinct(tasks: seq<AgentTask>)
    requires Distinct(TaskIds(tasks))
    ensures Distinct(TaskIds(ReadyTasks(tasks)))
  {
    if tasks != [] {
      var init, last := tasks[..|tasks| - 1], tasks[|tasks| - 1];
      TaskIdsPrefix(tasks);
      ReadyIdsDistinct(init);
      var ready := ReadyTasks(init);
      assert ready == Filter((t: AgentTask) => t.status == Ready, init);
      if last.status == Ready {
        assert TaskIds(ready + [last]) == TaskIds(ready) + [last.Id()];
        forall k | 0 <= k < |ready| ensures TaskIds(ready)[k] != last.Id() {
          assert ready[k] in ready;
          var j :| 0 <= j < |init| && init[j] == ready[k];
          assert TaskIds(tasks)[j] != TaskIds(tasks)[|init|];
        }
      }
    }
  }

  class Coordinator {
    const definitions: seq<TaskDefinition>
    const agents: seq<AgentManifest>
    const knownCapabilities: set<string>
    var tasks: seq<AgentTask>
    var session: Option<SessionStatus>
    var latestSnapshot: Option<Snapshot>
    var tickInFlight: Option<seq<AgentTask>> // the tasks it is executing
    ghost var log: seq<Invocation>
    ghost var unsettled: seq<Invocation>
    ghost var retries: nat
    ghost var rejections: nat
    ghost var torn: bool
    ghost var resumed: bool

    ghost predicate Valid()
      reads this
    {
      && (latestSnapshot.Some? ==>
           && session.Some? && Distinct(Ids(definitions))
           && TaskIds(tasks) == Ids(definitions) && TaskIds(latestSnapshot.value.tasks) == Ids(definitions)
           && latestSnapshot.value.readyTaskIds == TaskIds(ReadyTasks(latestSnapshot.value.tasks)))
      && (tickInFlight.Some? ==> latestSnapshot.Some? && tickInFlight.value == ReadyTasks(latestSnapshot.value.tasks))
    }

    ghost function Value(): Machine
      reads this
      requires session.Some? && latestSnapshot.Some?
    {
      Machine(Run(tasks, session.value), latestSnapshot.value.tasks, tickInFlight.Some?, log, unsettled, retries,
              rejections, torn, resumed)
    }

    constructor (definitions: seq<TaskDefinition>, agents: seq<AgentManifest>, knownCapabilities: set<string>)
      ensures Valid() && latestSnapshot.None? && tickInFlight.None?
      ensures this.definitions == definitions && this.agents == agents && this.knownCapabilities == knownCapabilities
    {
      this.definitions, this.agents, this.knownCapabilities := definitions, agents, knownCapabilities;
      tasks, session, latestSnapshot, tickInFlight := [], None, None, None;
      log, unsettled, retries, rejections, torn, resumed := [], [], 0, 0, false, false;
    }

    /**
      * Starts exactly the workflows the validator accepts; a refused one changes nothing. A save that fails leaves the
      * tasks as far as they were set up, and the snapshot as it was: without one, no tick can follow.
      */
    method Start(reach: Reach) returns (r: StartResult)
      requires Valid() && tickInFlight.None?
      modifies this
      ensures Valid() && tickInFlight.None?
      ensures r.NotStarted? <==> !(WellFormed(definitions, knownCapabilities) && Acyclic(GraphOf(definitions)))
      ensures r.Began? ==> reach.WholeTick? && session.Some? && latestSnapshot == Some(r.snapshot) && Value() == Initially(definitions)
      ensures r.StartFailed? ==>
                && !reach.WholeTick? && latestSnapshot == old(latestSnapshot) && session == Some(SessionRunning)
                && tasks == if reach.NoPart? then Fresh(definitions) else Started(definitions).tasks
      ensures r.NotStarted? ==> r.errors == if WellFormed(definitions, knownCapabilities)
                                            then [CyclicDependency(DoomedIds(definitions))]
                                            else StaticErrors(definitions, knownCapabilities)
      ensures r.NotStarted? ==> unchanged(this)
    {
      hide Acyclic, GraphOf, StaticErrors, DoomedIds, ReadyTasks, SessionInv, Reconciled, ScheduleReadyTasks;
      var validation := ValidateTaskDag(definitions, knownCapabilities);
      if validation.Rejected? {
        return NotStarted(validation.errors);
      }
      session := Some(SessionRunning);
      tasks := Fresh(definitions);
      log, unsettled, retries, rejections, torn, resumed := [], [], 0, 0, !reach.WholeTick?, false;
      assert TaskIds(tasks) == Ids(definitions);
      if reach.NoPart? {
        return StartFailed;
      }
      StartedSession(definitions);
      ReconcileReadiness(reach);
      if !reach.WholeTick? {
        return StartFailed;
      }
      r := Began(latestSnapshot.value);
    }

    /** Begins a tick on the latest snapshot, or joins the one in flight. */
    method Tick() returns (r: TickStart)
      requires Valid()
      modifies `tickInFlight, `resumed, `retries
      ensures Valid()
      ensures r == if latestSnapshot.None? then CoordinatorNotStarted else if old(tickInFlight).Some? then Joined else Launched
      ensures latestSnapshot.None? ==> tickInFlight == old(tickInFlight) && resumed == old(resumed) && retries == old(retries)
      ensures latestSnapshot.Some? ==> session.Some? && tickInFlight.Some? && Value() == Step(agents, old(Value()), Call)
    {
      if tickInFlight.Some? {
        return Joined;
      }
      if latestSnapshot.None? {
        return CoordinatorNotStarted;
      }
      tickInFlight := Some(ReadyTasks(latestSnapshot.value.tasks));
      resumed := resumed || torn;
      retries := retries + if unsettled != [] then 1 else 0;
      r := Launched;
    }

    /**
      * The tick in flight ends. When executing the tasks throws, what they did is forgotten; otherwise the results
      * replace the tasks and readiness is reconciled, as far as its saves succeed.
      */
    method EndTick(outcomes: string -> Outcome, reach: Reach) returns (settled: bool)
      requires Valid() && tickInFlight.Some?
      modifies this
      ensures Valid() && latestSnapshot.Some? && session.Some? && tickInFlight.None? && settled == reach.WholeTick?
      ensures old(session.Some? && latestSnapshot.Some?) && Value() == Step(agents, old(Value()), End(outcomes, reach))
    {
      hide ExecuteTask, Invocations, Reconciled, Overlaid, TaskIds, Ids, ReadyTasks, Distinct, ScheduleReadyTasks;
      var readyTasks := tickInFlight.value;
      tickInFlight := None;
      log := log + Invocations(agents, latestSnapshot.value.tasks, outcomes);
      unsettled := if reach.WholeTick? then [] else unsettled + Invocations(agents, latestSnapshot.value.tasks, outcomes);
      rejections := rejections + if reach.WholeTick? then 0 else 1;
      torn := torn || reach.TasksPart? || reach.SessionPart?;
      if reach.NoPart? {
        return false;
      }
      Execute(readyTasks, outcomes);
      ReconcileReadiness(reach);
      settled := reach.WholeTick?;
    }

    /** The attempts of the ready tasks replace the tasks, matched by id. */
    method Execute(readyTasks: seq<AgentTask>, outcomes: string -> Outcome)
      requires Valid() && latestSnapshot.Some? && readyTasks == ReadyTasks(latestSnapshot.value.tasks)
      modifies `tasks
      ensures Valid()
      ensures tasks == Overlaid(agents, old(tasks), latestSnapshot.value.tasks, outcomes)
    {
      hide ExecuteTask, Merged, Attempts, Overlaid, ReadyTasks, Distinct;
      var updatedTasks := Attempts(agents, readyTasks, outcomes);
      MergingIsOverlaying(agents, tasks, latestSnapshot.value.tasks, outcomes);
      OverlaidIds(agents, tasks, latestSnapshot.value.tasks, outcomes);
      tasks := Merged(tasks, updatedTasks);
    }

    /** The tasks are replaced before they are saved, the session before it is saved, and the snapshot last of all. */
    method ReconcileReadiness(reach: Reach)
      requires session.Some? && Distinct(Ids(definitions)) && TaskIds(tasks) == Ids(definitions) && !reach.NoPart?
      requires latestSnapshot.Some? ==>
                 && TaskIds(latestSnapshot.value.tasks) == Ids(definitions)
                 && latestSnapshot.value.readyTaskIds == TaskIds(ReadyTasks(latestSnapshot.value.tasks))
      requires tickInFlight.None?
      modifies `tasks, `session, `latestSnapshot
      ensures Valid() && session.Some?
      ensures tasks == Reconciled(Run(old(tasks), old(session.value))).tasks
      ensures session.value == if Leaves(reach, TheSession) then Reconciled(Run(old(tasks), old(session.value))).session
                               else old(session.value)
      ensures if reach.WholeTick?
              then latestSnapshot == Some(Snapshot(tasks, TaskIds(ReadyTasks(tasks)),
                                                   ScheduleReadyTasks(old(tasks)).blockedByFailedDependencyTaskIds))
              else latestSnapshot == old(latestSnapshot)
    {
      var scheduling := ScheduleReadyTasks(tasks);
      assert TaskIds(scheduling.tasks) == TaskIds(tasks);
      tasks := scheduling.tasks;
      if reach.TasksPart? {
        return;
      }
      UpdateSessionStatus();
      if reach.SessionPart? {
        return;
      }
      latestSnapshot := Some(Snapshot(tasks, scheduling.readyTaskIds, scheduling.blockedByFailedDependencyTaskIds));
    }

    method UpdateSessionStatus()
      requires session.Some?
      modifies `session
      ensures session == Some(SessionAfter(tasks, old(session.value)))
    {
      var allCompleted := AllCompleted(tasks);
      var terminalFailure := AnyFailed(tasks);
      if !allCompleted && !terminalFailure {
        return;
      }
      var status := if allCompleted then SessionCompleted else SessionFailed;
      if session.value == status {
        return;
      }
      session := Some(status);
    }
  }

  lemma OverlaidIds(agents: seq<AgentManifest>, tasks: seq<AgentTask>, snapshot: seq<AgentTask>, outcomes: string -> Outcome)
    requires TaskIds(tasks) == TaskIds(snapshot)
    ensures TaskIds(Overlaid(agents, tasks, snapshot, outcomes)) == TaskIds(tasks)
  {
    hide ExecuteTask;
    forall i | 0 <= i < |tasks| ensures Overlaid(agents, tasks, snapshot, outcomes)[i].Id() == tasks[i].Id() {
      assert TaskIds(tasks)[i] == TaskIds(snapshot)[i];
      ExecutionKeepsId(agents, snapshot[i], outcomes(snapshot[i].Id()));
    }
  }

  /**
    * The service's loop over a freshly started coordinator: it ticks until nothing is ready, the cap is reached, or a tick
    * rejects, after which it never ticks again. For the fixed workflow nothing is ready in the end, whatever the attempts
    * did, unless a tick rejected. However it ends, no task was executed more often than allowed, nor twice for one attempt.
    */
  method RunCoordinator(coordinator: Coordinator, outcomes: seq<string -> Outcome>, reaches: seq<Reach>)
    returns (ticks: nat, rejected: bool)
    requires coordinator.Valid() && coordinator.latestSnapshot.Some? && coordinator.session.Some?
    requires coordinator.Value() == Initially(coordinator.definitions)
    requires |outcomes| == |reaches| == TICK_CAP
    modifies coordinator
    ensures ticks <= TICK_CAP && coordinator.session.Some? && coordinator.latestSnapshot.Some?
    ensures !coordinator.Value().resumed
    ensures coordinator.Value().snapshot == After(coordinator.agents, coordinator.definitions, outcomes[..ticks]).tasks
    ensures rejected <==> ticks < TICK_CAP && !reaches[ticks].WholeTick? && AnyReady(coordinator.Value().snapshot)
    ensures !rejected ==> coordinator.Value().run == After(coordinator.agents, coordinator.definitions, outcomes[..ticks])
    ensures !rejected && ticks < TICK_CAP ==> !AnyReady(coordinator.tasks)
    ensures coordinator.definitions == SALES_RECOVERY_TASKS ==> ticks <= 6 && (!rejected ==> !AnyReady(coordinator.tasks))
    ensures forall i :: 0 <= i < |coordinator.definitions| ==> WithinLimits(coordinator.Value().log, coordinator.definitions[i])
  {
    hide WithinLimits, Steps, Step;
    hide After, Initially, Ticked, CoordinatorRun.Tick, ReadyTasks, AnyReady, TaskIds, Distinct;
    ticks, rejected := 0, false;
    RunStarts(coordinator.agents, coordinator.definitions, outcomes);
    ghost var events: seq<Event> := [];
    StepsStart(coordinator.agents, coordinator.definitions);
    DistinctDefinitions(coordinator);
    CallsWithinLimits(coordinator.agents, coordinator.definitions, events);
    while ticks < TICK_CAP
      invariant ticks <= TICK_CAP && !rejected
      invariant coordinator.Valid() && coordinator.latestSnapshot.Some? && coordinator.session.Some?
      invariant InStep(coordinator.Value(), After(coordinator.agents, coordinator.definitions, outcomes[..ticks]))
      invariant coordinator.definitions == SALES_RECOVERY_TASKS ==> ticks <= 6
      invariant coordinator.Value() == Steps(coordinator.agents, coordinator.definitions, events)
      invariant forall i :: 0 <= i < |coordinator.definitions| ==> WithinLimits(coordinator.Value().log, coordinator.definitions[i])
    {
      var snapshot := coordinator.latestSnapshot.value;
      ReadyIdsShowReady(snapshot.tasks);
      RestsInTime(coordinator.agents, coordinator.definitions, outcomes, ticks);
      if snapshot.readyTaskIds == [] {
        return;
      }
      ghost var before := coordinator.Value();
      TickInStep(coordinator.agents, coordinator.definitions, outcomes, ticks, before, reaches[ticks]);
      var _ := coordinator.Tick();
      var settled := coordinator.EndTick(outcomes[ticks], reaches[ticks]);
      TwoSteps(coordinator.agents, coordinator.definitions, events, Call, End(outcomes[ticks], reaches[ticks]));
      events := events + [Call] + [End(outcomes[ticks], reaches[ticks])];
      CallsWithinLimits(coordinator.agents, coordinator.definitions, events);
      if !settled {
        return ticks, true;
      }
      ticks := ticks + 1;
    }
  }

  /** At most one call for an attempt, and none beyond the limit. */
  ghost predicate WithinLimits(log: seq<Invocation>, d: TaskDefinition) {
    && CallsOf(log, d.id) <= (if d.maxAttempts > 0 then d.maxAttempts else 0)
    && forall a: nat :: Count(log, Invocation(d.id, a)) <= if 1 <= a <= d.maxAttempts then 1 else 0
  }

  lemma CallsWithinLimits(agents: seq<AgentManifest>, definitions: seq<TaskDefinition>, events: seq<Event>)
    requires Distinct(Ids(definitions)) && Steps(agents, definitions, events).retries == 0
    ensures forall i :: 0 <= i < |definitions| ==> WithinLimits(Steps(agents, definitions, events).log, definitions[i])
  {
    hide Steps, CallsOf, Count;
    forall i | 0 <= i < |definitions|
      ensures WithinLimits(Steps(agents, definitions, events).log, definitions[i])
    {
      AttemptsAreBounded(agents, definitions, events, i, 0);
      forall a: nat
        ensures Count(Steps(agents, definitions, events).log, Invocation(definitions[i].id, a))
             <= if 1 <= a <= definitions[i].maxAttempts then 1 else 0
      {
        AttemptsAreBounded(agents, definitions, events, i, a);
      }
    }
  }

  lemma StepsStart(agents: seq<AgentManifest>, definitions: seq<TaskDefinition>)
    ensures Steps(agents, definitions, []) == Initially(definitions) && Initially(definitions).retries == 0
  {
  }

  lemma TwoSteps(agents: seq<AgentManifest>, definitions: seq<TaskDefinition>, events: seq<Event>, first: Event, second: Event)
    ensures Steps(agents, definitions, events + [first] + [second])
         == Step(agents, Step(agents, Steps(agents, definitions, events), first), second)
  {
    hide Step;
    assert (events + [first] + [second])[..|events| + 1] == events + [first];
    assert (events + [first])[..|events|] == events;
  }

  lemma DistinctDefinitions(coordinator: Coordinator)
    requires coordinator.Valid() && coordinator.latestSnapshot.Some?
    ensures Distinct(Ids(coordinator.definitions))
  {
  }

  /** The coordinator rests on a snapshot that shows everything. */
  ghost predicate InStep(m: Machine, run: Run) {
    m.run == run && m.snapshot == run.tasks && !m.inFlight && !m.torn && !m.resumed && m.retries == 0 && m.unsettled == []
  }

  lemma TickInStep(agents: seq<AgentManifest>, definitions: seq<TaskDefinition>, outcomes: seq<string -> Outcome>, k: nat,
                   m: Machine, reach: Reach)
    requires k < |outcomes| && InStep(m, After(agents, definitions, outcomes[..k]))
    ensures var after := Step(agents, Step(agents, m, Call), End(outcomes[k], reach));
      && !after.resumed && after.retries == 0
      && (reach.WholeTick? ==> InStep(after, After(agents, definitions, outcomes[..k + 1])))
      && (!reach.WholeTick? ==> after.snapshot == m.snapshot)
  {
    hide Ticked, Invocations, After, CoordinatorRun.Tick;
    RunContinues(agents, definitions, outcomes, k);
    OverlayOfSame(agents, m.run, outcomes[k]);
  }

  lemma RunStarts(agents: seq<AgentManifest>, definitions: seq<TaskDefinition>, outcomes: seq<string -> Outcome>)
    ensures InStep(Initially(definitions), After(agents, definitions, outcomes[..0]))
  {
  }

  lemma RunContinues(agents: seq<AgentManifest>, definitions: seq<TaskDefinition>, outcomes: seq<string -> Outcome>, k: nat)
    requires k < |outcomes|
    ensures After(agents, definitions, outcomes[..k + 1]) == Tick(agents, After(agents, definitions, outcomes[..k]), outcomes[k])
  {
    assert outcomes[..k + 1][..k] == outcomes[..k];
  }

  lemma RestsInTime(agents: seq<AgentManifest>, definitions: seq<TaskDefinition>, outcomes: seq<string -> Outcome>, k: nat)
    requires k <= |outcomes|
    ensures definitions == SALES_RECOVERY_TASKS && k >= 6 ==> !AnyReady(After(agents, definitions, outcomes[..k]).tasks)
  {
    if definitions == SALES_RECOVERY_TASKS && k >= 6 {
      SalesRunFitsTheCap(agents, outcomes[..k]);
    }
  }

  lemma ReadyIdsShowReady(tasks: seq<AgentTask>)
    ensures TaskIds(ReadyTasks(tasks)) == [] <==> !AnyReady(tasks)
  {
    var ready := ReadyTasks(tasks);
    assert ready != [] ==> ready[0] in ready;
    assert forall t :: t in ready <==> t in tasks && t.status == Ready;
  }
}
