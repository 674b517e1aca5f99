/** Overlapping calls of `tick`, ticks that reject part-way, and the calls of the executor that they cause. */
module CoordinatorCalls {
  import opened Wrappers
  import opened Sequences
  import opened TaskDefinitions
  import opened TaskLifecycle
  import opened CapabilityRouter
  import opened Scheduler
  import opened CoordinatorRun

  /** The executor was called for one attempt of a task. */
  datatype Invocation = Invocation(taskId: string, attempt: nat)

  /** The calls one tick makes, with the attempt each is for. */
  function Invocations(agents: seq<AgentManifest>, tasks: seq<AgentTask>, outcomes: string -> Outcome): seq<Invocation> {
    if tasks == [] then []
    else
      var last := tasks[|tasks| - 1];
      Invocations(agents, tasks[..|tasks| - 1], outcomes)
      + if Invokes(agents, last, outcomes(last.Id())) then [Invocation(last.Id(), last.attempt + 1)] else []
  }

  // ---------- the coordinator between events ----------

  /**
    * How much of its effect a tick leaves behind. An exception while tasks are executed leaves nothing; one while the
    * reconciled tasks are saved leaves the tasks; one while the session is saved leaves the session status as well. Only
    * a tick that settles replaces the snapshot, from which the next tick takes its ready tasks.
    */
  datatype Reach = NoPart | TasksPart | SessionPart | WholeTick

  datatype Part = TheTasks | TheSession | TheSnapshot

  predicate Leaves(reach: Reach, part: Part) {
    match part
    case TheTasks => !reach.NoPart?
    case TheSession => reach.SessionPart? || reach.WholeTick?
    case TheSnapshot => reach.WholeTick?
  }

  /** Every task, or what its attempt made of it when the snapshot has it ready. */
  function Overlaid(agents: seq<AgentManifest>, tasks: seq<AgentTask>, snapshot: seq<AgentTask>, outcomes: string -> Outcome)
    : (r: seq<AgentTask>)
    ensures |r| == |tasks|
    ensures forall i :: 0 <= i < |r| ==>
              r[i] == if i < |snapshot| && snapshot[i].status == Ready
                      then ExecuteTask(agents, snapshot[i], outcomes(snapshot[i].Id())) else tasks[i]
  {
    seq(|tasks|, i requires 0 <= i < |tasks| =>
      if i < |snapshot| && snapshot[i].status == Ready
      then ExecuteTask(agents, snapshot[i], outcomes(snapshot[i].Id())) else tasks[i])
  }

  /** One whole tick over tasks and a snapshot that need not agree. */
  function Ticked(agents: seq<AgentManifest>, run: Run, snapshot: seq<AgentTask>, outcomes: string -> Outcome): Run {
    Reconciled(run.(tasks := Overlaid(agents, run.tasks, snapshot, outcomes)))
  }

  /** A coordinator between events: at most one tick is in flight, however many callers wait for it. */
  datatype Machine = Machine(
    run: Run,
    snapshot: seq<AgentTask>,
    inFlight: bool,
    log: seq<Invocation>,       // history
    unsettled: seq<Invocation>, // history: the calls of ticks that have been rejected since the last one settled
    retries: nat,               // history: the ticks started while there were such calls
    rejections: nat,            // history
    torn: bool,                 // history: a tick was rejected after it had replaced the tasks
    resumed: bool               // history: a tick was started after that
  )

  datatype Event =
    | Call                                             // `tick` is called; a call during a tick joins it
    | End(outcomes: string -> Outcome, reach: Reach)   // the tick in flight settles or rejects

  function Step(agents: seq<AgentManifest>, m: Machine, e: Event): Machine {
    match e
    case Call =>
      m.(inFlight := true,
         resumed := m.resumed || (!m.inFlight && m.torn),
         retries := m.retries + if !m.inFlight && m.unsettled != [] then 1 else 0)
    case End(outcomes, reach) =>
      if !m.inFlight then m
      else
        var ticked := Ticked(agents, m.run, m.snapshot, outcomes);
        m.(run := Run(if Leaves(reach, TheTasks) then ticked.tasks else m.run.tasks,
                      if Leaves(reach, TheSession) then ticked.session else m.run.session),
           snapshot := if Leaves(reach, TheSnapshot) then ticked.tasks else m.snapshot,
           inFlight := false,
           log := m.log + Invocations(agents, m.snapshot, outcomes),
           unsettled := if reach.WholeTick? then [] else m.unsettled + Invocations(agents, m.snapshot, outcomes),
           rejections := m.rejections + if reach.WholeTick? then 0 else 1,
           torn := m.torn || reach.TasksPart? || reach.SessionPart?)
  }

  function Initially(definitions: seq<TaskDefinition>): Machine {
    Machine(Started(definitions), Started(definitions).tasks, false, [], [], 0, 0, false, false)
  }

  function Steps(agents: seq<AgentManifest>, definitions: seq<TaskDefinition>, events: seq<Event>): Machine {
    if events == [] then Initially(definitions)
    else Step(agents, Steps(agents, definitions, events[..|events| - 1]), events[|events| - 1])
  }

  // ---------- counting calls ----------

  /** How often the executor was called for a task. */
  function CallsOf(log: seq<Invocation>, id: string): nat {
    if log == [] then 0 else CallsOf(log[..|log| - 1], id) + if log[|log| - 1].taskId == id then 1 else 0
  }

  lemma {:induction false} CallsAppend(a: seq<Invocation>, b: seq<Invocation>, id: string)
    ensures CallsOf(a + b, id) == CallsOf(a, id) + CallsOf(b, id)
  {
    if b == [] {
      assert a + b == a;
    } else {
      assert (a + b)[..|a + b| - 1] == a + b[..|b| - 1];
      CallsAppend(a, b[..|b| - 1], id);
    }
  }

  /** One tick calls the executor at most once for a task, and for its next attempt. */
  lemma {:induction false} CallsOfTick(agents: seq<AgentManifest>, tasks: seq<AgentTask>, outcomes: string -> Outcome, i: nat, a: nat)
    requires Distinct(TaskIds(tasks)) && i < |tasks|
    ensures var t, calls := tasks[i], Invocations(agents, tasks, outcomes);
      && CallsOf(calls, t.Id()) == (if Invokes(agents, t, outcomes(t.Id())) then 1 else 0)
      && Count(calls, Invocation(t.Id(), a)) == (if Invokes(agents, t, outcomes(t.Id())) && a == t.attempt + 1 then 1 else 0)
  {
    hide CallsOf, Count, Invokes;
    var init, last := tasks[..|tasks| - 1], tasks[|tasks| - 1];
    var t := tasks[i];
    TaskIdsPrefix(tasks);
    var added := if Invokes(agents, last, outcomes(last.Id())) then [Invocation(last.Id(), last.attempt + 1)] else [];
    CallsAppend(Invocations(agents, init, outcomes), added, t.Id());
    CountAppend(Invocations(agents, init, outcomes), added, Invocation(t.Id(), a));
    SingleCall(added, t.Id(), a);
    if i < |init| {
      assert TaskIds(tasks)[i] != TaskIds(tasks)[|init|];
      CallsOfTick(agents, init, outcomes, i, a);
    } else {
      NoCalls(agents, init, outcomes, t.Id(), a);
    }
  }

  lemma SingleCall(calls: seq<Invocation>, id: string, a: nat)
    requires |calls| <= 1
    ensures CallsOf(calls, id) == if calls != [] && calls[0].taskId == id then 1 else 0
    ensures Count(calls, Invocation(id, a)) == if calls != [] && calls[0] == Invocation(id, a) then 1 else 0
  {
    if calls != [] {
      assert calls[..0] == [];
    }
  }

  lemma {:induction false} NoCalls(agents: seq<AgentManifest>, tasks: seq<AgentTask>, outcomes: string -> Outcome, id: string, a: nat)
    requires id !in TaskIds(tasks)
    ensures CallsOf(Invocations(agents, tasks, outcomes), id) == 0
    ensures Count(Invocations(agents, tasks, outcomes), Invocation(id, a)) == 0
  {
    if tasks != [] {
      var init, last := tasks[..|tasks| - 1], tasks[|tasks| - 1];
      TaskIdsPrefix(tasks);
      NoCalls(agents, init, outcomes, id, a);
      var added := if Invokes(agents, last, outcomes(last.Id())) then [Invocation(last.Id(), last.attempt + 1)] else [];
      CallsAppend(Invocations(agents, init, outcomes), added, id);
      CountAppend(Invocations(agents, init, outcomes), added, Invocation(id, a));
      SingleCall(added, id, a);
      assert TaskIds(tasks)[|init|] == last.Id();
    }
  }

  // ---------- what every event keeps ----------

  /** The limits on attempts, whatever the dependencies. */
  ghost predicate Bounded(t: AgentTask) {
    && t.status in {Blocked, Ready, Completed, Failed, Unassigned}
    && (t.status == Blocked ==> t.attempt == 0 && t.assignedAgentId == None)
    && (t.status == Ready ==> t.attempt == 0 || t.attempt < t.definition.maxAttempts)
    && (t.status == Completed ==> 1 <= t.attempt <= t.definition.maxAttempts)
    && (t.status == Failed ==> 1 <= t.attempt == t.definition.maxAttempts)
    && (t.status == Unassigned ==> t.attempt == 0 || t.attempt < t.definition.maxAttempts)
  }

  ghost predicate IsAttemptOf(agents: seq<AgentManifest>, s: AgentTask, t: AgentTask) {
    t == ExecuteTask(agents, s, Returned) || t == ExecuteTask(agents, s, Thrown(true))
  }

  /** How a task relates to its place in the snapshot: at most one attempt, or one release, ahead of it. */
  ghost predicate Linked(agents: seq<AgentManifest>, s: AgentTask, t: AgentTask) {
    && (Done(s) ==> t == s)
    && (s.status == Blocked ==> t == s || t == s.(status := Ready))
    && (s.status == Ready ==> t == s || IsAttemptOf(agents, s, t))
  }

  ghost predicate MachineInv(agents: seq<AgentManifest>, definitions: seq<TaskDefinition>, m: Machine) {
    && Distinct(Ids(definitions)) && Follows(definitions, m.snapshot) && Follows(definitions, m.run.tasks)
    && (forall i :: 0 <= i < |definitions| ==> Bounded(m.snapshot[i]) && Linked(agents, m.snapshot[i], m.run.tasks[i]))
    && (m.torn && !m.resumed ==> !m.inFlight)
  }

  lemma AttemptIsAttempt(agents: seq<AgentManifest>, s: AgentTask, outcome: Outcome)
    ensures IsAttemptOf(agents, s, ExecuteTask(agents, s, outcome))
  {
  }

  lemma LinkedIsBounded(agents: seq<AgentManifest>, s: AgentTask, t: AgentTask)
    requires Bounded(s) && Linked(agents, s, t)
    ensures Bounded(t) && t.definition == s.definition && t.attempt >= s.attempt
  {
    if s.status == Ready {
      Execution(agents, s, Returned);
      Execution(agents, s, Thrown(true));
    }
    hide ExecuteTask;
  }

  /** What one tick makes of a task. */
  ghost predicate TickedAt(agents: seq<AgentManifest>, s: AgentTask, t: AgentTask, u: AgentTask, outcomes: string -> Outcome) {
    if s.status == Ready then u == ExecuteTask(agents, s, outcomes(s.Id()))
    else if t.status == Blocked then u == t || u == t.(status := Ready)
    else u == t
  }

  lemma TickedPlaces(agents: seq<AgentManifest>, definitions: seq<TaskDefinition>, m: Machine, outcomes: string -> Outcome)
    requires MachineInv(agents, definitions, m)
    ensures var after := Ticked(agents, m.run, m.snapshot, outcomes).tasks;
      && Follows(definitions, after)
      && forall i :: 0 <= i < |definitions| ==> TickedAt(agents, m.snapshot[i], m.run.tasks[i], after[i], outcomes)
  {
    var overlaid := Overlaid(agents, m.run.tasks, m.snapshot, outcomes);
    var after := Ticked(agents, m.run, m.snapshot, outcomes).tasks;
    assert after == RescheduledAll(overlaid);
    forall i | 0 <= i < |definitions|
      ensures after[i].definition == definitions[i] && TickedAt(agents, m.snapshot[i], m.run.tasks[i], after[i], outcomes)
    {
      assert Bounded(m.snapshot[i]);
      PlaceTicked(agents, overlaid, m.snapshot[i], m.run.tasks[i], outcomes, i);
    }
  }

  lemma PlaceTicked(agents: seq<AgentManifest>, overlaid: seq<AgentTask>, s: AgentTask, t: AgentTask,
                    outcomes: string -> Outcome, i: nat)
    requires i < |overlaid| && Bounded(s) && t.definition == s.definition
    requires overlaid[i] == if s.status == Ready then ExecuteTask(agents, s, outcomes(s.Id())) else t
    ensures TickedAt(agents, s, t, Rescheduled(overlaid, overlaid[i]), outcomes)
    ensures Rescheduled(overlaid, overlaid[i]).definition == s.definition
  {
    hide DependencyFailed, DependenciesCompleted;
    if s.status == Ready {
      Execution(agents, s, outcomes(s.Id()));
    }
    hide ExecuteTask;
  }

  lemma TickedIsLinked(agents: seq<AgentManifest>, s: AgentTask, t: AgentTask, u: AgentTask, outcomes: string -> Outcome)
    requires Bounded(s) && Linked(agents, s, t) && TickedAt(agents, s, t, u, outcomes)
    ensures Linked(agents, s, u) && Bounded(u)
  {
    AttemptIsAttempt(agents, s, outcomes(s.Id()));
    hide IsAttemptOf, ExecuteTask;
    assert Linked(agents, s, u);
    LinkedIsBounded(agents, s, u);
  }

  lemma StepKeepsMachine(agents: seq<AgentManifest>, definitions: seq<TaskDefinition>, m: Machine, e: Event)
    requires MachineInv(agents, definitions, m)
    ensures MachineInv(agents, definitions, Step(agents, m, e))
  {
    if e.End? && m.inFlight {
      var after := Ticked(agents, m.run, m.snapshot, e.outcomes).tasks;
      TickedPlaces(agents, definitions, m, e.outcomes);
      hide Ticked, TickedAt, Invocations;
      forall i | 0 <= i < |definitions|
        ensures Bounded(after[i]) && Linked(agents, m.snapshot[i], after[i]) && Linked(agents, after[i], after[i])
      {
        TickedIsLinked(agents, m.snapshot[i], m.run.tasks[i], after[i], e.outcomes);
      }
      hide Linked, Bounded;
    }
  }

  lemma StartKeepsMachine(agents: seq<AgentManifest>, definitions: seq<TaskDefinition>)
    requires Distinct(Ids(definitions))
    ensures MachineInv(agents, definitions, Initially(definitions))
  {
    StartInv(definitions);
    var tasks := Started(definitions).tasks;
    forall i | 0 <= i < |tasks| ensures Bounded(tasks[i]) && Linked(agents, tasks[i], tasks[i]) {
      assert tasks[i] in tasks;
      NoneAssigned(definitions, i);
    }
  }

  lemma NoneAssigned(definitions: seq<TaskDefinition>, i: nat)
    requires i < |definitions|
    ensures i < |Started(definitions).tasks| && Started(definitions).tasks[i].assignedAgentId == None
  {
    hide DependencyFailed, DependenciesCompleted;
  }

  lemma {:induction false} StepsKeepMachine(agents: seq<AgentManifest>, definitions: seq<TaskDefinition>, events: seq<Event>)
    requires Distinct(Ids(definitions))
    ensures MachineInv(agents, definitions, Steps(agents, definitions, events))
  {
    hide MachineInv, Step, Initially;
    if events == [] {
      StartKeepsMachine(agents, definitions);
    } else {
      StepsKeepMachine(agents, definitions, events[..|events| - 1]);
      StepKeepsMachine(agents, definitions, Steps(agents, definitions, events[..|events| - 1]), events[|events| - 1]);
    }
  }

  // ---------- overlapping calls are one tick ----------

  /** The ticks that left a part of the coordinator as they made it, in order. */
  function TicksLeaving(agents: seq<AgentManifest>, definitions: seq<TaskDefinition>, events: seq<Event>, part: Part)
    : seq<string -> Outcome>
  {
    if events == [] then []
    else
      var init, last := events[..|events| - 1], events[|events| - 1];
      TicksLeaving(agents, definitions, init, part)
      + if last.End? && Steps(agents, definitions, init).inFlight && Leaves(last.reach, part) then [last.outcomes] else []
  }

  lemma OverlayOfSame(agents: seq<AgentManifest>, run: Run, outcomes: string -> Outcome)
    ensures Ticked(agents, run, run.tasks, outcomes) == Tick(agents, run, outcomes)
  {
    hide ExecuteTask, Reconciled;
    assert Overlaid(agents, run.tasks, run.tasks, outcomes) == Worked(agents, run.tasks, outcomes);
  }

  lemma AfterOneMore(agents: seq<AgentManifest>, definitions: seq<TaskDefinition>, ticks: seq<string -> Outcome>, o: string -> Outcome)
    ensures After(agents, definitions, ticks + [o]) == Tick(agents, After(agents, definitions, ticks), o)
  {
    assert (ticks + [o])[..|ticks|] == ticks;
  }

  /** As long as no tick has been started after a tear, what each part holds follows from the ticks that left it. */
  ghost predicate Coalesced(agents: seq<AgentManifest>, definitions: seq<TaskDefinition>, m: Machine,
                            tasks: seq<string -> Outcome>, session: seq<string -> Outcome>, snapshot: seq<string -> Outcome>) {
    && m.run.tasks == After(agents, definitions, tasks).tasks
    && m.run.session == After(agents, definitions, session).session
    && m.snapshot == After(agents, definitions, snapshot).tasks
    && (!m.torn ==> tasks == session == snapshot)
    && (m.torn ==> !m.inFlight && |tasks| == |snapshot| + 1 && snapshot == tasks[..|snapshot|]
                   && (session == snapshot || session == tasks))
  }

  lemma EndCoalesces(agents: seq<AgentManifest>, definitions: seq<TaskDefinition>, m: Machine, e: Event, ticks: seq<string -> Outcome>)
    requires e.End? && m.inFlight && !m.torn && Coalesced(agents, definitions, m, ticks, ticks, ticks)
    ensures var all := ticks + [e.outcomes];
      Coalesced(agents, definitions, Step(agents, m, e),
                if Leaves(e.reach, TheTasks) then all else ticks,
                if Leaves(e.reach, TheSession) then all else ticks,
                if Leaves(e.reach, TheSnapshot) then all else ticks)
  {
    hide Invocations, Ticked, After, Tick;
    assert m.run == After(agents, definitions, ticks) && m.snapshot == m.run.tasks;
    OverlayOfSame(agents, m.run, e.outcomes);
    AfterOneMore(agents, definitions, ticks, e.outcomes);
    assert (ticks + [e.outcomes])[..|ticks|] == ticks;
  }

  /**
    * However calls overlap, and until a tick is started after one that was rejected with the tasks already replaced: the
    * tasks, the session status and the snapshot are those of the ticks that left them, one after the other, and these
    * series differ by at most the one rejected tick.
    */
  lemma {:induction false} CallsCoalesce(agents: seq<AgentManifest>, definitions: seq<TaskDefinition>, events: seq<Event>)
    requires !Steps(agents, definitions, events).resumed
    ensures Coalesced(agents, definitions, Steps(agents, definitions, events),
                      TicksLeaving(agents, definitions, events, TheTasks),
                      TicksLeaving(agents, definitions, events, TheSession),
                      TicksLeaving(agents, definitions, events, TheSnapshot))
  {
    hide After, Started;
    if events == [] {
      AfterNone(agents, definitions);
    } else {
      var init, e := events[..|events| - 1], events[|events| - 1];
      var before := Steps(agents, definitions, init);
      CallsCoalesce(agents, definitions, init);
      var ticks := TicksLeaving(agents, definitions, init, TheTasks);
      if e.End? && before.inFlight {
        hide Coalesced, Leaves;
        EndIsUntorn(agents, definitions, before, ticks, TicksLeaving(agents, definitions, init, TheSession),
                    TicksLeaving(agents, definitions, init, TheSnapshot));
        EndCoalesces(agents, definitions, before, e, ticks);
        hide Step;
        assert ticks + [] == ticks;
      } else {
        NothingLeft(agents, definitions, events);
        hide TicksLeaving;
      }
    }
  }

  lemma AfterNone(agents: seq<AgentManifest>, definitions: seq<TaskDefinition>)
    ensures After(agents, definitions, []) == Started(definitions)
  {
  }

  lemma EndIsUntorn(agents: seq<AgentManifest>, definitions: seq<TaskDefinition>, m: Machine, tasks: seq<string -> Outcome>,
                    session: seq<string -> Outcome>, snapshot: seq<string -> Outcome>)
    requires Coalesced(agents, definitions, m, tasks, session, snapshot) && m.inFlight
    ensures !m.torn && session == tasks && snapshot == tasks
  {
  }

  lemma NothingLeft(agents: seq<AgentManifest>, definitions: seq<TaskDefinition>, events: seq<Event>)
    requires events != []
    requires !(events[|events| - 1].End? && Steps(agents, definitions, events[..|events| - 1]).inFlight)
    ensures forall part :: TicksLeaving(agents, definitions, events, part)
                        == TicksLeaving(agents, definitions, events[..|events| - 1], part)
  {
    hide Steps;
  }

  // ---------- how often a task is executed ----------

  /** The executor would be called for the task, were it to be executed. */
  predicate CanCall(agents: seq<AgentManifest>, t: AgentTask) {
    Invokes(agents, t, Returned)
  }

  /** One call is beyond the attempts counted, until the next tick starts. */
  function Pending(m: Machine, t: AgentTask): nat {
    if !m.inFlight && CallsOf(m.unsettled, t.Id()) > 0 then 1 else 0
  }

  ghost predicate CallsInv(agents: seq<AgentManifest>, m: Machine, t: AgentTask) {
    && CallsOf(m.log, t.Id()) <= t.attempt + m.retries + Pending(m, t)
    && (forall a: nat :: 1 <= a <= t.attempt ==> Count(m.log, Invocation(t.Id(), a)) <= 1 + m.retries)
    && Count(m.log, Invocation(t.Id(), t.attempt + 1)) <= m.retries + Pending(m, t)
    && Count(m.log, Invocation(t.Id(), t.attempt + 1)) == CallsOf(m.unsettled, t.Id())
    && (forall a: nat :: a == 0 || a > t.attempt + 1 || a > t.definition.maxAttempts ==> Count(m.log, Invocation(t.Id(), a)) == 0)
    && (CallsOf(m.unsettled, t.Id()) > 0 ==> CanCall(agents, t))
  }

  lemma {:induction false} CallsAreBounded(agents: seq<AgentManifest>, definitions: seq<TaskDefinition>, events: seq<Event>, i: nat)
    requires Distinct(Ids(definitions)) && i < |definitions|
    ensures |Steps(agents, definitions, events).snapshot| == |definitions|
    ensures CallsInv(agents, Steps(agents, definitions, events), Steps(agents, definitions, events).snapshot[i])
  {
    hide Step;
    StepsKeepMachine(agents, definitions, events);
    if events != [] {
      var init := events[..|events| - 1];
      StepsKeepMachine(agents, definitions, init);
      CallsAreBounded(agents, definitions, init, i);
      StepKeepsCalls(agents, definitions, Steps(agents, definitions, init), events[|events| - 1], i);
    }
  }

  lemma StepKeepsCalls(agents: seq<AgentManifest>, definitions: seq<TaskDefinition>, m: Machine, e: Event, i: nat)
    requires MachineInv(agents, definitions, m) && i < |definitions| && CallsInv(agents, m, m.snapshot[i])
    ensures i < |Step(agents, m, e).snapshot| && CallsInv(agents, Step(agents, m, e), Step(agents, m, e).snapshot[i])
  {
    if e.End? && m.inFlight {
      EndKeepsCalls(agents, definitions, m, e, i);
    }
  }

  lemma SnapshotIds(definitions: seq<TaskDefinition>, tasks: seq<AgentTask>)
    requires Follows(definitions, tasks)
    ensures TaskIds(tasks) == Ids(definitions)
  {
  }

  /** What a tick makes of a task, and the calls it adds for it. */
  lemma EndCalls(agents: seq<AgentManifest>, definitions: seq<TaskDefinition>, m: Machine, outcomes: string -> Outcome, i: nat)
    requires MachineInv(agents, definitions, m) && i < |definitions|
    ensures var t, calls := m.snapshot[i], Invocations(agents, m.snapshot, outcomes);
      && CallsOf(m.log + calls, t.Id()) == CallsOf(m.log, t.Id()) + Added(agents, t, outcomes, t.attempt + 1)
      && CallsOf(m.unsettled + calls, t.Id()) == CallsOf(m.unsettled, t.Id()) + Added(agents, t, outcomes, t.attempt + 1)
      && forall a: nat :: Count(m.log + calls, Invocation(t.Id(), a))
                       == Count(m.log, Invocation(t.Id(), a)) + Added(agents, t, outcomes, a)
  {
    var t, calls := m.snapshot[i], Invocations(agents, m.snapshot, outcomes);
    SnapshotIds(definitions, m.snapshot);
    hide Invocations, Invokes, Linked, Bounded, CallsOf, Count;
    CallsAppend(m.log, calls, t.Id());
    CallsAppend(m.unsettled, calls, t.Id());
    CallsOfTick(agents, m.snapshot, outcomes, i, 0);
    forall a: nat
      ensures Count(m.log + calls, Invocation(t.Id(), a)) == Count(m.log, Invocation(t.Id(), a)) + Added(agents, t, outcomes, a)
    {
      CallsOfTick(agents, m.snapshot, outcomes, i, a);
      CountAppend(m.log, calls, Invocation(t.Id(), a));
    }
  }

  function Added(agents: seq<AgentManifest>, t: AgentTask, outcomes: string -> Outcome, a: nat): nat {
    if Invokes(agents, t, outcomes(t.Id())) && a == t.attempt + 1 then 1 else 0
  }

  /** The task in its place after a whole tick has gone one attempt further exactly when it could be called. */
  lemma TickedAttempts(agents: seq<AgentManifest>, definitions: seq<TaskDefinition>, m: Machine, outcomes: string -> Outcome, i: nat)
    requires MachineInv(agents, definitions, m) && i < |definitions|
    ensures var ticked := Ticked(agents, m.run, m.snapshot, outcomes).tasks;
      && i < |ticked| && ticked[i].definition == m.snapshot[i].definition
      && ticked[i].attempt == m.snapshot[i].attempt + if CanCall(agents, m.snapshot[i]) then 1 else 0
  {
    hide Ticked;
    var t := m.snapshot[i];
    var ticked := Ticked(agents, m.run, m.snapshot, outcomes).tasks;
    TickedPlaces(agents, definitions, m, outcomes);
    assert TickedAt(agents, t, m.run.tasks[i], ticked[i], outcomes) && Bounded(t);
    AttemptGoesOn(agents, t, m.run.tasks[i], ticked[i], outcomes);
  }

  lemma AttemptGoesOn(agents: seq<AgentManifest>, s: AgentTask, t: AgentTask, u: AgentTask, outcomes: string -> Outcome)
    requires Bounded(s) && Linked(agents, s, t) && TickedAt(agents, s, t, u, outcomes)
    ensures u.definition == s.definition && u.attempt == s.attempt + if CanCall(agents, s) then 1 else 0
  {
    hide RouteTaskByCapability;
  }

  lemma AddedWhenCallable(agents: seq<AgentManifest>, t: AgentTask, outcomes: string -> Outcome)
    ensures forall a: nat :: Added(agents, t, outcomes, a) == 1 ==>
              CanCall(agents, t) && a == t.attempt + 1 && 1 <= a <= t.definition.maxAttempts
    ensures forall a: nat :: Added(agents, t, outcomes, a) <= 1
  {
    hide RouteTaskByCapability;
  }

  lemma EndKeepsCalls(agents: seq<AgentManifest>, definitions: seq<TaskDefinition>, m: Machine, e: Event, i: nat)
    requires MachineInv(agents, definitions, m) && i < |definitions| && CallsInv(agents, m, m.snapshot[i])
    requires e.End? && m.inFlight
    ensures i < |Step(agents, m, e).snapshot| && CallsInv(agents, Step(agents, m, e), Step(agents, m, e).snapshot[i])
  {
    hide Invocations, Ticked, MachineInv, CanCall, Added, CallsOf, Count;
    LengthOf(agents, definitions, m);
    EndCalls(agents, definitions, m, e.outcomes, i);
    TickedAttempts(agents, definitions, m, e.outcomes, i);
    AddedWhenCallable(agents, m.snapshot[i], e.outcomes);
    NoCallsYet(m.snapshot[i].Id());
  }

  lemma NoCallsYet(id: string)
    ensures CallsOf([], id) == 0
  {
  }

  lemma {:induction false} RetriesFollowRejections(agents: seq<AgentManifest>, definitions: seq<TaskDefinition>, events: seq<Event>)
    ensures var m := Steps(agents, definitions, events);
      m.retries + (if !m.inFlight && m.unsettled != [] then 1 else 0) <= m.rejections
  {
    hide Ticked, Started, Invocations;
    if events != [] {
      RetriesFollowRejections(agents, definitions, events[..|events| - 1]);
    }
  }

  /**
    * The executor is called at most `maxAttempts` times for a task, at most once for each attempt, and for no attempt beyond
    * the limit, however calls of `tick` overlap and wherever ticks reject. Only a tick that is started after one that called
    * the executor and rejected can add a call: a rejected tick that none follows adds nothing.
    */
  lemma AttemptsAreBounded(agents: seq<AgentManifest>, definitions: seq<TaskDefinition>, events: seq<Event>, i: nat, a: nat)
    requires Distinct(Ids(definitions)) && i < |definitions|
    ensures var m := Steps(agents, definitions, events);
      && CallsOf(m.log, definitions[i].id) <= (if definitions[i].maxAttempts > 0 then definitions[i].maxAttempts else 0) + m.retries
      && Count(m.log, Invocation(definitions[i].id, a)) <= 1 + m.retries
      && (a == 0 || a > definitions[i].maxAttempts ==> Count(m.log, Invocation(definitions[i].id, a)) == 0)
      && m.retries <= m.rejections
  {
    hide Steps, Count, CallsOf;
    var m := Steps(agents, definitions, events);
    CallsAreBounded(agents, definitions, events, i);
    StepsKeepMachine(agents, definitions, events);
    RetriesFollowRejections(agents, definitions, events);
    assert Bounded(m.snapshot[i]) && m.snapshot[i].Id() == definitions[i].id;
    hide RouteTaskByCapability;
  }

  /**
    * In any state, the next tick can call the executor for an attempt it was called for before if and only if a tick that was
    * rejected since the last one settled called it for that task.
    */
  lemma RepeatsExactly(agents: seq<AgentManifest>, definitions: seq<TaskDefinition>, events: seq<Event>, i: nat)
    requires Distinct(Ids(definitions)) && i < |definitions|
    ensures var m := Steps(agents, definitions, events);
      && i < |m.snapshot|
      && ((exists o :: Invokes(agents, m.snapshot[i], o) && Invocation(definitions[i].id, m.snapshot[i].attempt + 1) in m.log)
          <==> exists c :: c in m.unsettled && c.taskId == definitions[i].id)
  {
    hide Steps, Count, CallsOf;
    var m := Steps(agents, definitions, events);
    CallsAreBounded(agents, definitions, events, i);
    StepsKeepMachine(agents, definitions, events);
    var t := m.snapshot[i];
    assert t.Id() == definitions[i].id;
    CountedExactly(m.log, Invocation(t.Id(), t.attempt + 1));
    CalledExactly(m.unsettled, t.Id());
    assert CanCall(agents, t) ==> Invokes(agents, t, Returned);
  }

  lemma {:induction false} CountedExactly<T>(s: seq<T>, x: T)
    ensures Count(s, x) > 0 <==> x in s
  {
    if s != [] {
      CountedExactly(s[..|s| - 1], x);
      assert s == s[..|s| - 1] + [s[|s| - 1]];
    }
  }

  lemma {:induction false} CalledExactly(log: seq<Invocation>, id: string)
    ensures CallsOf(log, id) > 0 <==> exists c :: c in log && c.taskId == id
  {
    if log != [] {
      CalledExactly(log[..|log| - 1], id);
      assert log == log[..|log| - 1] + [log[|log| - 1]];
    }
  }

  /**
    * The term for such ticks is needed, wherever the one before rejected: the snapshot stays, so the next tick calls every
    * task the rejected one called again, for the same attempt.
    */
  lemma RejectedTickRepeatsTheCall(agents: seq<AgentManifest>, definitions: seq<TaskDefinition>, m: Machine,
                                   outcomes: string -> Outcome, reach: Reach, i: nat)
    requires MachineInv(agents, definitions, m) && i < |definitions| && !m.inFlight && !reach.WholeTick?
    requires Invokes(agents, m.snapshot[i], outcomes(m.snapshot[i].Id()))
    ensures var rejected := Step(agents, Step(agents, m, Call), End(outcomes, reach));
      var after := Step(agents, Step(agents, rejected, Call), End(outcomes, WholeTick));
      var t := m.snapshot[i];
      && i < |after.snapshot| && after.snapshot[i].attempt == t.attempt + 1
      && CallsOf(after.log, t.Id()) == CallsOf(m.log, t.Id()) + 2
      && Count(after.log, Invocation(t.Id(), t.attempt + 1)) == Count(m.log, Invocation(t.Id(), t.attempt + 1)) + 2
  {
    hide MachineInv, Invocations, Invokes, CallsOf, Count, Step, ExecuteTask;
    LengthOf(agents, definitions, m);
    var t := m.snapshot[i];
    UpToSecondCall(agents, definitions, m, outcomes, reach);
    SecondCall(agents, definitions, m, outcomes, i);
    var again := Step(agents, Step(agents, Step(agents, m, Call), End(outcomes, reach)), Call);
    EndedAt(agents, definitions, again, outcomes, i);
    TwoMore(m.log, Invocations(agents, m.snapshot, outcomes), t.Id(), Invocation(t.Id(), t.attempt + 1));
  }

  lemma UpToSecondCall(agents: seq<AgentManifest>, definitions: seq<TaskDefinition>, m: Machine,
                       outcomes: string -> Outcome, reach: Reach)
    requires MachineInv(agents, definitions, m) && !m.inFlight && !reach.WholeTick?
    ensures var again := Step(agents, Step(agents, Step(agents, m, Call), End(outcomes, reach)), Call);
      && MachineInv(agents, definitions, again) && again.inFlight && again.snapshot == m.snapshot
      && again.log == m.log + Invocations(agents, m.snapshot, outcomes)
  {
    hide Ticked, Invocations, MachineInv;
    var called := Step(agents, m, Call);
    var rejected := Step(agents, called, End(outcomes, reach));
    StepKeepsMachine(agents, definitions, m, Call);
    StepKeepsMachine(agents, definitions, called, End(outcomes, reach));
    StepKeepsMachine(agents, definitions, rejected, Call);
  }

  lemma TwoMore(log: seq<Invocation>, calls: seq<Invocation>, id: string, first: Invocation)
    requires CallsOf(calls, id) == 1 && Count(calls, first) == 1
    ensures CallsOf(log + calls + calls, id) == CallsOf(log, id) + 2
    ensures Count(log + calls + calls, first) == Count(log, first) + 2
  {
    CallsAppend(log, calls, id);
    CallsAppend(log + calls, calls, id);
    CountAppend(log, calls, first);
    CountAppend(log + calls, calls, first);
  }

  lemma EndedAt(agents: seq<AgentManifest>, definitions: seq<TaskDefinition>, m: Machine, outcomes: string -> Outcome, i: nat)
    requires MachineInv(agents, definitions, m) && m.inFlight && i < |definitions|
    requires m.snapshot[i].status == Ready
    ensures var after := Step(agents, m, End(outcomes, WholeTick));
      && |after.snapshot| == |definitions|
      && after.snapshot[i] == ExecuteTask(agents, m.snapshot[i], outcomes(m.snapshot[i].Id()))
      && after.log == m.log + Invocations(agents, m.snapshot, outcomes)
  {
    hide Ticked, Invocations, ExecuteTask;
    TickedPlaces(agents, definitions, m, outcomes);
    assert TickedAt(agents, m.snapshot[i], m.run.tasks[i], Ticked(agents, m.run, m.snapshot, outcomes).tasks[i], outcomes);
  }

  lemma LengthOf(agents: seq<AgentManifest>, definitions: seq<TaskDefinition>, m: Machine)
    requires MachineInv(agents, definitions, m)
    ensures |m.run.tasks| == |m.snapshot| == |definitions|
  {
  }

  lemma SecondCall(agents: seq<AgentManifest>, definitions: seq<TaskDefinition>, m: Machine, outcomes: string -> Outcome, i: nat)
    requires MachineInv(agents, definitions, m) && i < |definitions|
    requires Invokes(agents, m.snapshot[i], outcomes(m.snapshot[i].Id()))
    ensures var t, calls := m.snapshot[i], Invocations(agents, m.snapshot, outcomes);
      && t.status == Ready && ExecuteTask(agents, t, outcomes(t.Id())).attempt == t.attempt + 1
      && CallsOf(calls, t.Id()) == 1 && Count(calls, Invocation(t.Id(), t.attempt + 1)) == 1
  {
    hide Invocations, ExecuteTask, RouteTaskByCapability;
    var t := m.snapshot[i];
    assert Bounded(t);
    Execution(agents, t, outcomes(t.Id()));
    SnapshotIds(definitions, m.snapshot);
    CallsOfTick(agents, m.snapshot, outcomes, i, t.attempt + 1);
  }
}
