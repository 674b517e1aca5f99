/**
  * Ticks that reject after they replaced the tasks: what holds until the next tick, and exactly when that next tick, which
  * works from the snapshot left behind, undoes it.
  */
module CoordinatorTears {
  import opened Wrappers
  import opened Sequences
  import opened TaskDefinitions
  import opened TaskLifecycle
  import opened CapabilityRouter
  import opened Scheduler
  import opened CoordinatorRun
  import opened CoordinatorTheorems
  import opened CoordinatorCalls

  // ---------- until a tick is started after a tear ----------

  lemma {:induction false} ResumedGrows(agents: seq<AgentManifest>, definitions: seq<TaskDefinition>, events: seq<Event>, k: nat)
    requires k <= |events|
    ensures Steps(agents, definitions, events[..k]).resumed ==> Steps(agents, definitions, events).resumed
    decreases |events|
  {
    hide Ticked, Initially, Invocations;
    if k < |events| {
      var init := events[..|events| - 1];
      assert init[..k] == events[..k];
      ResumedGrows(agents, definitions, init, k);
    } else {
      assert events[..k] == events;
    }
  }

  lemma {:induction false} TicksGrow(agents: seq<AgentManifest>, definitions: seq<TaskDefinition>, events: seq<Event>, k: nat, part: Part)
    requires k <= |events|
    ensures TicksLeaving(agents, definitions, events[..k], part) <= TicksLeaving(agents, definitions, events, part)
    decreases |events|
  {
    hide Steps;
    if k < |events| {
      var init := events[..|events| - 1];
      assert init[..k] == events[..k];
      TicksGrow(agents, definitions, init, k, part);
    } else {
      assert events[..k] == events;
    }
  }

  /** The tasks satisfy the invariant of every run of ticks. */
  lemma OrderlyTasks(agents: seq<AgentManifest>, definitions: seq<TaskDefinition>, events: seq<Event>)
    requires Distinct(Ids(definitions)) && !Steps(agents, definitions, events).resumed
    ensures TasksInv(Steps(agents, definitions, events).run.tasks) && Follows(definitions, Steps(agents, definitions, events).run.tasks)
  {
    hide Steps, After, TicksLeaving;
    CallsCoalesce(agents, definitions, events);
    RunInv(agents, definitions, TicksLeaving(agents, definitions, events, TheTasks));
  }

  /** A completed, failed or unassigned task is never touched again, and a final session status never changes. */
  lemma OrderlyRunsKeepResults(agents: seq<AgentManifest>, definitions: seq<TaskDefinition>, events: seq<Event>, k: nat, i: nat)
    requires Distinct(Ids(definitions)) && k <= |events| && i < |definitions|
    requires !Steps(agents, definitions, events).resumed
    ensures var earlier, later := Steps(agents, definitions, events[..k]).run, Steps(agents, definitions, events).run;
      && |earlier.tasks| == |later.tasks| == |definitions|
      && (Done(earlier.tasks[i]) ==> later.tasks[i] == earlier.tasks[i])
      && (earlier.session != SessionRunning ==> later.session == earlier.session)
  {
    hide Steps, After, TicksLeaving;
    ResumedGrows(agents, definitions, events, k);
    CallsCoalesce(agents, definitions, events);
    CallsCoalesce(agents, definitions, events[..k]);
    var tasks, session := TicksLeaving(agents, definitions, events, TheTasks), TicksLeaving(agents, definitions, events, TheSession);
    var tasks', session' := TicksLeaving(agents, definitions, events[..k], TheTasks), TicksLeaving(agents, definitions, events[..k], TheSession);
    TicksGrow(agents, definitions, events, k, TheTasks);
    TicksGrow(agents, definitions, events, k, TheSession);
    assert tasks[..|tasks'|] == tasks' && session[..|session'|] == session';
    DoneTasksNeverChange(agents, definitions, tasks, |tasks'|, i);
    SessionNeverFlips(agents, definitions, session, |session'|);
  }

  /** The executor is called only for a task with an attempt left whose dependencies are all completed. */
  lemma OrderlyCallsFollowDependencies(agents: seq<AgentManifest>, definitions: seq<TaskDefinition>, events: seq<Event>,
                                       i: nat, outcome: Outcome)
    requires Distinct(Ids(definitions)) && i < |definitions|
    requires var m := Steps(agents, definitions, events);
      !m.resumed && m.inFlight && i < |m.snapshot| && Invokes(agents, m.snapshot[i], outcome)
    ensures var m := Steps(agents, definitions, events);
      && m.snapshot[i].attempt < definitions[i].maxAttempts
      && forall d :: d in definitions[i].dependsOn ==> HasStatus(m.run.tasks, d, Completed)
  {
    hide Steps, After, TicksLeaving, RouteTaskByCapability;
    CallsCoalesce(agents, definitions, events);
    CallsFollowDependencies(agents, definitions, TicksLeaving(agents, definitions, events, TheTasks), i, outcome);
    RunInv(agents, definitions, TicksLeaving(agents, definitions, events, TheTasks));
  }

  // ---------- exactly when the next tick undoes something ----------

  /** The next tick, when it settles. */
  function NextTick(agents: seq<AgentManifest>, m: Machine, outcomes: string -> Outcome): Machine {
    Step(agents, Step(agents, m, Call), End(outcomes, WholeTick))
  }

  function Always(outcome: Outcome): string -> Outcome {
    _ => outcome
  }

  /** An attempt of the task would start. */
  predicate CanRun(agents: seq<AgentManifest>, t: AgentTask) {
    RouteTaskByCapability(t.definition, agents).Assigned? && t.attempt < t.definition.maxAttempts
  }

  lemma NextTickPlaces(agents: seq<AgentManifest>, definitions: seq<TaskDefinition>, m: Machine, outcomes: string -> Outcome)
    requires MachineInv(agents, definitions, m) && !m.inFlight
    ensures var after := NextTick(agents, m, outcomes);
      && after.run == Ticked(agents, m.run, m.snapshot, outcomes)
      && Follows(definitions, after.run.tasks)
      && forall i :: 0 <= i < |definitions| ==> TickedAt(agents, m.snapshot[i], m.run.tasks[i], after.run.tasks[i], outcomes)
  {
    hide TickedAt, Invocations;
    TickedPlaces(agents, definitions, m, outcomes);
    hide Ticked;
  }

  /** The snapshot shows the task as it is, as far as its execution goes. */
  predicate Shown(agents: seq<AgentManifest>, s: AgentTask, t: AgentTask) {
    && (s.status == Blocked ==> t.status != Ready)
    && (s.status == Ready && CanRun(agents, s) ==> t == s)
  }

  function Executed(agents: seq<AgentManifest>, t: AgentTask, outcome: Outcome): AgentTask {
    if t.status == Ready then ExecuteTask(agents, t, outcome) else t
  }

  function ExecutedFrom(agents: seq<AgentManifest>, s: AgentTask, t: AgentTask, outcome: Outcome): AgentTask {
    if s.status == Ready then ExecuteTask(agents, s, outcome) else t
  }

  lemma ShownIsExecuted(agents: seq<AgentManifest>, s: AgentTask, t: AgentTask, outcome: Outcome)
    requires Bounded(s) && Linked(agents, s, t) && Shown(agents, s, t)
    ensures ExecutedFrom(agents, s, t, outcome) == Executed(agents, t, outcome)
  {
    hide RouteTaskByCapability;
  }

  lemma NotShownIsLost(agents: seq<AgentManifest>, s: AgentTask, t: AgentTask) returns (outcome: Outcome)
    requires Bounded(s) && Linked(agents, s, t) && !Shown(agents, s, t)
    ensures ExecutedFrom(agents, s, t, outcome) != Executed(agents, t, outcome)
    ensures ExecutedFrom(agents, s, t, outcome).status != Blocked && Executed(agents, t, outcome).status != Blocked
  {
    hide RouteTaskByCapability;
    outcome := if t.status == Completed then Thrown(true) else Returned;
  }

  lemma TickPlace(agents: seq<AgentManifest>, run: Run, outcomes: string -> Outcome, i: nat)
    requires i < |run.tasks|
    ensures i < |Tick(agents, run, outcomes).tasks|
    ensures Executed(agents, run.tasks[i], outcomes(run.tasks[i].Id())).status != Blocked ==>
              Tick(agents, run, outcomes).tasks[i] == Executed(agents, run.tasks[i], outcomes(run.tasks[i].Id()))
  {
    hide ExecuteTask;
  }

  /**
    * The next tick does what a tick on the present tasks would do, whatever the outcomes, if and only if the snapshot
    * shows every task as it is.
    */
  lemma CoalescesExactly(agents: seq<AgentManifest>, definitions: seq<TaskDefinition>, m: Machine)
    requires MachineInv(agents, definitions, m) && !m.inFlight
    ensures (forall o :: NextTick(agents, m, o).run == Tick(agents, m.run, o))
       <==> forall i :: 0 <= i < |definitions| ==> Shown(agents, m.snapshot[i], m.run.tasks[i])
  {
    hide Shown, Linked, Bounded, Tick, NextTick;
    if forall i :: 0 <= i < |definitions| ==> Shown(agents, m.snapshot[i], m.run.tasks[i]) {
      forall o ensures NextTick(agents, m, o).run == Tick(agents, m.run, o) {
        NextTickPlaces(agents, definitions, m, o);
        ShownTicksAlike(agents, definitions, m, o);
      }
    }
    forall i | 0 <= i < |definitions| && !Shown(agents, m.snapshot[i], m.run.tasks[i])
      ensures exists o :: NextTick(agents, m, o).run != Tick(agents, m.run, o)
    {
      var outcome := NotShownIsLost(agents, m.snapshot[i], m.run.tasks[i]);
      LostAt(agents, definitions, m, outcome, i);
      assert NextTick(agents, m, Always(outcome)).run != Tick(agents, m.run, Always(outcome));
    }
  }

  lemma ShownTicksAlike(agents: seq<AgentManifest>, definitions: seq<TaskDefinition>, m: Machine, o: string -> Outcome)
    requires MachineInv(agents, definitions, m)
    requires forall i :: 0 <= i < |definitions| ==> Shown(agents, m.snapshot[i], m.run.tasks[i])
    ensures Ticked(agents, m.run, m.snapshot, o) == Tick(agents, m.run, o)
  {
    hide Shown, Linked, Bounded, Reconciled, ExecuteTask;
    var overlaid, worked := Overlaid(agents, m.run.tasks, m.snapshot, o), Worked(agents, m.run.tasks, o);
    forall i | 0 <= i < |definitions| ensures overlaid[i] == worked[i] {
      ShownIsExecuted(agents, m.snapshot[i], m.run.tasks[i], o(m.snapshot[i].Id()));
      assert m.snapshot[i].Id() == m.run.tasks[i].Id();
    }
    assert overlaid == worked;
  }

  lemma LostAt(agents: seq<AgentManifest>, definitions: seq<TaskDefinition>, m: Machine, outcome: Outcome, i: nat)
    requires MachineInv(agents, definitions, m) && !m.inFlight && i < |definitions|
    requires var s, t := m.snapshot[i], m.run.tasks[i];
      && ExecutedFrom(agents, s, t, outcome) != Executed(agents, t, outcome)
      && ExecutedFrom(agents, s, t, outcome).status != Blocked && Executed(agents, t, outcome).status != Blocked
    ensures NextTick(agents, m, Always(outcome)).run != Tick(agents, m.run, Always(outcome))
  {
    hide ExecuteTask, NextTick, Tick;
    NextTickPlaces(agents, definitions, m, Always(outcome));
    TickPlace(agents, m.run, Always(outcome), i);
    assert TickedAt(agents, m.snapshot[i], m.run.tasks[i], NextTick(agents, m, Always(outcome)).run.tasks[i], Always(outcome));
  }

  /**
    * Whatever the outcomes, the next tick leaves every completed, failed and unassigned task as it is, if and only if the
    * snapshot shows no completed or failed task as ready.
    */
  lemma DoneStaysExactly(agents: seq<AgentManifest>, definitions: seq<TaskDefinition>, m: Machine)
    requires MachineInv(agents, definitions, m) && !m.inFlight
    ensures (forall o :: LeavesDone(m.run.tasks, NextTick(agents, m, o).run.tasks))
       <==> forall i :: 0 <= i < |definitions| && m.snapshot[i].status == Ready ==>
                          m.run.tasks[i].status != Completed && m.run.tasks[i].status != Failed
  {
    hide Linked, Bounded, NextTick, TickedAt, ExecuteTask;
    forall i | 0 <= i < |definitions| && m.snapshot[i].status == Ready
                && (m.run.tasks[i].status == Completed || m.run.tasks[i].status == Failed)
      ensures exists o :: !LeavesDone(m.run.tasks, NextTick(agents, m, o).run.tasks)
    {
      var o := Always(if m.run.tasks[i].status == Completed then Thrown(true) else Returned);
      NextTickPlaces(agents, definitions, m, o);
      assert TickedAt(agents, m.snapshot[i], m.run.tasks[i], NextTick(agents, m, o).run.tasks[i], o);
      RedoneDiffers(agents, m.snapshot[i], m.run.tasks[i], NextTick(agents, m, o).run.tasks[i]);
      assert !LeavesDone(m.run.tasks, NextTick(agents, m, o).run.tasks);
    }
    if forall i :: 0 <= i < |definitions| && m.snapshot[i].status == Ready ==>
                     m.run.tasks[i].status != Completed && m.run.tasks[i].status != Failed {
      forall o ensures LeavesDone(m.run.tasks, NextTick(agents, m, o).run.tasks) {
        NextTickPlaces(agents, definitions, m, o);
        forall i | 0 <= i < |m.run.tasks| && Done(m.run.tasks[i])
          ensures NextTick(agents, m, o).run.tasks[i] == m.run.tasks[i]
        {
          assert TickedAt(agents, m.snapshot[i], m.run.tasks[i], NextTick(agents, m, o).run.tasks[i], o);
          DoneIsLeft(agents, m.snapshot[i], m.run.tasks[i], NextTick(agents, m, o).run.tasks[i], o);
        }
      }
    }
  }

  ghost predicate LeavesDone(before: seq<AgentTask>, after: seq<AgentTask>) {
    |after| == |before| && forall i :: 0 <= i < |before| && Done(before[i]) ==> after[i] == before[i]
  }

  lemma RedoneDiffers(agents: seq<AgentManifest>, s: AgentTask, t: AgentTask, u: AgentTask)
    requires Bounded(s) && Linked(agents, s, t) && s.status == Ready
    requires t.status == Completed || t.status == Failed
    requires TickedAt(agents, s, t, u, Always(if t.status == Completed then Thrown(true) else Returned))
    ensures u != t
  {
    hide RouteTaskByCapability;
  }

  lemma DoneIsLeft(agents: seq<AgentManifest>, s: AgentTask, t: AgentTask, u: AgentTask, outcomes: string -> Outcome)
    requires Bounded(s) && Linked(agents, s, t) && Done(t) && TickedAt(agents, s, t, u, outcomes)
    requires s.status == Ready ==> t.status != Completed && t.status != Failed
    ensures u == t
  {
    hide RouteTaskByCapability;
  }

  // ---------- exactly when the next tick flips the session ----------

  /** The next tick can leave the task failed or unassigned. */
  predicate CanFail(agents: seq<AgentManifest>, s: AgentTask, t: AgentTask) {
    if s.status == Ready
    then RouteTaskByCapability(s.definition, agents).NotAssigned? || s.attempt + 1 == s.definition.maxAttempts
    else t.status == Failed || t.status == Unassigned
  }

  /** The next tick can leave the task completed. */
  predicate CanComplete(agents: seq<AgentManifest>, s: AgentTask, t: AgentTask) {
    if s.status == Ready then CanRun(agents, s) else t.status == Completed
  }

  ghost predicate Flips(agents: seq<AgentManifest>, m: Machine, outcomes: string -> Outcome) {
    m.run.session != SessionRunning && NextTick(agents, m, outcomes).run.session != m.run.session
  }

  lemma PlaceOutcomes(agents: seq<AgentManifest>, s: AgentTask, t: AgentTask, u: AgentTask, outcomes: string -> Outcome)
    requires Bounded(s) && TickedAt(agents, s, t, u, outcomes)
    ensures u.status == Failed || u.status == Unassigned ==> CanFail(agents, s, t)
    ensures u.status == Completed ==> CanComplete(agents, s, t)
    ensures outcomes == Always(Thrown(true)) && CanFail(agents, s, t) ==> u.status == Failed || u.status == Unassigned
    ensures outcomes == Always(Returned) && CanComplete(agents, s, t) ==> u.status == Completed
  {
    hide RouteTaskByCapability;
    assert outcomes == Always(Thrown(true)) ==> outcomes(s.Id()) == Thrown(true);
    assert outcomes == Always(Returned) ==> outcomes(s.Id()) == Returned;
  }

  /**
    * Some outcomes let the next tick change a final session status if and only if it is completed and some task can still
    * fail, or it is failed and all tasks can still complete.
    */
  lemma FlipsExactly(agents: seq<AgentManifest>, definitions: seq<TaskDefinition>, m: Machine)
    requires MachineInv(agents, definitions, m) && !m.inFlight
    ensures (exists o :: Flips(agents, m, o)) <==>
            || (m.run.session == SessionCompleted
                && exists i :: 0 <= i < |definitions| && CanFail(agents, m.snapshot[i], m.run.tasks[i]))
            || (m.run.session == SessionFailed && definitions != []
                && forall i :: 0 <= i < |definitions| ==> CanComplete(agents, m.snapshot[i], m.run.tasks[i]))
  {
    hide NextTick, Linked, Bounded, TickedAt, CanFail, CanComplete;
    forall o | Flips(agents, m, o)
      ensures m.run.session == SessionCompleted ==>
                exists i :: 0 <= i < |definitions| && CanFail(agents, m.snapshot[i], m.run.tasks[i])
      ensures m.run.session == SessionFailed ==>
                definitions != [] && forall i :: 0 <= i < |definitions| ==> CanComplete(agents, m.snapshot[i], m.run.tasks[i])
    {
      FlipNeeds(agents, definitions, m, o);
    }
    if m.run.session == SessionCompleted {
      forall i | 0 <= i < |definitions| && CanFail(agents, m.snapshot[i], m.run.tasks[i])
        ensures Flips(agents, m, Always(Thrown(true)))
      {
        FailureFlips(agents, definitions, m, i);
      }
    }
    if m.run.session == SessionFailed && definitions != []
       && forall i :: 0 <= i < |definitions| ==> CanComplete(agents, m.snapshot[i], m.run.tasks[i]) {
      CompletionFlips(agents, definitions, m);
    }
  }

  lemma SessionOfTick(agents: seq<AgentManifest>, m: Machine, o: string -> Outcome)
    requires !m.inFlight
    ensures NextTick(agents, m, o).run.session == SessionAfter(NextTick(agents, m, o).run.tasks, m.run.session)
  {
    hide Overlaid, Invocations, RescheduledAll;
  }

  lemma FlipNeeds(agents: seq<AgentManifest>, definitions: seq<TaskDefinition>, m: Machine, o: string -> Outcome)
    requires MachineInv(agents, definitions, m) && !m.inFlight && Flips(agents, m, o)
    ensures m.run.session == SessionCompleted ==>
              exists i :: 0 <= i < |definitions| && CanFail(agents, m.snapshot[i], m.run.tasks[i])
    ensures m.run.session == SessionFailed ==>
              definitions != [] && forall i :: 0 <= i < |definitions| ==> CanComplete(agents, m.snapshot[i], m.run.tasks[i])
  {
    hide NextTick, Linked, Bounded, TickedAt, CanFail, CanComplete;
    SessionOfTick(agents, m, o);
    NextTickPlaces(agents, definitions, m, o);
    var after := NextTick(agents, m, o).run.tasks;
    forall i | 0 <= i < |definitions|
      ensures after[i].status == Failed || after[i].status == Unassigned ==> CanFail(agents, m.snapshot[i], m.run.tasks[i])
      ensures after[i].status == Completed ==> CanComplete(agents, m.snapshot[i], m.run.tasks[i])
    {
      PlaceOutcomes(agents, m.snapshot[i], m.run.tasks[i], after[i], o);
    }
    if m.run.session == SessionCompleted {
      var t :| t in after && (t.status == Failed || t.status == Unassigned);
      var i :| 0 <= i < |after| && after[i] == t;
      assert CanFail(agents, m.snapshot[i], m.run.tasks[i]);
    } else {
      assert forall i :: 0 <= i < |after| ==> after[i] in after;
    }
  }

  lemma FailureFlips(agents: seq<AgentManifest>, definitions: seq<TaskDefinition>, m: Machine, i: nat)
    requires MachineInv(agents, definitions, m) && !m.inFlight && m.run.session == SessionCompleted
    requires i < |definitions| && CanFail(agents, m.snapshot[i], m.run.tasks[i])
    ensures Flips(agents, m, Always(Thrown(true)))
  {
    hide NextTick, Linked, Bounded, TickedAt, CanFail;
    var o := Always(Thrown(true));
    SessionOfTick(agents, m, o);
    NextTickPlaces(agents, definitions, m, o);
    var after := NextTick(agents, m, o).run.tasks;
    PlaceOutcomes(agents, m.snapshot[i], m.run.tasks[i], after[i], o);
    assert after[i] in after;
  }

  lemma CompletionFlips(agents: seq<AgentManifest>, definitions: seq<TaskDefinition>, m: Machine)
    requires MachineInv(agents, definitions, m) && !m.inFlight && m.run.session == SessionFailed && definitions != []
    requires forall i :: 0 <= i < |definitions| ==> CanComplete(agents, m.snapshot[i], m.run.tasks[i])
    ensures Flips(agents, m, Always(Returned))
  {
    hide NextTick, Linked, Bounded, TickedAt, CanComplete;
    var o := Always(Returned);
    SessionOfTick(agents, m, o);
    NextTickPlaces(agents, definitions, m, o);
    var after := NextTick(agents, m, o).run.tasks;
    forall i | 0 <= i < |after| ensures after[i].status == Completed {
      PlaceOutcomes(agents, m.snapshot[i], m.run.tasks[i], after[i], o);
    }
  }

  // ---------- inputs that show it ----------

  const FIRST := TaskDefinition("a", "work", [], [], 1)
  const SECOND := TaskDefinition("b", "work", [], ["a"], 1)

  /** The tick in flight ends in this way for every task. */
  function TickFrom(agents: seq<AgentManifest>, m: Machine, outcome: Outcome, reach: Reach): Machine {
    Step(agents, Step(agents, m, Call), End(Always(outcome), reach))
  }

  /**
    * A completes and releases B, and a save of the reconciled tasks fails; the next tick runs A again, which fails. The
    * completed task is now failed, and B is ready behind it.
    */
  lemma TornTickRunsACompletedTask(agents: seq<AgentManifest>)
    requires RouteTaskByCapability(FIRST, agents).Assigned?
    ensures var torn := TickFrom(agents, Initially([FIRST, SECOND]), Returned, TasksPart);
      var after := TickFrom(agents, torn, Thrown(true), WholeTick);
      && |torn.run.tasks| == |after.run.tasks| == 2
      && torn.run.tasks[0].status == Completed && torn.run.tasks[1].status == Ready
      && after.run.tasks[0].status == Failed && after.run.tasks[1].status == Ready
      && CallsOf(after.log, "a") == 2
  {
    hide RouteTaskByCapability, Invocations, CallsOf, Ticked;
    var definitions := [FIRST, SECOND];
    PairIds();
    var start := Initially(definitions);
    StartKeepsMachine(agents, definitions);
    PairStarts();
    var first := End(Always(Returned), TasksPart);
    var called := Step(agents, start, Call);
    StepKeepsMachine(agents, definitions, start, Call);
    StepKeepsMachine(agents, definitions, called, first);
    var torn := Step(agents, called, first);
    TickedPlaces(agents, definitions, called, Always(Returned));
    SecondIsReleased(agents, start.run, Always(Returned));
    var again := Step(agents, torn, Call);
    StepKeepsMachine(agents, definitions, torn, Call);
    TickedPlaces(agents, definitions, again, Always(Thrown(true)));
    FirstIsCalled(agents, start.snapshot, Always(Returned));
    FirstIsCalled(agents, start.snapshot, Always(Thrown(true)));
    CallsAppend([], Invocations(agents, start.snapshot, Always(Returned)), "a");
    CallsAppend([] + Invocations(agents, start.snapshot, Always(Returned)), Invocations(agents, start.snapshot, Always(Thrown(true))), "a");
    NoCallsYet("a");
  }

  lemma PairIds()
    ensures Ids([FIRST, SECOND]) == ["a", "b"] && Distinct(Ids([FIRST, SECOND]))
  {
    assert Ids([FIRST, SECOND]) == ["a", "b"];
    assert "a"[0] != "b"[0];
  }

  lemma PairStarts()
    ensures Started([FIRST, SECOND]).tasks == [AgentTask(FIRST, Ready, None, 0), AgentTask(SECOND, Blocked, None, 0)]
  {
    PairIds();
    StartInv([FIRST, SECOND]);
    var tasks := Started([FIRST, SECOND]).tasks;
    assert tasks[0] in tasks && tasks[1] in tasks;
    var blank := Fresh([FIRST, SECOND]);
    assert tasks[0] == Rescheduled(blank, blank[0]) && tasks[1] == Rescheduled(blank, blank[1]);
    hide DependencyFailed, DependenciesCompleted;
  }

  lemma SecondIsReleased(agents: seq<AgentManifest>, run: Run, o: string -> Outcome)
    requires run.tasks == [AgentTask(FIRST, Ready, None, 0), AgentTask(SECOND, Blocked, None, 0)]
    requires RouteTaskByCapability(FIRST, agents).Assigned? && o == Always(Returned)
    ensures Ticked(agents, run, run.tasks, o).tasks[1].status == Ready
  {
    hide RouteTaskByCapability;
    var overlaid := Overlaid(agents, run.tasks, run.tasks, o);
    assert overlaid[0].status == Completed && overlaid[0].Id() == "a" && overlaid[1] == run.tasks[1];
    assert TaskIds(overlaid) == ["a", "b"];
    assert "a"[0] != "b"[0];
    ByIdAt(overlaid, 0);
  }

  lemma FirstIsCalled(agents: seq<AgentManifest>, tasks: seq<AgentTask>, o: string -> Outcome)
    requires tasks == [AgentTask(FIRST, Ready, None, 0), AgentTask(SECOND, Blocked, None, 0)]
    requires RouteTaskByCapability(FIRST, agents).Assigned? && (o == Always(Returned) || o == Always(Thrown(true)))
    ensures CallsOf(Invocations(agents, tasks, o), "a") == 1
  {
    assert TaskIds(tasks) == ["a", "b"] && "a"[0] != "b"[0];
    CallsOfTick(agents, tasks, o, 0, 1);
  }

  /** A alone completes, and the save of the completed session fails; the next tick runs A again and flips the session. */
  lemma TornTickFlipsTheSession(agents: seq<AgentManifest>)
    requires RouteTaskByCapability(FIRST, agents).Assigned?
    ensures var torn := TickFrom(agents, Initially([FIRST]), Returned, SessionPart);
      var after := TickFrom(agents, torn, Thrown(true), WholeTick);
      torn.run.session == SessionCompleted && after.run.session == SessionFailed
  {
    hide RouteTaskByCapability, Step, Ticked;
    var start := Initially([FIRST]);
    AloneStarts(agents);
    var called := Step(agents, start, Call);
    AloneTicks(agents, start, Always(Returned), SessionPart);
    var torn := Step(agents, called, End(Always(Returned), SessionPart));
    AloneTicks(agents, torn, Always(Thrown(true)), WholeTick);
    assert Always(Returned)("a") == Returned && Always(Thrown(true))("a") == Thrown(true);
  }

  lemma AloneStarts(agents: seq<AgentManifest>)
    ensures var start := Initially([FIRST]);
      && MachineInv(agents, [FIRST], start) && !start.inFlight
      && start.snapshot[0].status == Ready && start.snapshot[0].attempt == 0 && start.run.session == SessionRunning
  {
    assert Ids([FIRST]) == ["a"];
    StartKeepsMachine(agents, [FIRST]);
    StartInv([FIRST]);
    StartedSession([FIRST]);
    assert Initially([FIRST]).snapshot[0] in Initially([FIRST]).snapshot;
  }

  /** A tick of the single task, while the snapshot still shows it ready for its first attempt. */
  lemma AloneTicks(agents: seq<AgentManifest>, m: Machine, o: string -> Outcome, reach: Reach)
    requires RouteTaskByCapability(FIRST, agents).Assigned? && (o == Always(Returned) || o == Always(Thrown(true)))
    requires MachineInv(agents, [FIRST], m) && !m.inFlight && Leaves(reach, TheSession)
    requires m.snapshot[0].status == Ready && m.snapshot[0].attempt == 0
    ensures var after := Step(agents, Step(agents, m, Call), End(o, reach));
      && MachineInv(agents, [FIRST], after) && !after.inFlight
      && after.run.session == (if o == Always(Returned) then SessionCompleted else SessionFailed)
      && (reach.SessionPart? ==> after.snapshot == m.snapshot)
  {
    hide Invocations, Ticked, Linked, RouteTaskByCapability;
    var called := Step(agents, m, Call);
    StepKeepsMachine(agents, [FIRST], m, Call);
    StepKeepsMachine(agents, [FIRST], called, End(o, reach));
    TickedPlaces(agents, [FIRST], called, o);
    TickedSession(agents, called.run, called.snapshot, o);
    var t := Ticked(agents, called.run, called.snapshot, o).tasks[0];
    assert TickedAt(agents, called.snapshot[0], called.run.tasks[0], t, o);
    FirstAttempt(agents, called.snapshot[0], o);
    hide TickedAt;
    assert t in Ticked(agents, called.run, called.snapshot, o).tasks;
  }

  lemma FirstAttempt(agents: seq<AgentManifest>, t: AgentTask, o: string -> Outcome)
    requires RouteTaskByCapability(FIRST, agents).Assigned? && (o == Always(Returned) || o == Always(Thrown(true)))
    requires t.definition == FIRST && t.status == Ready && t.attempt == 0
    ensures ExecuteTask(agents, t, o(t.Id())).status == if o == Always(Returned) then Completed else Failed
  {
    hide RouteTaskByCapability;
    assert Always(Returned)(t.Id()) == Returned && Always(Thrown(true))(t.Id()) == Thrown(true);
  }

  lemma TickedSession(agents: seq<AgentManifest>, run: Run, snapshot: seq<AgentTask>, o: string -> Outcome)
    ensures Ticked(agents, run, snapshot, o).session == SessionAfter(Ticked(agents, run, snapshot, o).tasks, run.session)
  {
    hide Overlaid, RescheduledAll;
  }
}
