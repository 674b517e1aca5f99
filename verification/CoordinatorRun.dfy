/** What one tick of the coordinator does to the tasks and the session, and what every run of ticks keeps. */
module CoordinatorRun {
  import opened Wrappers
  import opened Sequences
  import opened TaskDefinitions
  import opened TaskLifecycle
  import opened CapabilityRouter
  import opened Scheduler

  /** How one attempt went: a result was returned, or something threw, before or after the executor was called. */
  datatype Outcome = Returned | Thrown(invoked: bool)

  datatype SessionStatus = SessionRunning | SessionCompleted | SessionFailed

  datatype Run = Run(tasks: seq<AgentTask>, session: SessionStatus)

  // ---------- one task ----------

  function ExecuteTask(agents: seq<AgentManifest>, task: AgentTask, outcome: Outcome): AgentTask {
    match RouteTaskByCapability(task.definition, agents)
    case NotAssigned(_) => Moved(task, Unassigned)
    case Assigned(agentId) =>
      var running := Moved(task.(assignedAgentId := Some(agentId)), Running);
      if running.status != Running then running
      else if outcome.Returned? then Moved(running, Completed)
      else if running.attempt < running.definition.maxAttempts then Moved(running, Ready)
      else Moved(running, Failed)
  }

  /** Whether the attempt reaches the executor. */
  predicate Invokes(agents: seq<AgentManifest>, task: AgentTask, outcome: Outcome) {
    && RouteTaskByCapability(task.definition, agents).Assigned?
    && task.status == Ready && task.attempt < task.definition.maxAttempts
    && (outcome.Thrown? ==> outcome.invoked)
  }

  // ---------- one tick ----------

  function Worked(agents: seq<AgentManifest>, tasks: seq<AgentTask>, outcomes: string -> Outcome): (r: seq<AgentTask>)
    ensures |r| == |tasks|
    ensures forall i :: 0 <= i < |tasks| ==>
              r[i] == if tasks[i].status == Ready then ExecuteTask(agents, tasks[i], outcomes(tasks[i].Id())) else tasks[i]
  {
    seq(|tasks|, i requires 0 <= i < |tasks| =>
      if tasks[i].status == Ready then ExecuteTask(agents, tasks[i], outcomes(tasks[i].Id())) else tasks[i])
  }

  predicate AllCompleted(tasks: seq<AgentTask>) {
    tasks != [] && forall t :: t in tasks ==> t.status == Completed
  }

  predicate AnyFailed(tasks: seq<AgentTask>) {
    exists t :: t in tasks && (t.status == Failed || t.status == Unassigned)
  }

  function SessionAfter(tasks: seq<AgentTask>, session: SessionStatus): SessionStatus {
    if AllCompleted(tasks) then SessionCompleted else if AnyFailed(tasks) then SessionFailed else session
  }

  function Reconciled(run: Run): Run {
    var tasks := ScheduleReadyTasks(run.tasks).tasks;
    Run(tasks, SessionAfter(tasks, run.session))
  }

  function Tick(agents: seq<AgentManifest>, run: Run, outcomes: string -> Outcome): Run {
    Reconciled(run.(tasks := Worked(agents, run.tasks, outcomes)))
  }

  // ---------- a whole run ----------

  function Fresh(definitions: seq<TaskDefinition>): (r: seq<AgentTask>)
    ensures |r| == |definitions|
    ensures forall i :: 0 <= i < |r| ==> r[i] == AgentTask(definitions[i], Blocked, None, 0)
  {
    seq(|definitions|, i requires 0 <= i < |definitions| => AgentTask(definitions[i], Blocked, None, 0))
  }

  function Started(definitions: seq<TaskDefinition>): Run {
    Reconciled(Run(Fresh(definitions), SessionRunning))
  }

  function After(agents: seq<AgentManifest>, definitions: seq<TaskDefinition>, ticks: seq<string -> Outcome>): Run {
    if ticks == [] then Started(definitions)
    else Tick(agents, After(agents, definitions, ticks[..|ticks| - 1]), ticks[|ticks| - 1])
  }

  // ---------- what every run keeps ----------

  ghost predicate Follows(definitions: seq<TaskDefinition>, tasks: seq<AgentTask>) {
    && |tasks| == |definitions|
    && forall i :: 0 <= i < |tasks| ==> tasks[i].definition == definitions[i]
  }

  /** Never started before its dependencies completed, and never more often than allowed. */
  ghost predicate TaskInv(tasks: seq<AgentTask>, t: AgentTask) {
    && t.status in {Blocked, Ready, Completed, Failed, Unassigned}
    && (t.status != Blocked <==> DependenciesCompleted(tasks, t))
    && (t.status == Blocked ==> t.attempt == 0)
    && (t.status == Ready ==> t.attempt == 0 || t.attempt < t.definition.maxAttempts)
    && (t.status == Completed ==> 1 <= t.attempt <= t.definition.maxAttempts)
    && (t.status == Failed ==> 1 <= t.attempt == t.definition.maxAttempts)
    && (t.status == Unassigned ==> t.attempt == 0 || t.attempt < t.definition.maxAttempts)
  }

  ghost predicate TasksInv(tasks: seq<AgentTask>) {
    Distinct(TaskIds(tasks)) && forall i :: 0 <= i < |tasks| ==> TaskInv(tasks, tasks[i])
  }

  predicate Done(t: AgentTask) {
    t.status == Completed || t.status == Failed || t.status == Unassigned
  }

  /** One ready task, executed. */
  lemma Execution(agents: seq<AgentManifest>, t: AgentTask, outcome: Outcome)
    requires t.status == Ready && (t.attempt == 0 || t.attempt < t.definition.maxAttempts)
    ensures var u := ExecuteTask(agents, t, outcome);
      && u.definition == t.definition
      && (u.status == Unassigned ==> u.attempt == t.attempt && RouteTaskByCapability(t.definition, agents).NotAssigned?)
      && (u.status == Completed ==> u.attempt == t.attempt + 1 <= t.definition.maxAttempts)
      && (u.status == Failed ==> u.attempt == t.attempt + 1 == t.definition.maxAttempts)
      && (u.status == Ready ==>
           if t.attempt < t.definition.maxAttempts
           then u.attempt == t.attempt + 1 < t.definition.maxAttempts
           else u.attempt == t.attempt == 0)
      && u.status in {Ready, Completed, Failed, Unassigned}
      && (Invokes(agents, t, outcome) ==> u.attempt == t.attempt + 1)
  {
  }

  /**
    * A ready task with an attempt left that finds an agent is executed by the first eligible one, whose id it carries from
    * then on, and one that finds none becomes unassigned and keeps what it had.
    */
  lemma ExecutedByRoutedAgent(agents: seq<AgentManifest>, t: AgentTask, outcome: Outcome)
    requires t.status == Ready && t.attempt < t.definition.maxAttempts
    ensures var u := ExecuteTask(agents, t, outcome);
      if exists i :: IsFirstEligible(t.definition, agents, i)
      then
        && (exists i :: IsFirstEligible(t.definition, agents, i) && u.assignedAgentId == Some(agents[i].agentId))
        && u.attempt == t.attempt + 1
        && u.status == (if outcome.Returned? then Completed else if t.attempt + 1 < t.definition.maxAttempts then Ready else Failed)
      else u == t.(status := Unassigned)
  {
    RoutesToFirstEligible(t.definition, agents);
    hide RouteTaskByCapability, Eligible;
    if exists i :: IsFirstEligible(t.definition, agents, i) {
      var i :| IsFirstEligible(t.definition, agents, i);
      assert agents[i] in agents;
    }
  }

  /** The executor is called for a ready task with an attempt left and an agent, unless something threw before. */
  lemma InvokesExactly(agents: seq<AgentManifest>, t: AgentTask, outcome: Outcome)
    ensures Invokes(agents, t, outcome) <==>
            && t.status == Ready && t.attempt < t.definition.maxAttempts && outcome != Thrown(false)
            && exists i :: IsFirstEligible(t.definition, agents, i)
  {
    RoutesToFirstEligible(t.definition, agents);
    hide RouteTaskByCapability, Eligible;
    if exists i :: IsFirstEligible(t.definition, agents, i) {
      var i :| IsFirstEligible(t.definition, agents, i);
      assert agents[i] in agents;
    }
  }

  /** The dependencies of a task are completed after a tick if they were before. */
  lemma CompletedStays(before: seq<AgentTask>, after: seq<AgentTask>, t: AgentTask)
    requires TaskIds(before) == TaskIds(after) && Distinct(TaskIds(before))
    requires forall i :: 0 <= i < |before| == |after| && before[i].status == Completed ==> after[i] == before[i]
    requires DependenciesCompleted(before, t)
    ensures DependenciesCompleted(after, t)
  {
    forall d | d in t.definition.dependsOn
      ensures HasStatus(after, d, Completed)
    {
      LookupAgrees(before, after, d);
    }
  }

  /** The place of a task after a tick, in the terms of its place before. */
  ghost predicate Stepped(agents: seq<AgentManifest>, before: seq<AgentTask>, after: seq<AgentTask>,
                          outcomes: string -> Outcome, i: nat)
    requires i < |before| == |after|
  {
    var t, u := before[i], after[i];
    && u.definition == t.definition
    && (Done(t) ==> u == t)
    && (t.status == Ready ==> u == ExecuteTask(agents, t, outcomes(t.Id())))
    && (t.status == Blocked ==> u.definition == t.definition && u.attempt == t.attempt
                                && u.status == if DependenciesCompleted(after, t) then Ready else Blocked)
  }

  lemma TickSteps(agents: seq<AgentManifest>, run: Run, outcomes: string -> Outcome)
    requires TasksInv(run.tasks)
    ensures var after := Tick(agents, run, outcomes).tasks;
      && |after| == |run.tasks| && TaskIds(after) == TaskIds(run.tasks)
      && forall i :: 0 <= i < |after| ==> Stepped(agents, run.tasks, after, outcomes, i)
  {
    var before := run.tasks;
    var worked := Worked(agents, before, outcomes);
    var after := RescheduledAll(worked);
    forall i | 0 <= i < |before|
      ensures worked[i].definition == before[i].definition
      ensures before[i].status == Ready ==> worked[i].status != Blocked
    {
      assert TaskInv(before, before[i]);
      if before[i].status == Ready {
        Execution(agents, before[i], outcomes(before[i].Id()));
      }
    }
    assert TaskIds(worked) == TaskIds(before);
    ReschedulingIsStable(worked);
    assert TaskIds(after) == TaskIds(worked);
    forall i | 0 <= i < |after|
      ensures Stepped(agents, before, after, outcomes, i)
    {
      assert TaskInv(before, before[i]);
      BlockedStep(worked, after, i);
    }
  }

  lemma BlockedStep(worked: seq<AgentTask>, after: seq<AgentTask>, i: nat)
    requires Distinct(TaskIds(worked)) && after == RescheduledAll(worked) && i < |worked|
    requires forall d, s :: s != Blocked && s != Ready ==> (HasStatus(after, d, s) <==> HasStatus(worked, d, s))
    ensures worked[i].status == Blocked ==>
              after[i] == if DependenciesCompleted(after, worked[i]) then worked[i].(status := Ready) else worked[i]
    ensures worked[i].status != Blocked ==> after[i] == worked[i]
  {
    var t := worked[i];
    assert DependenciesCompleted(after, t) <==> DependenciesCompleted(worked, t);
  }

  lemma TickKeepsInv(agents: seq<AgentManifest>, run: Run, outcomes: string -> Outcome)
    requires TasksInv(run.tasks)
    ensures TasksInv(Tick(agents, run, outcomes).tasks)
  {
    var before, after := run.tasks, Tick(agents, run, outcomes).tasks;
    TickSteps(agents, run, outcomes);
    forall i | 0 <= i < |after|
      ensures TaskInv(after, after[i])
    {
      assert Stepped(agents, before, after, outcomes, i);
      StepKeepsInv(agents, before, after, outcomes, i);
    }
  }

  lemma StepKeepsInv(agents: seq<AgentManifest>, before: seq<AgentTask>, after: seq<AgentTask>,
                     outcomes: string -> Outcome, i: nat)
    requires TasksInv(before) && i < |before| == |after| && TaskIds(after) == TaskIds(before)
    requires forall k :: 0 <= k < |after| ==> Stepped(agents, before, after, outcomes, k)
    ensures TaskInv(after, after[i])
  {
    var t, u := before[i], after[i];
    assert Stepped(agents, before, after, outcomes, i) && TaskInv(before, t);
    assert DependenciesCompleted(after, u) <==> DependenciesCompleted(after, t);
    if t.status == Ready {
      Execution(agents, t, outcomes(t.Id()));
    }
    if t.status != Blocked {
      forall k | 0 <= k < |before| && before[k].status == Completed
        ensures after[k] == before[k]
      {
        assert Stepped(agents, before, after, outcomes, k);
      }
      CompletedStays(before, after, t);
    }
  }

  lemma StartInv(definitions: seq<TaskDefinition>)
    requires Distinct(Ids(definitions))
    ensures TasksInv(Started(definitions).tasks) && Follows(definitions, Started(definitions).tasks)
    ensures forall t :: t in Started(definitions).tasks ==>
              t.attempt == 0 && t.status == if t.definition.dependsOn == [] then Ready else Blocked
  {
    var blank := Fresh(definitions);
    var tasks := RescheduledAll(blank);
    assert TaskIds(blank) == Ids(definitions);
    assert TaskIds(tasks) == TaskIds(blank);
    ReschedulingIsStable(blank);
    NothingCompleted(tasks);
    forall i | 0 <= i < |tasks|
      ensures TaskInv(tasks, tasks[i])
      ensures tasks[i].attempt == 0 && tasks[i].status == if definitions[i].dependsOn == [] then Ready else Blocked
    {
      BlockedStep(blank, tasks, i);
      NoneCompleted(tasks, blank[i]);
    }
  }

  lemma NothingCompleted(tasks: seq<AgentTask>)
    requires forall t :: t in tasks ==> t.status == Blocked || t.status == Ready
    ensures forall d :: !HasStatus(tasks, d, Completed)
  {
    forall d ensures !HasStatus(tasks, d, Completed) { ByIdFound(tasks, d); }
  }

  lemma NoneCompleted(tasks: seq<AgentTask>, t: AgentTask)
    requires forall d :: !HasStatus(tasks, d, Completed)
    ensures DependenciesCompleted(tasks, t) <==> t.definition.dependsOn == []
  {
    if t.definition.dependsOn != [] {
      assert t.definition.dependsOn[0] in t.definition.dependsOn;
    }
  }

  /** In every state of every run, whatever fails. */
  lemma {:induction false} RunInv(agents: seq<AgentManifest>, definitions: seq<TaskDefinition>, ticks: seq<string -> Outcome>)
    requires Distinct(Ids(definitions))
    ensures TasksInv(After(agents, definitions, ticks).tasks)
    ensures Follows(definitions, After(agents, definitions, ticks).tasks)
  {
    if ticks == [] {
      StartInv(definitions);
    } else {
      var init := ticks[..|ticks| - 1];
      RunInv(agents, definitions, init);
      var run := After(agents, definitions, init);
      TickSteps(agents, run, ticks[|ticks| - 1]);
      TickKeepsInv(agents, run, ticks[|ticks| - 1]);
      var after := After(agents, definitions, ticks).tasks;
      forall i | 0 <= i < |after| ensures after[i].definition == definitions[i] {
        assert Stepped(agents, run.tasks, after, ticks[|ticks| - 1], i);
      }
    }
  }

  /** A task that is completed, failed or unassigned is never touched again. */
  lemma {:induction false} DoneTasksNeverChange(agents: seq<AgentManifest>, definitions: seq<TaskDefinition>,
                                                ticks: seq<string -> Outcome>, m: nat, i: nat)
    requires Distinct(Ids(definitions)) && m <= |ticks| && i < |definitions|
    ensures |After(agents, definitions, ticks[..m]).tasks| == |After(agents, definitions, ticks).tasks| == |definitions|
    ensures Done(After(agents, definitions, ticks[..m]).tasks[i]) ==>
              After(agents, definitions, ticks).tasks[i] == After(agents, definitions, ticks[..m]).tasks[i]
    decreases |ticks|
  {
    RunInv(agents, definitions, ticks[..m]);
    RunInv(agents, definitions, ticks);
    if m < |ticks| {
      var init := ticks[..|ticks| - 1];
      assert init[..m] == ticks[..m];
      DoneTasksNeverChange(agents, definitions, init, m, i);
      RunInv(agents, definitions, init);
      TickSteps(agents, After(agents, definitions, init), ticks[|ticks| - 1]);
      assert Stepped(agents, After(agents, definitions, init).tasks, After(agents, definitions, ticks).tasks,
                     ticks[|ticks| - 1], i);
    } else {
      assert ticks[..m] == ticks;
    }
  }

  // ---------- the session status ----------

  /** Completed says all tasks completed, failed says some failed or was never assigned. */
  ghost predicate SessionInv(run: Run) {
    && (run.session == SessionCompleted ==> AllCompleted(run.tasks))
    && (run.session == SessionFailed ==> AnyFailed(run.tasks))
    && (run.session == SessionRunning ==> !AllCompleted(run.tasks) && !AnyFailed(run.tasks))
  }

  lemma TickKeepsSession(agents: seq<AgentManifest>, run: Run, outcomes: string -> Outcome)
    requires TasksInv(run.tasks) && SessionInv(run)
    ensures SessionInv(Tick(agents, run, outcomes))
    ensures run.session != SessionRunning ==> Tick(agents, run, outcomes).session == run.session
  {
    var before, after := run.tasks, Tick(agents, run, outcomes).tasks;
    TickSteps(agents, run, outcomes);
    forall i | 0 <= i < |before| && Done(before[i])
      ensures after[i] == before[i]
    {
      assert Stepped(agents, before, after, outcomes, i);
    }
    if AllCompleted(before) {
      forall i | 0 <= i < |after| ensures after[i].status == Completed { assert before[i] in before; }
    }
    if AnyFailed(before) {
      var t :| t in before && (t.status == Failed || t.status == Unassigned);
      var i :| 0 <= i < |before| && before[i] == t;
      assert after[i] == t && t in after;
    }
  }

  lemma StartedSession(definitions: seq<TaskDefinition>)
    requires Distinct(Ids(definitions))
    ensures SessionInv(Started(definitions)) && Started(definitions).session == SessionRunning
  {
    StartInv(definitions);
    var tasks := Started(definitions).tasks;
    assert tasks != [] ==> tasks[0] in tasks;
  }

  /** The status reported for the session is right in every state, and once it is final it never flips. */
  lemma {:induction false} SessionNeverFlips(agents: seq<AgentManifest>, definitions: seq<TaskDefinition>,
                                             ticks: seq<string -> Outcome>, m: nat)
    requires Distinct(Ids(definitions)) && m <= |ticks|
    ensures SessionInv(After(agents, definitions, ticks))
    ensures var earlier := After(agents, definitions, ticks[..m]).session;
      earlier != SessionRunning ==> After(agents, definitions, ticks).session == earlier
  {
    hide Tick, TasksInv, SessionInv, Started, Follows;
    if ticks == [] {
      StartedSession(definitions);
    } else {
      var init := ticks[..|ticks| - 1];
      RunInv(agents, definitions, init);
      SessionNeverFlips(agents, definitions, init, if m < |ticks| then m else 0);
      TickKeepsSession(agents, After(agents, definitions, init), ticks[|ticks| - 1]);
      if m < |ticks| {
        assert init[..m] == ticks[..m];
      } else {
        assert ticks[..m] == ticks;
      }
    }
  }
}
