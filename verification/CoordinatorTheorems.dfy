/** How long a run can last, where it ends, and what it has called. */
module CoordinatorTheorems {
  import opened Wrappers
  import opened Sequences
  import opened TaskGraph
  import opened TaskDefinitions
  import opened TaskLifecycle
  import opened CapabilityRouter
  import opened Scheduler
  import opened CoordinatorRun

  predicate AnyReady(tasks: seq<AgentTask>) {
    exists t :: t in tasks && t.status == Ready
  }

  ghost predicate AtLeastOneAttempt(definitions: seq<TaskDefinition>) {
    forall i :: 0 <= i < |definitions| ==> definitions[i].maxAttempts >= 1
  }

  // ---------- the critical path ----------

  function MaxAttempts(definitions: seq<TaskDefinition>, id: string): int {
    if id in Ids(definitions) then definitions[IndexOf(Ids(definitions), id)].maxAttempts else 0
  }

  /** The attempts allowed along a dependency chain. */
  function Weight(definitions: seq<TaskDefinition>, c: seq<string>): int {
    if c == [] then 0 else Weight(definitions, c[..|c| - 1]) + MaxAttempts(definitions, c[|c| - 1])
  }

  lemma MaxAttemptsAt(definitions: seq<TaskDefinition>, i: nat)
    requires Distinct(Ids(definitions)) && i < |definitions|
    ensures MaxAttempts(definitions, definitions[i].id) == definitions[i].maxAttempts
  {
    IndexOfDistinct(Ids(definitions), i);
  }

  /** A chain that accounts for every tick so far: it ends in `t` and all its attempts but the last ones are used. */
  ghost predicate PaysFor(definitions: seq<TaskDefinition>, ticks: nat, t: AgentTask, c: seq<string>) {
    && IsChain(GraphOf(definitions), c) && Last(c) == t.Id()
    && ticks <= Weight(definitions, c) - t.definition.maxAttempts + t.attempt
  }

  /** A dependency whose completion in this tick released the task. */
  lemma ReleasingDependency(agents: seq<AgentManifest>, before: seq<AgentTask>, after: seq<AgentTask>,
                            outcomes: string -> Outcome, i: nat) returns (k: nat)
    requires TasksInv(before) && |after| == |before| && TaskIds(after) == TaskIds(before) && i < |before|
    requires forall j :: 0 <= j < |after| ==> Stepped(agents, before, after, outcomes, j)
    requires before[i].status == Blocked && after[i].status == Ready
    ensures k < |before| && before[k].Id() in before[i].definition.dependsOn
    ensures before[k].status == Ready && after[k].status == Completed
    ensures after[k].attempt <= before[k].attempt + 1
  {
    assert TaskInv(before, before[i]);
    assert Stepped(agents, before, after, outcomes, i);
    var d :| d in before[i].definition.dependsOn && !HasStatus(before, d, Completed);
    assert HasStatus(after, d, Completed);
    LookupAgrees(before, after, d);
    k :| 0 <= k < |before| && ById(before, d) == Some(before[k]) && ById(after, d) == Some(after[k]) && before[k].Id() == d;
    assert Stepped(agents, before, after, outcomes, k);
    assert TaskInv(before, before[k]);
    if before[k].status == Ready {
      Execution(agents, before[k], outcomes(before[k].Id()));
    }
  }

  /** After `n` ticks every ready task is paid for by a chain that ends in it. */
  lemma {:induction false} ReadyIsPaidFor(agents: seq<AgentManifest>, definitions: seq<TaskDefinition>,
                                          ticks: seq<string -> Outcome>, i: nat) returns (c: seq<string>)
    requires Distinct(Ids(definitions)) && AtLeastOneAttempt(definitions) && i < |definitions|
    requires |After(agents, definitions, ticks).tasks| == |definitions|
    requires After(agents, definitions, ticks).tasks[i].status == Ready
    ensures PaysFor(definitions, |ticks|, After(agents, definitions, ticks).tasks[i], c)
    decreases |ticks|
  {
    hide PaysFor, Tick, TasksInv;
    if ticks == [] {
      RunInv(agents, definitions, ticks);
      c := [definitions[i].id];
      RootPays(definitions, After(agents, definitions, ticks).tasks[i], i);
    } else {
      var init := ticks[..|ticks| - 1];
      RunInv(agents, definitions, init);
      var k, released := PayingTask(agents, definitions, After(agents, definitions, init), ticks[|ticks| - 1], |init|, i);
      var b := ReadyIsPaidFor(agents, definitions, init, k);
      c := if released then b + [definitions[i].id] else b;
    }
  }

  /** The task whose chain pays for a ready one: itself when it is tried again, else the dependency that released it. */
  lemma PayingTask(agents: seq<AgentManifest>, definitions: seq<TaskDefinition>, run: Run, outcomes: string -> Outcome,
                   n: nat, i: nat) returns (k: nat, released: bool)
    requires Distinct(Ids(definitions)) && AtLeastOneAttempt(definitions)
    requires TasksInv(run.tasks) && Follows(definitions, run.tasks) && i < |definitions|
    requires |Tick(agents, run, outcomes).tasks| == |definitions|
    requires Tick(agents, run, outcomes).tasks[i].status == Ready
    ensures k < |run.tasks| && run.tasks[k].status == Ready
    ensures forall c :: PaysFor(definitions, n, run.tasks[k], c) ==>
              PaysFor(definitions, n + 1, Tick(agents, run, outcomes).tasks[i], if released then c + [definitions[i].id] else c)
  {
    hide PaysFor, Tick;
    var before, after := run.tasks, Tick(agents, run, outcomes).tasks;
    TickSteps(agents, run, outcomes);
    assert Stepped(agents, before, after, outcomes, i) && TaskInv(before, before[i]);
    if before[i].status == Ready {
      k, released := i, false;
      Execution(agents, before[i], outcomes(before[i].Id()));
      hide Stepped, TaskInv, ExecuteTask;
      forall c | PaysFor(definitions, n, before[i], c) ensures PaysFor(definitions, n + 1, after[i], c) {
        RetryPays(definitions, n, before[i], after[i], c);
      }
    } else {
      released := true;
      k := ReleasingDependency(agents, before, after, outcomes, i);
      assert TaskInv(before, before[k]);
      forall c | PaysFor(definitions, n, before[k], c) ensures PaysFor(definitions, n + 1, after[i], c + [definitions[i].id]) {
        ReleasedPays(definitions, n, before[k], c, after[i], i);
      }
    }
  }

  lemma RootPays(definitions: seq<TaskDefinition>, t: AgentTask, i: nat)
    requires Distinct(Ids(definitions)) && i < |definitions| && t.definition == definitions[i] && t.attempt >= 0
    ensures PaysFor(definitions, 0, t, [t.Id()])
  {
    hide IsChain;
    GraphAt(definitions, i);
    MaxAttemptsAt(definitions, i);
    SingletonChain(GraphOf(definitions), t.Id());
    assert [t.Id()][..0] == [];
    assert Weight(definitions, [t.Id()]) == MaxAttempts(definitions, t.Id());
  }

  lemma RetryPays(definitions: seq<TaskDefinition>, ticks: nat, t: AgentTask, u: AgentTask, c: seq<string>)
    requires PaysFor(definitions, ticks, t, c) && u.definition == t.definition && u.attempt == t.attempt + 1
    ensures PaysFor(definitions, ticks + 1, u, c)
  {
  }

  /** A released task inherits the chain that paid for the dependency that released it. */
  lemma ReleasedPays(definitions: seq<TaskDefinition>, ticks: nat, d: AgentTask, b: seq<string>, t: AgentTask, i: nat)
    requires Distinct(Ids(definitions)) && i < |definitions| && t.definition == definitions[i]
    requires PaysFor(definitions, ticks, d, b) && d.attempt < d.definition.maxAttempts
    requires d.Id() in t.definition.dependsOn && t.attempt == 0
    ensures PaysFor(definitions, ticks + 1, t, b + [t.Id()])
  {
    hide IsChain;
    GraphAt(definitions, i);
    MaxAttemptsAt(definitions, i);
    ExtendChain(GraphOf(definitions), b, t.Id());
    assert (b + [t.Id()])[..|b|] == b;
  }

  /**
    * The critical-path bound: when no chain allows more than `bound` attempts, nothing is ready after `bound` ticks,
    * whatever fails.
    */
  lemma CriticalPathBound(agents: seq<AgentManifest>, definitions: seq<TaskDefinition>, ticks: seq<string -> Outcome>, bound: nat)
    requires Distinct(Ids(definitions)) && AtLeastOneAttempt(definitions)
    requires forall c :: IsChain(GraphOf(definitions), c) ==> Weight(definitions, c) <= bound
    requires |ticks| >= bound
    ensures !AnyReady(After(agents, definitions, ticks).tasks)
  {
    hide IsChain, After, TasksInv;
    var tasks := After(agents, definitions, ticks).tasks;
    RunInv(agents, definitions, ticks);
    if AnyReady(tasks) {
      var t :| t in tasks && t.status == Ready;
      var i :| 0 <= i < |tasks| && tasks[i] == t;
      var c := ReadyIsPaidFor(agents, definitions, ticks, i);
      assert Weight(definitions, c) <= bound;
      ReadyHasAttemptLeft(agents, definitions, ticks, i);
      assert false;
    }
  }

  lemma ReadyHasAttemptLeft(agents: seq<AgentManifest>, definitions: seq<TaskDefinition>, ticks: seq<string -> Outcome>, i: nat)
    requires Distinct(Ids(definitions)) && AtLeastOneAttempt(definitions)
    requires i < |After(agents, definitions, ticks).tasks| && After(agents, definitions, ticks).tasks[i].status == Ready
    ensures After(agents, definitions, ticks).tasks[i].attempt < After(agents, definitions, ticks).tasks[i].definition.maxAttempts
  {
    hide After;
    RunInv(agents, definitions, ticks);
    assert TaskInv(After(agents, definitions, ticks).tasks, After(agents, definitions, ticks).tasks[i]);
  }

  /** Without an attempt allowed, an assignable task stays ready however long the run goes on: the bound needs one. */
  lemma {:induction false} NoAttemptsNoProgress(agents: seq<AgentManifest>, definitions: seq<TaskDefinition>,
                                                ticks: seq<string -> Outcome>, i: nat)
    requires Distinct(Ids(definitions)) && i < |definitions|
    requires definitions[i].dependsOn == [] && definitions[i].maxAttempts <= 0
    requires RouteTaskByCapability(definitions[i], agents).Assigned?
    ensures |After(agents, definitions, ticks).tasks| == |definitions|
    ensures After(agents, definitions, ticks).tasks[i].status == Ready
  {
    RunInv(agents, definitions, ticks);
    if ticks == [] {
      StartInv(definitions);
      assert Started(definitions).tasks[i] in Started(definitions).tasks;
    } else {
      var init, outcomes := ticks[..|ticks| - 1], ticks[|ticks| - 1];
      NoAttemptsNoProgress(agents, definitions, init, i);
      var run := After(agents, definitions, init);
      RunInv(agents, definitions, init);
      hide After, TasksInv, Follows;
      StaysReady(agents, run, outcomes, i);
    }
  }

  lemma StaysReady(agents: seq<AgentManifest>, run: Run, outcomes: string -> Outcome, i: nat)
    requires TasksInv(run.tasks) && i < |run.tasks| && run.tasks[i].status == Ready
    requires run.tasks[i].definition.maxAttempts <= 0
    requires RouteTaskByCapability(run.tasks[i].definition, agents).Assigned?
    ensures |Tick(agents, run, outcomes).tasks| == |run.tasks| && Tick(agents, run, outcomes).tasks[i].status == Ready
  {
    hide Tick, RouteTaskByCapability;
    TickSteps(agents, run, outcomes);
    assert Stepped(agents, run.tasks, Tick(agents, run, outcomes).tasks, outcomes, i);
  }

  // ---------- the fixed workflow ----------

  const SALES_RECOVERY_TASKS: seq<TaskDefinition> := [
    TaskDefinition("research", "market_research", ["read"], [], 2),
    TaskDefinition("finance", "financial_analysis", ["read"], [], 2),
    TaskDefinition("strategy", "strategy", ["read"], ["research", "finance"], 2),
    TaskDefinition("outreach", "external_communication", ["external_write"], ["strategy"], 2)
  ]

  /** How many ticks the service grants a run. */
  const TICK_CAP: nat := 12

  lemma SalesNamesDiffer()
    ensures "research" != "finance" && "research" != "strategy" && "research" != "outreach"
    ensures "finance" != "strategy" && "finance" != "outreach" && "strategy" != "outreach"
  {
    assert "research"[0] == 'r' && "finance"[0] == 'f' && "strategy"[0] == 's' && "outreach"[0] == 'o';
  }

  lemma SalesIds()
    ensures Ids(SALES_RECOVERY_TASKS) == ["research", "finance", "strategy", "outreach"]
    ensures Distinct(Ids(SALES_RECOVERY_TASKS))
  {
    assert Ids(SALES_RECOVERY_TASKS) == ["research", "finance", "strategy", "outreach"];
    SalesNamesDiffer();
  }

  function SalesRank(t: string): nat {
    if t == "strategy" then 2 else if t == "outreach" then 3 else 1
  }

  lemma SalesTask(t: string)
    requires t in GraphOf(SALES_RECOVERY_TASKS)
    ensures MaxAttempts(SALES_RECOVERY_TASKS, t) == 2
    ensures GraphOf(SALES_RECOVERY_TASKS)[t]
         == if t == "strategy" then ["research", "finance"] else if t == "outreach" then ["strategy"] else []
  {
    hide GraphOf;
    SalesIds();
    var i := IndexOf(Ids(SALES_RECOVERY_TASKS), t);
    GraphAt(SALES_RECOVERY_TASKS, i);
    SalesNamesDiffer();
  }

  /** Every dependency ranks below its dependent. */
  lemma SalesEdge(t: string, d: string)
    requires t in GraphOf(SALES_RECOVERY_TASKS) && d in GraphOf(SALES_RECOVERY_TASKS)[t]
    ensures SalesRank(d) < SalesRank(t)
  {
    SalesTask(t);
    SalesNamesDiffer();
  }

  lemma {:induction false} SalesChainWeight(c: seq<string>)
    requires IsChain(GraphOf(SALES_RECOVERY_TASKS), c)
    ensures Weight(SALES_RECOVERY_TASKS, c) <= 2 * SalesRank(Last(c))
  {
    hide GraphOf, MaxAttempts;
    var g, t := GraphOf(SALES_RECOVERY_TASKS), Last(c);
    SalesTask(t);
    if |c| > 1 {
      var init := c[..|c| - 1];
      SubChain(g, c, 0, |c| - 1);
      SalesEdge(t, Last(init));
      SalesChainWeight(init);
    } else {
      assert c[..0] == [];
    }
  }

  /** The fixed workflow has come to rest after six ticks, well before the cap. */
  lemma SalesRunFitsTheCap(agents: seq<AgentManifest>, ticks: seq<string -> Outcome>)
    requires |ticks| >= 6
    ensures !AnyReady(After(agents, SALES_RECOVERY_TASKS, ticks).tasks)
    ensures 6 <= TICK_CAP
  {
    SalesIds();
    hide GraphOf, IsChain, After, Weight;
    forall c | IsChain(GraphOf(SALES_RECOVERY_TASKS), c)
      ensures Weight(SALES_RECOVERY_TASKS, c) <= 6
    {
      SalesChainWeight(c);
    }
    CriticalPathBound(agents, SALES_RECOVERY_TASKS, ticks, 6);
  }

  // ---------- quiescence ----------

  ghost predicate GivenUp(t: AgentTask) {
    t.status == Failed || t.status == Unassigned
  }

  /** A blocked task with a transitive dependency that failed or was never assigned. */
  ghost predicate CutOff(definitions: seq<TaskDefinition>, tasks: seq<AgentTask>, t: AgentTask) {
    exists u :: u in tasks && GivenUp(u) && Reaches(GraphOf(definitions), u.Id(), t.Id())
  }

  lemma {:induction false} BlockedIsCutOff(definitions: seq<TaskDefinition>, tasks: seq<AgentTask>, order: seq<string>, at: nat, i: nat)
    requires Distinct(Ids(definitions)) && Closed(GraphOf(definitions))
    requires Follows(definitions, tasks) && TasksInv(tasks) && !AnyReady(tasks)
    requires IsOrder(GraphOf(definitions), order) && forall t :: t in GraphOf(definitions) ==> t in order
    requires i < |tasks| && tasks[i].status == Blocked && at < |order| && order[at] == tasks[i].Id()
    ensures CutOff(definitions, tasks, tasks[i])
    decreases at
  {
    var g, t := GraphOf(definitions), tasks[i];
    GraphAt(definitions, i);
    assert TaskInv(tasks, t);
    var d :| d in t.definition.dependsOn && !HasStatus(tasks, d, Completed);
    assert AllIn(g[order[at]], order[..at]);
    var p :| 0 <= p < at && order[p] == d;
    var k := PlaceOf(definitions, tasks, d);
    assert TaskInv(tasks, tasks[k]);
    assert tasks[k] in tasks;
    ByIdAt(tasks, k);
    if tasks[k].status == Blocked {
      BlockedIsCutOff(definitions, tasks, order, p, k);
      var u :| u in tasks && GivenUp(u) && Reaches(g, u.Id(), d);
      var c :| IsChain(g, c) && c[0] == u.Id() && Last(c) == d;
      ReachesFurther(g, c, t.Id());
    } else {
      SingletonChain(g, d);
      ReachesFurther(g, [d], t.Id());
    }
  }

  lemma PlaceOf(definitions: seq<TaskDefinition>, tasks: seq<AgentTask>, d: string) returns (k: nat)
    requires Follows(definitions, tasks) && d in GraphOf(definitions)
    ensures k < |tasks| && tasks[k].Id() == d
  {
    k := IndexOf(Ids(definitions), d);
    assert definitions[k].id == d;
  }

  lemma ReachesFurther(g: Graph, c: seq<string>, t: string)
    requires IsChain(g, c) && t in g && Last(c) in g[t]
    ensures Reaches(g, c[0], t)
  {
    ExtendChain(g, c, t);
    assert (c + [t])[0] == c[0];
  }

  lemma RestIsDecided(definitions: seq<TaskDefinition>, tasks: seq<AgentTask>)
    requires tasks != []
    requires forall t :: t in tasks ==>
               t.status == Completed || GivenUp(t) || (t.status == Blocked && CutOff(definitions, tasks, t))
    ensures AllCompleted(tasks) || AnyFailed(tasks)
  {
    if !AllCompleted(tasks) {
      var t :| t in tasks && t.status != Completed;
      if !GivenUp(t) {
        var u :| u in tasks && GivenUp(u) && Reaches(GraphOf(definitions), u.Id(), t.Id());
      }
    }
  }

  /**
    * When nothing is ready, every task is finished or cut off by one that is not, and the session of a non-empty
    * workflow is completed exactly when all tasks are, and failed otherwise.
    */
  lemma {:induction false} Quiescence(agents: seq<AgentManifest>, definitions: seq<TaskDefinition>,
                        ticks: seq<string -> Outcome>, order: seq<string>)
    requires Distinct(Ids(definitions)) && Closed(GraphOf(definitions))
    requires IsOrder(GraphOf(definitions), order) && forall t :: t in GraphOf(definitions) ==> t in order
    requires !AnyReady(After(agents, definitions, ticks).tasks)
    ensures var run := After(agents, definitions, ticks);
      && (forall t :: t in run.tasks ==>
           || t.status == Completed || GivenUp(t)
           || (t.status == Blocked && CutOff(definitions, run.tasks, t)))
      && (definitions != [] ==>
           run.session == if AllCompleted(run.tasks) then SessionCompleted else SessionFailed)
  {
    hide After;
    var run := After(agents, definitions, ticks);
    RunInv(agents, definitions, ticks);
    assert ticks[..|ticks|] == ticks;
    SessionNeverFlips(agents, definitions, ticks, |ticks|);
    forall i | 0 <= i < |run.tasks|
      ensures run.tasks[i].status == Completed || GivenUp(run.tasks[i])
              || (run.tasks[i].status == Blocked && CutOff(definitions, run.tasks, run.tasks[i]))
    {
      assert TaskInv(run.tasks, run.tasks[i]);
      assert run.tasks[i] in run.tasks;
      if run.tasks[i].status == Blocked {
        GraphAt(definitions, i);
        var at :| 0 <= at < |order| && order[at] == run.tasks[i].Id();
        BlockedIsCutOff(definitions, run.tasks, order, at, i);
      }
    }
    if definitions != [] {
      RestIsDecided(definitions, run.tasks);
    }
  }

  /** In every reachable state, a task the executor would be called for has attempts left and all dependencies completed. */
  lemma CallsFollowDependencies(agents: seq<AgentManifest>, definitions: seq<TaskDefinition>, ticks: seq<string -> Outcome>,
                                i: nat, outcome: Outcome)
    requires Distinct(Ids(definitions)) && i < |definitions|
    requires i < |After(agents, definitions, ticks).tasks|
    requires Invokes(agents, After(agents, definitions, ticks).tasks[i], outcome)
    ensures var tasks := After(agents, definitions, ticks).tasks;
      && tasks[i].attempt < definitions[i].maxAttempts
      && forall d :: d in definitions[i].dependsOn ==> HasStatus(tasks, d, Completed)
  {
    hide After, RouteTaskByCapability;
    RunInv(agents, definitions, ticks);
    var tasks := After(agents, definitions, ticks).tasks;
    assert TaskInv(tasks, tasks[i]);
  }

  /** A blocked task with a failed or unassigned dependency is never unlocked. */
  lemma {:induction false} FailureBlocksForever(agents: seq<AgentManifest>, definitions: seq<TaskDefinition>,
                                                ticks: seq<string -> Outcome>, m: nat, i: nat)
    requires Distinct(Ids(definitions)) && m <= |ticks| && i < |definitions|
    requires var early := After(agents, definitions, ticks[..m]).tasks;
      i < |early| && early[i].status == Blocked && DependencyFailed(early, early[i])
    ensures i < |After(agents, definitions, ticks).tasks|
    ensures After(agents, definitions, ticks).tasks[i].status == Blocked
  {
    hide After;
    var early, late := After(agents, definitions, ticks[..m]).tasks, After(agents, definitions, ticks).tasks;
    RunInv(agents, definitions, ticks[..m]);
    RunInv(agents, definitions, ticks);
    SameIds(definitions, early, late);
    var d :| d in definitions[i].dependsOn && (HasStatus(early, d, Failed) || HasStatus(early, d, Unassigned));
    LookupAgrees(early, late, d);
    var j :| 0 <= j < |early| && ById(early, d) == Some(early[j]) && ById(late, d) == Some(late[j]);
    DoneTasksNeverChange(agents, definitions, ticks, m, j);
    assert TaskInv(late, late[i]);
  }

  lemma SameIds(definitions: seq<TaskDefinition>, a: seq<AgentTask>, b: seq<AgentTask>)
    requires Follows(definitions, a) && Follows(definitions, b)
    ensures TaskIds(a) == TaskIds(b)
  {
  }
}
