/** A run in which every task is assigned and every attempt succeeds: tick by tick, one depth of the graph at a time. */
module CoordinatorWaves {
  import opened Sequences
  import opened TaskGraph
  import opened TaskDefinitions
  import opened TaskLifecycle
  import opened CapabilityRouter
  import opened Scheduler
  import opened CoordinatorRun
  import opened CoordinatorTheorems

  // ---------- depths ----------

  /** In an ordered graph every task has a depth. */
  lemma DepthExists(g: Graph, order: seq<string>, t: string) returns (n: nat)
    requires IsOrder(g, order) && t in order
    ensures HasDepth(g, t, n)
  {
    var at :| 0 <= at < |order| && order[at] == t;
    forall c | IsChain(g, c) && Last(c) == t
      ensures |c| <= at + 1
    {
      var p := ChainInOrder(g, order, c, 0, at);
    }
    SingletonChain(g, t);
    n := DepthWithin(g, t, at);
  }

  lemma {:induction false} DepthWithin(g: Graph, t: string, bound: nat) returns (n: nat)
    requires t in g && forall c :: IsChain(g, c) && Last(c) == t ==> |c| <= bound + 1
    ensures HasDepth(g, t, n)
  {
    if exists c :: IsChain(g, c) && Last(c) == t && |c| == bound + 1 {
      n := bound;
    } else {
      SingletonChain(g, t);
      assert Last([t]) == t;
      n := DepthWithin(g, t, bound - 1);
    }
  }

  lemma DependencyIsShallower(g: Graph, t: string, n: nat, d: string, m: nat)
    requires HasDepth(g, t, n) && HasDepth(g, d, m) && t in g && d in g[t]
    ensures m < n
  {
    var c :| IsChain(g, c) && Last(c) == d && |c| == m + 1;
    ExtendChain(g, c, t);
  }

  lemma DeepestDependency(g: Graph, t: string, n: nat) returns (d: string)
    requires HasDepth(g, t, n) && n > 0 && t in g
    ensures d in g[t] && HasDepth(g, d, n - 1)
  {
    var c :| IsChain(g, c) && Last(c) == t && |c| == n + 1;
    var init := c[..n];
    SubChain(g, c, 0, n);
    d := Last(init);
    assert d in g[t];
    forall b | IsChain(g, b) && Last(b) == d
      ensures |b| <= n
    {
      ExtendChain(g, b, t);
      assert Last(b + [t]) == t;
    }
    assert IsChain(g, init) && Last(init) == d && |init| == n - 1 + 1;
  }

  lemma RootsAreFlat(g: Graph, t: string, n: nat)
    requires HasDepth(g, t, n) && t in g && Closed(g)
    ensures n == 0 <==> g[t] == []
  {
    if g[t] != [] {
      var d := g[t][0];
      SingletonChain(g, d);
      ExtendChain(g, [d], t);
      assert |[d] + [t]| <= n + 1;
    }
    if n > 0 {
      var d := DeepestDependency(g, t, n);
    }
  }

  // ---------- waves ----------

  /** What a task of depth `n` looks like after `k` ticks. */
  function WaveStatus(n: nat, k: nat): TaskStatus {
    if n < k then Completed else if n == k then Ready else Blocked
  }

  ghost predicate Smooth(agents: seq<AgentManifest>, definitions: seq<TaskDefinition>, ticks: seq<string -> Outcome>) {
    && AtLeastOneAttempt(definitions)
    && (forall i :: 0 <= i < |definitions| ==> RouteTaskByCapability(definitions[i], agents).Assigned?)
    && forall k, id :: 0 <= k < |ticks| ==> ticks[k](id) == Returned
  }

  ghost predicate InWave(g: Graph, tasks: seq<AgentTask>, k: nat) {
    forall i, n: nat :: 0 <= i < |tasks| && HasDepth(g, tasks[i].Id(), n) ==> tasks[i].status == WaveStatus(n, k)
  }

  lemma SmoothExecution(agents: seq<AgentManifest>, t: AgentTask)
    requires t.status == Ready && t.attempt < t.definition.maxAttempts
    requires RouteTaskByCapability(t.definition, agents).Assigned?
    ensures ExecuteTask(agents, t, Returned).status == Completed
    ensures Invokes(agents, t, Returned)
  {
  }

  /** A tick moves every depth one wave on: those that are done or ready. */
  lemma WaveCompletes(agents: seq<AgentManifest>, before: seq<AgentTask>, after: seq<AgentTask>, outcomes: string -> Outcome,
                      i: nat, n: nat, k: nat)
    requires i < |before| == |after| && Stepped(agents, before, after, outcomes, i) && TaskInv(before, before[i])
    requires before[i].definition.maxAttempts >= 1 && RouteTaskByCapability(before[i].definition, agents).Assigned?
    requires outcomes(before[i].Id()) == Returned
    requires before[i].status == WaveStatus(n, k)
    ensures n <= k ==> after[i].status == Completed
    ensures n > k ==> after[i].status == if DependenciesCompleted(after, before[i]) then Ready else Blocked
  {
    if n == k {
      SmoothExecution(agents, before[i]);
    }
  }

  ghost predicate CompletedUpTo(g: Graph, tasks: seq<AgentTask>, k: nat) {
    forall j, m: nat :: 0 <= j < |tasks| && HasDepth(g, tasks[j].Id(), m) ==> (tasks[j].status == Completed <==> m <= k)
  }

  lemma PlaceMoves(agents: seq<AgentManifest>, definitions: seq<TaskDefinition>, g: Graph, before: seq<AgentTask>, after: seq<AgentTask>,
                   outcomes: string -> Outcome, k: nat, i: nat)
    requires Smooth(agents, definitions, [outcomes]) && Follows(definitions, before) && InWave(g, before, k)
    requires i < |before| == |after| && Stepped(agents, before, after, outcomes, i) && TaskInv(before, before[i])
    ensures forall n: nat :: HasDepth(g, before[i].Id(), n) && n <= k ==> after[i].status == Completed
    ensures forall n: nat :: HasDepth(g, before[i].Id(), n) && n > k ==>
                               after[i].status == if DependenciesCompleted(after, before[i]) then Ready else Blocked
  {
    hide HasDepth, TaskInv, Stepped;
    assert [outcomes][0] == outcomes;
    forall n: nat | HasDepth(g, before[i].Id(), n)
      ensures n <= k ==> after[i].status == Completed
      ensures n > k ==> after[i].status == if DependenciesCompleted(after, before[i]) then Ready else Blocked
    {
      WaveCompletes(agents, before, after, outcomes, i, n, k);
    }
  }

  /** What the tick completed, and what it left to readiness. */
  lemma PlacesMove(agents: seq<AgentManifest>, definitions: seq<TaskDefinition>, run: Run, outcomes: string -> Outcome, k: nat)
    requires Smooth(agents, definitions, [outcomes])
    requires TasksInv(run.tasks) && Follows(definitions, run.tasks) && InWave(GraphOf(definitions), run.tasks, k)
    ensures var g, after := GraphOf(definitions), Tick(agents, run, outcomes).tasks;
      && |after| == |run.tasks| && TaskIds(after) == TaskIds(run.tasks) && CompletedUpTo(g, after, k)
      && forall i, n: nat :: 0 <= i < |after| && HasDepth(g, run.tasks[i].Id(), n) && n > k ==>
           after[i].status == if DependenciesCompleted(after, run.tasks[i]) then Ready else Blocked
  {
    hide HasDepth, Tick, TaskInv, Stepped, DependenciesCompleted, Smooth, InWave, Follows;
    var g, before, after := GraphOf(definitions), run.tasks, Tick(agents, run, outcomes).tasks;
    TickSteps(agents, run, outcomes);
    forall i | 0 <= i < |before|
      ensures before[i].Id() == after[i].Id()
      ensures forall n: nat :: HasDepth(g, before[i].Id(), n) && n <= k ==> after[i].status == Completed
      ensures forall n: nat :: HasDepth(g, before[i].Id(), n) && n > k ==>
                                 after[i].status == if DependenciesCompleted(after, before[i]) then Ready else Blocked
    {
      assert TaskIds(before)[i] == TaskIds(after)[i];
      assert Stepped(agents, before, after, outcomes, i) && TaskInv(before, before[i]);
      PlaceMoves(agents, definitions, g, before, after, outcomes, k, i);
    }
  }

  lemma WaveMoves(agents: seq<AgentManifest>, definitions: seq<TaskDefinition>, order: seq<string>, run: Run,
                  outcomes: string -> Outcome, k: nat)
    requires Distinct(Ids(definitions)) && Closed(GraphOf(definitions))
    requires IsOrder(GraphOf(definitions), order) && forall t :: t in GraphOf(definitions) ==> t in order
    requires Smooth(agents, definitions, [outcomes])
    requires TasksInv(run.tasks) && Follows(definitions, run.tasks) && InWave(GraphOf(definitions), run.tasks, k)
    ensures InWave(GraphOf(definitions), Tick(agents, run, outcomes).tasks, k + 1)
  {
    hide HasDepth, Tick, IsOrder, DependenciesCompleted, Smooth, Follows, Closed;
    var g, before, after := GraphOf(definitions), run.tasks, Tick(agents, run, outcomes).tasks;
    PlacesMove(agents, definitions, run, outcomes, k);
    forall i, n: nat | 0 <= i < |after| && HasDepth(g, after[i].Id(), n)
      ensures after[i].status == WaveStatus(n, k + 1)
    {
      assert TaskIds(before)[i] == TaskIds(after)[i];
      if n > k {
        NextWave(definitions, order, before, after, i, n, k);
      }
    }
  }

  /** A task is released exactly when the wave reaches the deepest of its dependencies. */
  lemma NextWave(definitions: seq<TaskDefinition>, order: seq<string>, before: seq<AgentTask>, after: seq<AgentTask>,
                 i: nat, n: nat, k: nat)
    requires Distinct(Ids(definitions)) && Closed(GraphOf(definitions)) && Follows(definitions, before)
    requires IsOrder(GraphOf(definitions), order) && forall t :: t in GraphOf(definitions) ==> t in order
    requires |after| == |before| && TaskIds(after) == TaskIds(before) && i < |before|
    requires Distinct(TaskIds(before))
    requires HasDepth(GraphOf(definitions), before[i].Id(), n) && n > k
    requires CompletedUpTo(GraphOf(definitions), after, k)
    ensures DependenciesCompleted(after, before[i]) <==> n == k + 1
  {
    hide HasDepth, IsOrder, IsChain;
    var g, t := GraphOf(definitions), before[i];
    GraphAt(definitions, i);
    forall d, m: nat | d in t.definition.dependsOn && HasDepth(g, d, m)
      ensures m < n && (HasStatus(after, d, Completed) <==> m <= k)
    {
      DependencyIsShallower(g, t.Id(), n, d, m);
      var j := PlaceOf(definitions, before, d);
      assert TaskIds(after)[j] == d;
      ByIdAt(after, j);
    }
    if n == k + 1 {
      forall d | d in t.definition.dependsOn
        ensures HasStatus(after, d, Completed)
      {
        var m := DepthExists(g, order, d);
      }
    } else {
      var d := DeepestDependency(g, t.Id(), n);
      assert !HasStatus(after, d, Completed);
    }
  }

  /** After `k` ticks exactly the tasks of smaller depth are completed, those of depth `k` are ready, the rest blocked. */
  lemma {:induction false} WavesFollowDepth(agents: seq<AgentManifest>, definitions: seq<TaskDefinition>, order: seq<string>,
                                            ticks: seq<string -> Outcome>)
    requires Distinct(Ids(definitions)) && Closed(GraphOf(definitions))
    requires IsOrder(GraphOf(definitions), order) && forall t :: t in GraphOf(definitions) ==> t in order
    requires Smooth(agents, definitions, ticks)
    ensures InWave(GraphOf(definitions), After(agents, definitions, ticks).tasks, |ticks|)
  {
    hide HasDepth, IsOrder;
    var g := GraphOf(definitions);
    RunInv(agents, definitions, ticks);
    if ticks == [] {
      StartInv(definitions);
      var tasks := After(agents, definitions, ticks).tasks;
      forall i, n: nat | 0 <= i < |tasks| && HasDepth(g, tasks[i].Id(), n)
        ensures tasks[i].status == WaveStatus(n, 0)
      {
        assert tasks[i] in tasks;
        GraphAt(definitions, i);
        RootsAreFlat(g, tasks[i].Id(), n);
      }
    } else {
      var init, outcomes := ticks[..|ticks| - 1], ticks[|ticks| - 1];
      WavesFollowDepth(agents, definitions, order, init);
      RunInv(agents, definitions, init);
      WaveMoves(agents, definitions, order, After(agents, definitions, init), outcomes, |init|);
    }
  }

  /** Tick `k + 1` calls the executor for exactly the tasks of depth `k`. */
  lemma TickCallsOneDepth(agents: seq<AgentManifest>, definitions: seq<TaskDefinition>, order: seq<string>,
                          ticks: seq<string -> Outcome>, i: nat, n: nat)
    requires Distinct(Ids(definitions)) && Closed(GraphOf(definitions)) && i < |definitions|
    requires IsOrder(GraphOf(definitions), order) && forall t :: t in GraphOf(definitions) ==> t in order
    requires Smooth(agents, definitions, ticks) && HasDepth(GraphOf(definitions), definitions[i].id, n)
    ensures |After(agents, definitions, ticks).tasks| == |definitions|
    ensures Invokes(agents, After(agents, definitions, ticks).tasks[i], Returned) <==> n == |ticks|
  {
    hide HasDepth, IsOrder, After;
    var tasks := After(agents, definitions, ticks).tasks;
    RunInv(agents, definitions, ticks);
    WavesFollowDepth(agents, definitions, order, ticks);
    assert TaskInv(tasks, tasks[i]) && tasks[i].definition == definitions[i];
    assert HasDepth(GraphOf(definitions), tasks[i].Id(), n);
    assert tasks[i].status == WaveStatus(n, |ticks|);
    assert RouteTaskByCapability(definitions[i], agents).Assigned? && definitions[i].maxAttempts >= 1;
  }
}
