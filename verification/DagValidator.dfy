/** The static check of a workflow, made before a session is created for it. */
module DagValidator {
  import opened Sequences
  import opened TaskGraph
  import opened TaskDefinitions

  datatype DagValidation =
    | Accepted(topologicalOrder: seq<string>)
    | Rejected(errors: seq<DagError>)

  // ---------- the dependents table ----------

  function Repeat(x: string, n: nat): (r: seq<string>)
    ensures |r| == n && forall i :: 0 <= i < n ==> r[i] == x
  {
    seq(n, _ => x)
  }

  /** The tasks that list `d`, in definition order, once for each time they list it. */
  function DependentsOf(tasks: seq<TaskDefinition>, d: string): seq<string> {
    if tasks == [] then []
    else
      var last := tasks[|tasks| - 1];
      DependentsOf(tasks[..|tasks| - 1], d) + Repeat(last.id, Count(last.dependsOn, d))
  }

  lemma {:induction false} CountRepeat(x: string, n: nat, y: string)
    ensures Count(Repeat(x, n), y) == if x == y then n else 0
  {
    if n > 0 {
      assert Repeat(x, n)[..n - 1] == Repeat(x, n - 1);
      CountRepeat(x, n - 1, y);
    }
  }

  lemma {:induction false} CountAbsent(s: seq<string>, x: string)
    ensures Count(s, x) > 0 <==> x in s
  {
    if s != [] {
      CountAbsent(s[..|s| - 1], x);
    }
  }

  /** `t` appears among the dependents of `d` as often as `d` appears among the dependencies of `t`. */
  lemma {:induction false} DependentsCount(tasks: seq<TaskDefinition>, d: string, t: string)
    requires Distinct(Ids(tasks))
    ensures Count(DependentsOf(tasks, d), t) == if t in GraphOf(tasks) then Count(GraphOf(tasks)[t], d) else 0
  {
    if tasks != [] {
      var init, last := tasks[..|tasks| - 1], tasks[|tasks| - 1];
      IdsPrefix(tasks, |init|);
      DependentsCount(init, d, t);
      CountAppend(DependentsOf(init, d), Repeat(last.id, Count(last.dependsOn, d)), t);
      CountRepeat(last.id, Count(last.dependsOn, d), t);
      assert last.id !in Ids(init);
    }
  }

  /** Never later in the definitions than what follows. */
  ghost predicate InDefinitionOrder(ids: seq<string>, s: seq<string>) {
    && (forall i :: 0 <= i < |s| ==> s[i] in ids)
    && forall i, j :: 0 <= i < j < |s| ==> IndexOf(ids, s[i]) <= IndexOf(ids, s[j])
  }

  lemma {:induction false} DependentsAreOrdered(tasks: seq<TaskDefinition>, d: string)
    requires Distinct(Ids(tasks))
    ensures InDefinitionOrder(Ids(tasks), DependentsOf(tasks, d))
  {
    if tasks != [] {
      var init, last := tasks[..|tasks| - 1], tasks[|tasks| - 1];
      IdsPrefix(tasks, |init|);
      DependentsAreOrdered(init, d);
      IndexOfDistinct(Ids(tasks), |init|);
      forall x | x in Ids(init)
        ensures x in Ids(tasks) && IndexOf(Ids(tasks), x) == IndexOf(Ids(init), x)
      {
        IndexOfDistinct(Ids(tasks), IndexOf(Ids(init), x));
      }
    }
  }

  /** Fills the two tables: who depends on each task, and how many dependencies each still waits for. */
  method CountDependencies(tasks: seq<TaskDefinition>)
    returns (dependents: map<string, seq<string>>, unmet: map<string, int>)
    requires Distinct(Ids(tasks)) && Closed(GraphOf(tasks))
    ensures forall t :: t in dependents <==> t in GraphOf(tasks)
    ensures forall t :: t in unmet <==> t in GraphOf(tasks)
    ensures forall t :: t in GraphOf(tasks) ==> dependents[t] == DependentsOf(tasks, t)
    ensures forall t :: t in GraphOf(tasks) ==> unmet[t] == |GraphOf(tasks)[t]|
  {
    ghost var g := GraphOf(tasks);
    dependents, unmet := map[], map[];
    for i := 0 to |tasks|
      invariant forall t :: t in dependents <==> t in Ids(tasks[..i])
      invariant forall t :: t in unmet <==> t in Ids(tasks[..i])
      invariant forall t :: t in dependents ==> dependents[t] == []
      invariant forall t :: t in unmet ==> t in g && unmet[t] == |g[t]|
    {
      GraphAt(tasks, i);
      IdsPrefix(tasks, i);
      dependents := dependents[tasks[i].id := []];
      unmet := unmet[tasks[i].id := |tasks[i].dependsOn|];
    }
    assert tasks[..|tasks|] == tasks;
    assert forall t :: t in g ==> DependentsOf(tasks[..0], t) == [];
    hide DependentsOf, GraphOf;
    for i := 0 to |tasks|
      invariant forall t :: t in dependents <==> t in g
      invariant forall t :: t in g ==> dependents[t] == DependentsOf(tasks[..i], t)
    {
      dependents := AddDependents(tasks, i, dependents);
    }
  }

  /** A row of the table after `id` was entered `n` more times. */
  function Entered(row: seq<string>, id: string, n: nat): seq<string> {
    row + Repeat(id, n)
  }

  lemma EnteredNext(row: seq<string>, id: string, n: nat)
    ensures Entered(row, id, 0) == row
    ensures Entered(row, id, n) + [id] == Entered(row, id, n + 1)
  {
    assert Repeat(id, n) + [id] == Repeat(id, n + 1);
  }

  lemma RowComplete(tasks: seq<TaskDefinition>, i: nat, t: string)
    requires i < |tasks|
    ensures DependentsOf(tasks[..i + 1], t)
         == Entered(DependentsOf(tasks[..i], t), tasks[i].id, Count(tasks[i].dependsOn, t))
  {
    assert tasks[..i + 1][..i] == tasks[..i];
  }

  /** The inner loop of the second pass: one task is entered under each dependency it lists. */
  method AddDependents(tasks: seq<TaskDefinition>, i: nat, before: map<string, seq<string>>)
    returns (dependents: map<string, seq<string>>)
    requires Distinct(Ids(tasks)) && Closed(GraphOf(tasks)) && i < |tasks|
    requires forall t :: t in before <==> t in GraphOf(tasks)
    requires forall t :: t in GraphOf(tasks) ==> before[t] == DependentsOf(tasks[..i], t)
    ensures forall t :: t in dependents <==> t in GraphOf(tasks)
    ensures forall t :: t in GraphOf(tasks) ==> dependents[t] == DependentsOf(tasks[..i + 1], t)
  {
    hide Entered, Count, DependentsOf, GraphOf;
    ghost var g := GraphOf(tasks);
    var task := tasks[i];
    GraphAt(tasks, i);
    dependents := before;
    CountEmpty(task.dependsOn);
    forall t | t in g ensures Entered(before[t], task.id, 0) == before[t] { EnteredNext(before[t], task.id, 0); }
    for j := 0 to |task.dependsOn|
      invariant forall t :: t in dependents <==> t in g
      invariant forall t :: t in g ==> dependents[t] == Entered(before[t], task.id, Count(task.dependsOn[..j], t))
    {
      var d := task.dependsOn[j];
      assert d in g;
      forall t | t in g
        ensures Count(task.dependsOn[..j + 1], t) == Count(task.dependsOn[..j], t) + if d == t then 1 else 0
      {
        CountNext(task.dependsOn, j, t);
      }
      EnteredNext(before[d], task.id, Count(task.dependsOn[..j], d));
      dependents := dependents[d := dependents[d] + [task.id]];
    }
    assert task.dependsOn[..|task.dependsOn|] == task.dependsOn;
    forall t | t in g ensures dependents[t] == DependentsOf(tasks[..i + 1], t) { RowComplete(tasks, i, t); }
  }

  lemma CountEmpty(s: seq<string>)
    ensures forall x :: Count(s[..0], x) == 0
  {
  }

  // ---------- counting down ----------

  /** How many entries of `deps` are not done yet. */
  function Unmet(deps: seq<string>, done: seq<string>): nat {
    if deps == [] then 0
    else Unmet(deps[..|deps| - 1], done) + if deps[|deps| - 1] in done then 0 else 1
  }

  lemma {:induction false} UnmetNone(deps: seq<string>)
    ensures Unmet(deps, []) == |deps|
  {
    if deps != [] {
      UnmetNone(deps[..|deps| - 1]);
    }
  }

  lemma {:induction false} UnmetZero(deps: seq<string>, done: seq<string>)
    ensures Unmet(deps, done) == 0 <==> AllIn(deps, done)
  {
    if deps != [] {
      UnmetZero(deps[..|deps| - 1], done);
      assert deps[|deps| - 1] in deps;
    }
  }

  lemma {:induction false} UnmetAfter(deps: seq<string>, done: seq<string>, x: string)
    requires x !in done
    ensures Unmet(deps, done + [x]) == Unmet(deps, done) - Count(deps, x)
  {
    if deps != [] {
      UnmetAfter(deps[..|deps| - 1], done, x);
    }
  }

  // ---------- the order of release ----------

  /** Position `r` holds the last of these dependencies; a task without any is released at -1. */
  ghost predicate ReleasedAt(order: seq<string>, deps: seq<string>, r: int) {
    && -1 <= r < |order|
    && (if r == -1 then deps == [] else order[r] in deps)
    && AllIn(deps, order[..r + 1])
  }

  /** First what is released earlier; of those released together, first what is defined earlier. */
  ghost predicate ReleaseOrder(ids: seq<string>, order: seq<string>, rel: seq<int>) {
    && |rel| == |order|
    && (forall i :: 0 <= i < |order| ==> order[i] in ids)
    && forall i, j :: 0 <= i < j < |order| ==>
         rel[i] < rel[j] || (rel[i] == rel[j] && IndexOf(ids, order[i]) < IndexOf(ids, order[j]))
  }

  ghost predicate ReleasedBy(g: Graph, order: seq<string>, rel: seq<int>) {
    && |rel| == |order|
    && forall i :: 0 <= i < |order| ==> order[i] in g && rel[i] < i && ReleasedAt(order, g[order[i]], rel[i])
  }

  /** First in, first out: every task stands where the last of its dependencies released it. */
  ghost predicate Fifo(g: Graph, ids: seq<string>, order: seq<string>) {
    exists rel :: ReleasedBy(g, order, rel) && ReleaseOrder(ids, order, rel)
  }

  // ---------- the worklist ----------

  ghost predicate Counted(g: Graph, done: seq<string>, gone: seq<string>, unmet: map<string, int>) {
    forall t :: t in g ==> t in unmet && unmet[t] == Unmet(g[t], done) - Count(gone, t)
  }

  /** A task is queued once nothing is left that it waits for. */
  ghost predicate Queued(g: Graph, ready: seq<string>, unmet: map<string, int>) {
    forall t :: t in g ==> t in unmet && (t in ready <==> unmet[t] == 0)
  }

  /** The worklist while the dependents `gone` of the task at `index` have been counted down. */
  ghost predicate Releasing(g: Graph, ids: seq<string>, ready: seq<string>, rel: seq<int>,
                            unmet: map<string, int>, index: nat, gone: seq<string>) {
    && index < |ready|
    && IsOrder(g, ready) && ReleasedBy(g, ready, rel) && ReleaseOrder(ids, ready, rel)
    && Counted(g, ready[..index], gone, unmet) && Queued(g, ready, unmet)
    && forall i :: 0 <= i < |ready| ==> rel[i] < index || (rel[i] == index && ready[i] in gone)
  }

  /** The worklist between two rounds. */
  ghost predicate Between(g: Graph, ids: seq<string>, ready: seq<string>, rel: seq<int>, unmet: map<string, int>, index: nat) {
    && index <= |ready|
    && IsOrder(g, ready) && ReleasedBy(g, ready, rel) && ReleaseOrder(ids, ready, rel)
    && Counted(g, ready[..index], [], unmet) && Queued(g, ready, unmet)
    && forall i :: 0 <= i < |ready| ==> rel[i] < index
  }

  /** The whole table of dependents of one task. */
  ghost predicate AllDependents(g: Graph, ids: seq<string>, x: string, ds: seq<string>) {
    && InDefinitionOrder(ids, ds)
    && forall t :: Count(ds, t) == if t in g then Count(g[t], x) else 0
  }

  lemma AllInMore(deps: seq<string>, order: seq<string>, n: nat)
    requires n <= |order| && AllIn(deps, order[..n])
    ensures AllIn(deps, order)
  {
  }

  lemma OrderGrows(g: Graph, order: seq<string>, t: string)
    requires IsOrder(g, order) && t in g && t !in order && AllIn(g[t], order)
    ensures IsOrder(g, order + [t])
  {
    hide AllIn;
    var longer := order + [t];
    forall i | 0 <= i < |longer|
      ensures longer[i] in g && AllIn(g[longer[i]], longer[..i])
    {
      if i < |order| {
        assert longer[..i] == order[..i];
      } else {
        assert longer[..i] == order;
      }
    }
  }

  lemma ReleasedAtGrows(order: seq<string>, t: string, deps: seq<string>, r: int)
    requires ReleasedAt(order, deps, r)
    ensures ReleasedAt(order + [t], deps, r)
  {
    hide AllIn;
    assert (order + [t])[..r + 1] == order[..r + 1];
  }

  lemma ReleasedByGrows(g: Graph, order: seq<string>, rel: seq<int>, t: string, r: nat)
    requires ReleasedBy(g, order, rel) && t in g && r < |order| && order[r] in g[t] && AllIn(g[t], order[..r + 1])
    ensures ReleasedBy(g, order + [t], rel + [r])
  {
    hide ReleasedAt, AllIn;
    var longer, by' := order + [t], rel + [r];
    forall i | 0 <= i < |longer|
      ensures longer[i] in g && by'[i] < i && ReleasedAt(longer, g[longer[i]], by'[i])
    {
      if i < |order| {
        assert longer[i] == order[i] && by'[i] == rel[i];
        ReleasedAtGrows(order, t, g[order[i]], rel[i]);
      } else {
        NewlyReleased(g, order, t, r);
      }
    }
  }

  lemma NewlyReleased(g: Graph, order: seq<string>, t: string, r: nat)
    requires t in g && r < |order| && order[r] in g[t] && AllIn(g[t], order[..r + 1])
    ensures ReleasedAt(order + [t], g[t], r)
  {
    hide AllIn;
    assert (order + [t])[..r + 1] == order[..r + 1];
  }

  lemma ReleaseOrderGrows(ids: seq<string>, order: seq<string>, rel: seq<int>, t: string, r: int)
    requires ReleaseOrder(ids, order, rel) && t in ids
    requires forall i :: 0 <= i < |order| ==> rel[i] < r || (rel[i] == r && IndexOf(ids, order[i]) < IndexOf(ids, t))
    ensures ReleaseOrder(ids, order + [t], rel + [r])
  {
  }

  /** What is known of a dependent when it is counted down. */
  lemma Waiting(g: Graph, ids: seq<string>, ready: seq<string>, rel: seq<int>, unmet: map<string, int>,
                index: nat, ds: seq<string>, m: nat)
    requires m < |ds| && Releasing(g, ids, ready, rel, unmet, index, ds[..m])
    requires AllDependents(g, ids, ready[index], ds)
    ensures ds[m] in g && ds[m] in unmet && ds[m] in ids && unmet[ds[m]] >= 1 && ds[m] !in ready
    ensures ready[index] in g[ds[m]]
    ensures unmet[ds[m]] == 1 ==> AllIn(g[ds[m]], ready[..index + 1])
  {
    hide AllIn, ReleasedBy, ReleaseOrder, IsOrder;
    var t, x, done := ds[m], ready[index], ready[..index];
    assert t in ds && t in ids;
    CountAbsent(ds, t);
    CountAbsent(g[t], x);
    CountNext(ds, m, t);
    CountPrefix(ds, m + 1, t);
    NotYetDone(g, ready, index);
    UnmetAfter(g[t], done, x);
    assert ready[..index + 1] == done + [x];
    UnmetZero(g[t], ready[..index + 1]);
  }

  lemma NotYetDone(g: Graph, ready: seq<string>, index: nat)
    requires IsOrder(g, ready) && index < |ready|
    ensures ready[index] !in ready[..index]
  {
    hide AllIn;
  }

  /** Those released in this round stand in definition order. */
  lemma RoundKeepsOrder(ids: seq<string>, ready: seq<string>, rel: seq<int>, index: nat, ds: seq<string>, m: nat)
    requires m < |ds| && InDefinitionOrder(ids, ds) && ds[m] !in ready && |rel| == |ready|
    requires forall i :: 0 <= i < |ready| ==> ready[i] in ids
    requires forall i :: 0 <= i < |ready| ==> rel[i] < index || (rel[i] == index && ready[i] in ds[..m])
    ensures forall i :: 0 <= i < |ready| ==>
              rel[i] < index || (rel[i] == index && IndexOf(ids, ready[i]) < IndexOf(ids, ds[m]))
  {
    forall i | 0 <= i < |ready| && rel[i] == index
      ensures IndexOf(ids, ready[i]) < IndexOf(ids, ds[m])
    {
      var a :| 0 <= a < m && ds[..m][a] == ready[i];
      assert ds[a] == ready[i] && IndexOf(ids, ds[a]) <= IndexOf(ids, ds[m]);
    }
  }

  /** A dependent that still waits for something is only counted down. */
  lemma DependentWaits(g: Graph, ids: seq<string>, ready: seq<string>, rel: seq<int>, unmet: map<string, int>,
                       index: nat, ds: seq<string>, m: nat)
    requires m < |ds| && Releasing(g, ids, ready, rel, unmet, index, ds[..m])
    requires AllDependents(g, ids, ready[index], ds)
    requires ds[m] in unmet && unmet[ds[m]] != 1
    ensures Releasing(g, ids, ready, rel, unmet[ds[m] := unmet[ds[m]] - 1], index, ds[..m + 1])
  {
    hide IsOrder, ReleasedBy, ReleaseOrder, Counted;
    Waiting(g, ids, ready, rel, unmet, index, ds, m);
    CountedDown(g, ready[..index], ds, m, unmet);
    forall y | y in ds[..m]
      ensures y in ds[..m + 1]
    {
      SeenStays(ds, m, y);
    }
  }

  lemma SeenStays(ds: seq<string>, m: nat, y: string)
    requires m < |ds| && y in ds[..m]
    ensures y in ds[..m + 1]
  {
    var a :| 0 <= a < m && ds[..m][a] == y;
    assert ds[..m + 1][a] == y;
  }

  /** A dependent that waited for nothing else joins the queue. */
  lemma DependentQueued(g: Graph, ids: seq<string>, ready: seq<string>, rel: seq<int>, unmet: map<string, int>,
                        index: nat, ds: seq<string>, m: nat)
    requires m < |ds| && Releasing(g, ids, ready, rel, unmet, index, ds[..m])
    requires AllDependents(g, ids, ready[index], ds)
    requires ds[m] in unmet && unmet[ds[m]] == 1
    ensures Releasing(g, ids, ready + [ds[m]], rel + [index], unmet[ds[m] := 0], index, ds[..m + 1])
  {
    hide IsOrder, ReleasedBy, Counted, AllIn, InDefinitionOrder;
    var t := ds[m];
    Waiting(g, ids, ready, rel, unmet, index, ds, m);
    AllInMore(g[t], ready, index + 1);
    OrderGrows(g, ready, t);
    ReleasedByGrows(g, ready, rel, t, index);
    RoundKeepsOrder(ids, ready, rel, index, ds, m);
    ReleaseOrderGrows(ids, ready, rel, t, index);
    hide ReleaseOrder;
    CountedDown(g, ready[..index], ds, m, unmet);
    assert (ready + [t])[..index] == ready[..index];
    forall y | y in ds[..m]
      ensures y in ds[..m + 1]
    {
      SeenStays(ds, m, y);
    }
    assert ds[..m + 1][m] == t;
  }

  lemma CountedDown(g: Graph, done: seq<string>, ds: seq<string>, m: nat, unmet: map<string, int>)
    requires m < |ds| && ds[m] in g && Counted(g, done, ds[..m], unmet)
    ensures Counted(g, done, ds[..m + 1], unmet[ds[m] := unmet[ds[m]] - 1])
  {
    forall t | t in g
      ensures Count(ds[..m + 1], t) == Count(ds[..m], t) + if ds[m] == t then 1 else 0
    {
      CountNext(ds, m, t);
    }
  }

  lemma RoundEnds(g: Graph, ids: seq<string>, ready: seq<string>, rel: seq<int>, unmet: map<string, int>, index: nat, ds: seq<string>)
    requires Releasing(g, ids, ready, rel, unmet, index, ds) && AllDependents(g, ids, ready[index], ds)
    ensures Between(g, ids, ready, rel, unmet, index + 1)
  {
    hide AllIn, ReleasedAt;
    var done, x := ready[..index], ready[index];
    assert ready[..index + 1] == done + [x];
    assert x !in done;
    forall t | t in g
      ensures unmet[t] == Unmet(g[t], ready[..index + 1]) - Count([], t)
    {
      UnmetAfter(g[t], done, x);
    }
  }

  lemma {:induction false} RootsAscend(ids: seq<string>, keep: string -> bool)
    requires Distinct(ids)
    ensures forall i, j :: 0 <= i < j < |Filter(keep, ids)| ==>
              IndexOf(ids, Filter(keep, ids)[i]) < IndexOf(ids, Filter(keep, ids)[j])
  {
    if ids != [] {
      var init := ids[..|ids| - 1];
      RootsAscend(init, keep);
      IndexOfDistinct(ids, |init|);
      forall x | x in init
        ensures IndexOf(ids, x) == IndexOf(init, x)
      {
        IndexOfDistinct(ids, IndexOf(init, x));
      }
    }
  }

  /** The queue starts with the tasks that depend on nothing. */
  lemma RootsStart(g: Graph, ids: seq<string>, ready: seq<string>, rel: seq<int>, unmet: map<string, int>, keep: string -> bool)
    requires Distinct(ids) && ready == Filter(keep, ids) && |rel| == |ready|
    requires forall i :: 0 <= i < |rel| ==> rel[i] == -1
    requires forall t :: t in g <==> t in ids
    requires forall t :: t in g ==> t in unmet && unmet[t] == |g[t]| && (keep(t) <==> unmet[t] == 0)
    ensures Between(g, ids, ready, rel, unmet, 0)
  {
    RootsAscend(ids, keep);
    FilterDistinct(keep, ids);
    assert ready[..0] == [];
    forall t | t in g
      ensures unmet[t] == Unmet(g[t], ready[..0]) - Count([], t)
    {
      UnmetNone(g[t]);
    }
    forall i | 0 <= i < |ready|
      ensures ready[i] in g && g[ready[i]] == []
    {
      assert ready[i] in ready;
    }
  }

  lemma QueueFits(g: Graph, ready: seq<string>)
    requires IsOrder(g, ready)
    ensures |ready| <= |g|
  {
    hide AllIn;
    assert |g.Keys| == |g|;
    DistinctFits(ready, g.Keys);
  }

  /** When the queue runs dry, whatever never entered it still waits for something that never did. */
  lemma DryQueueIsStuck(g: Graph, ids: seq<string>, ready: seq<string>, rel: seq<int>, unmet: map<string, int>)
    requires Between(g, ids, ready, rel, unmet, |ready|)
    ensures Stuck(g, ready)
  {
    hide IsOrder, ReleasedBy, ReleaseOrder;
    assert ready[..|ready|] == ready;
    forall t | t in g && t !in ready
      ensures WaitsOn(g, ready, t)
    {
      UnmetZero(g[t], ready);
    }
  }

  /** The worklist loop: every queued task counts down its dependents and queues those that wait no longer. */
  method FifoOrder(tasks: seq<TaskDefinition>, dependents: map<string, seq<string>>, unmet0: map<string, int>)
    returns (order: seq<string>)
    requires Distinct(Ids(tasks)) && Closed(GraphOf(tasks))
    requires forall t :: t in GraphOf(tasks) ==> t in dependents && dependents[t] == DependentsOf(tasks, t)
    requires forall t :: t in GraphOf(tasks) ==> t in unmet0 && unmet0[t] == |GraphOf(tasks)[t]|
    ensures IsOrder(GraphOf(tasks), order)
    ensures Fifo(GraphOf(tasks), Ids(tasks), order)
    ensures Stuck(GraphOf(tasks), order)
  {
    hide Between, IsOrder, Stuck, ReleasedBy, ReleaseOrder, DependentsOf, GraphOf;
    var ids := Ids(tasks);
    ghost var g := GraphOf(tasks);
    var keep := id => id in unmet0 && unmet0[id] == 0;
    var ready := Filter(keep, ids);
    ghost var rel := seq(|ready|, _ => -1);
    RootsStart(g, ids, ready, rel, unmet0, keep);
    var unmet, index := unmet0, 0;
    order := [];
    while index < |ready|
      invariant 0 <= index <= |ready| && order == ready[..index]
      invariant Between(g, ids, ready, rel, unmet, index)
      decreases |g| - index
    {
      BetweenFits(g, ids, ready, rel, unmet, index);
      order := order + [ready[index]];
      ready, rel, unmet := Release(tasks, dependents[ready[index]], ready, rel, unmet, index);
      index := index + 1;
    }
    DryQueueIsStuck(g, ids, ready, rel, unmet);
    BetweenOrders(g, ids, ready, rel, unmet, index);
    assert order == ready;
  }

  lemma BetweenFits(g: Graph, ids: seq<string>, ready: seq<string>, rel: seq<int>, unmet: map<string, int>, index: nat)
    requires Between(g, ids, ready, rel, unmet, index) && index < |ready|
    ensures |ready| <= |g| && ready[index] in g
  {
    QueueFits(g, ready);
  }

  lemma BetweenOrders(g: Graph, ids: seq<string>, ready: seq<string>, rel: seq<int>, unmet: map<string, int>, index: nat)
    requires Between(g, ids, ready, rel, unmet, index)
    ensures IsOrder(g, ready) && Fifo(g, ids, ready)
  {
  }

  /** The inner loop over the dependents of one queued task. */
  method Release(tasks: seq<TaskDefinition>, ds: seq<string>, ready0: seq<string>, ghost rel0: seq<int>,
                 unmet0: map<string, int>, index: nat)
    returns (ready: seq<string>, ghost rel: seq<int>, unmet: map<string, int>)
    requires Distinct(Ids(tasks)) && Closed(GraphOf(tasks)) && index < |ready0|
    requires Between(GraphOf(tasks), Ids(tasks), ready0, rel0, unmet0, index)
    requires ds == DependentsOf(tasks, ready0[index])
    ensures Between(GraphOf(tasks), Ids(tasks), ready, rel, unmet, index + 1)
    ensures ready0 <= ready && index < |ready|
  {
    hide Between, Releasing, IsOrder, Stuck, ReleasedBy, ReleaseOrder, DependentsOf, GraphOf, AllDependents, Distinct, Closed;
    ghost var g, ids := GraphOf(tasks), Ids(tasks);
    ready, rel, unmet := ready0, rel0, unmet0;
    WholeTable(tasks, ready0[index]);
    RoundStarts(g, ids, ready, rel, unmet, index, ds);
    var m := 0;
    while m < |ds|
      invariant 0 <= m <= |ds| && ready0 <= ready && index < |ready| && ready[index] == ready0[index]
      invariant Releasing(g, ids, ready, rel, unmet, index, ds[..m])
    {
      var t := ds[m];
      Waiting(g, ids, ready, rel, unmet, index, ds, m);
      var remaining := unmet[t] - 1;
      if remaining == 0 {
        DependentQueued(g, ids, ready, rel, unmet, index, ds, m);
        ready, rel := ready + [t], rel + [index];
      } else {
        DependentWaits(g, ids, ready, rel, unmet, index, ds, m);
      }
      unmet := unmet[t := remaining];
      m := m + 1;
    }
    assert ds[..m] == ds;
    RoundEnds(g, ids, ready, rel, unmet, index, ds);
  }

  lemma WholeTable(tasks: seq<TaskDefinition>, x: string)
    requires Distinct(Ids(tasks))
    ensures AllDependents(GraphOf(tasks), Ids(tasks), x, DependentsOf(tasks, x))
  {
    DependentsAreOrdered(tasks, x);
    forall t ensures Count(DependentsOf(tasks, x), t) == if t in GraphOf(tasks) then Count(GraphOf(tasks)[t], x) else 0 {
      DependentsCount(tasks, x, t);
    }
  }

  lemma RoundStarts(g: Graph, ids: seq<string>, ready: seq<string>, rel: seq<int>, unmet: map<string, int>, index: nat, ds: seq<string>)
    requires Between(g, ids, ready, rel, unmet, index) && index < |ready|
    ensures Releasing(g, ids, ready, rel, unmet, index, ds[..0])
  {
    hide IsOrder, ReleasedBy, ReleaseOrder;
    assert ds[..0] == [];
  }

  // ---------- the validator ----------

  /** The tasks that no order can include, in definition order. */
  ghost function DoomedIds(tasks: seq<TaskDefinition>): seq<string> {
    Filter(t => Doomed(GraphOf(tasks), t), Ids(tasks))
  }

  /** The first pass keeps the first definition of every id and reports the others. */
  method CollectDefinitions(tasks: seq<TaskDefinition>) returns (errors: seq<DagError>, defs: seq<TaskDefinition>)
    ensures errors == Repetitions(tasks) && defs == FirstDefinitions(tasks)
  {
    errors, defs := [], [];
    for i := 0 to |tasks|
      invariant errors == Repetitions(tasks[..i])
      invariant defs == FirstDefinitions(tasks[..i])
    {
      assert tasks[..i + 1][..i] == tasks[..i];
      FirstDefinitionsKeepIds(tasks[..i]);
      if tasks[i].id in Ids(defs) {
        errors := errors + [DuplicateTaskId(tasks[i].id)];
      } else {
        defs := defs + [tasks[i]];
      }
    }
    assert tasks[..|tasks|] == tasks;
  }

  /** The first two passes: repeated ids, then every definition on its own. */
  method CollectErrors(tasks: seq<TaskDefinition>, known: set<string>) returns (errors: seq<DagError>)
    ensures errors == StaticErrors(tasks, known)
  {
    hide FirstDefinitions, Repetitions, CapabilityFault, DependencyFaults;
    var defs;
    errors, defs := CollectDefinitions(tasks);
    for i := 0 to |defs|
      invariant errors == Repetitions(tasks) + DefinitionFaults(defs[..i], known, Ids(defs))
    {
      assert defs[..i + 1][..i] == defs[..i];
      var faults := DefinitionErrors(defs[i], known, Ids(defs));
      errors := errors + faults;
    }
    assert defs[..|defs|] == defs;
  }

  method DefinitionErrors(t: TaskDefinition, known: set<string>, ids: seq<string>) returns (errors: seq<DagError>)
    ensures errors == CapabilityFault(t, known) + DependencyFaults(t.id, t.dependsOn, ids)
  {
    errors := [];
    if t.requiredCapability !in known {
      errors := errors + [UnknownCapability(t.id, t.requiredCapability)];
    }
    for j := 0 to |t.dependsOn|
      invariant errors == CapabilityFault(t, known) + DependencyFaults(t.id, t.dependsOn[..j], ids)
    {
      var d := t.dependsOn[j];
      assert t.dependsOn[..j + 1][..j] == t.dependsOn[..j];
      if d == t.id {
        errors := errors + [SelfDependency(t.id, d)];
      } else if d !in ids {
        errors := errors + [UnknownDependency(t.id, d)];
      }
    }
    assert t.dependsOn[..|t.dependsOn|] == t.dependsOn;
  }

  lemma WellFormedIsClosed(tasks: seq<TaskDefinition>, known: set<string>)
    requires WellFormed(tasks, known)
    ensures Closed(GraphOf(tasks))
  {
    forall t | t in GraphOf(tasks)
      ensures forall d :: d in GraphOf(tasks)[t] ==> d in GraphOf(tasks)
    {
      var i := IndexOf(Ids(tasks), t);
      GraphAt(tasks, i);
      assert tasks[i] in tasks;
    }
  }

  /**
    * A workflow is accepted exactly when its definitions are well formed and its graph has no cycle. The order then
    * holds every task once, after everything it depends on, in order of release. A rejection names every fault, or
    * else exactly the tasks on a cycle or behind one.
    */
  method ValidateTaskDag(tasks: seq<TaskDefinition>, known: set<string>) returns (result: DagValidation)
    ensures result.Accepted? <==> WellFormed(tasks, known) && Acyclic(GraphOf(tasks))
    ensures result.Accepted? ==>
              && IsOrder(GraphOf(tasks), result.topologicalOrder)
              && (forall t :: t in result.topologicalOrder <==> t in Ids(tasks))
              && Fifo(GraphOf(tasks), Ids(tasks), result.topologicalOrder)
    ensures result.Rejected? && !WellFormed(tasks, known) ==> result.errors == StaticErrors(tasks, known)
    ensures result.Rejected? && WellFormed(tasks, known) ==> result.errors == [CyclicDependency(DoomedIds(tasks))]
  {
    hide GraphOf, IsOrder, Fifo, Stuck, Closed, StaticErrors;
    var errors := CollectErrors(tasks, known);
    NoStaticErrors(tasks, known);
    if |errors| > 0 {
      return Rejected(errors);
    }
    WellFormedIsClosed(tasks, known);
    ghost var g := GraphOf(tasks);
    var dependents, unmet := CountDependencies(tasks);
    var order := FifoOrder(tasks, dependents, unmet);
    GraphSize(tasks);
    CompleteExactlyWhenAcyclic(g, order);
    OrderedTasksExist(g, order);
    if |order| == |tasks| {
      return Accepted(order);
    }
    var cycleTaskIds := Filter(t => t !in order, Ids(tasks));
    FilterAgrees(t => t !in order, t => Doomed(g, t), Ids(tasks));
    result := Rejected([CyclicDependency(cycleTaskIds)]);
  }

  lemma OrderedTasksExist(g: Graph, order: seq<string>)
    requires IsOrder(g, order)
    ensures forall t :: t in order ==> t in g
  {
  }
}
