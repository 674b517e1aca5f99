/** Workflow definitions, the dependency graph they declare, and the faults of single definitions. */
module TaskDefinitions {
  import opened Sequences
  import opened TaskGraph

  datatype TaskDefinition = TaskDefinition(
    id: string,
    requiredCapability: string,
    requiredPermissions: seq<string>,
    dependsOn: seq<string>,
    maxAttempts: int
  )

  datatype DagError =
    | DuplicateTaskId(taskId: string)
    | UnknownCapability(taskId: string, capability: string)
    | SelfDependency(taskId: string, dependencyId: string)
    | UnknownDependency(taskId: string, dependencyId: string)
    | CyclicDependency(cycleTaskIds: seq<string>)

  function Ids(tasks: seq<TaskDefinition>): (ids: seq<string>)
    ensures |ids| == |tasks| && forall i :: 0 <= i < |tasks| ==> ids[i] == tasks[i].id
  {
    seq(|tasks|, i requires 0 <= i < |tasks| => tasks[i].id)
  }

  lemma IdsPrefix(tasks: seq<TaskDefinition>, i: nat)
    requires i <= |tasks|
    ensures Ids(tasks[..i]) == Ids(tasks)[..i]
    ensures i < |tasks| ==> Ids(tasks[..i + 1]) == Ids(tasks[..i]) + [tasks[i].id]
  {
  }

  /** The dependency graph; a later definition of an id would replace an earlier one. */
  function GraphOf(tasks: seq<TaskDefinition>): (g: Graph)
    ensures forall t :: t in g <==> t in Ids(tasks)
  {
    if tasks == [] then map[]
    else
      var last := tasks[|tasks| - 1];
      assert Ids(tasks) == Ids(tasks[..|tasks| - 1]) + [last.id];
      GraphOf(tasks[..|tasks| - 1])[last.id := last.dependsOn]
  }

  lemma {:induction false} GraphAt(tasks: seq<TaskDefinition>, i: nat)
    requires Distinct(Ids(tasks)) && i < |tasks|
    ensures tasks[i].id in GraphOf(tasks) && GraphOf(tasks)[tasks[i].id] == tasks[i].dependsOn
  {
    var init := tasks[..|tasks| - 1];
    assert Ids(tasks)[i] == tasks[i].id;
    if i < |init| {
      IdsPrefix(tasks, |init|);
      GraphAt(init, i);
      assert Ids(tasks)[|tasks| - 1] == tasks[|tasks| - 1].id;
    }
  }

  lemma {:induction false} GraphSize(tasks: seq<TaskDefinition>)
    requires Distinct(Ids(tasks))
    ensures |GraphOf(tasks)| == |tasks|
  {
    var g := GraphOf(tasks);
    DistinctSize(Ids(tasks));
    assert g.Keys == Elements(Ids(tasks));
    assert |g.Keys| == |g|;
  }

  // ---------- the checks of single definitions ----------

  /** What the first two loops look for: a repeated id, an unknown capability, a wrong dependency. */
  ghost predicate WellFormed(tasks: seq<TaskDefinition>, known: set<string>) {
    && Distinct(Ids(tasks))
    && forall t :: t in tasks ==>
         && t.requiredCapability in known
         && forall d :: d in t.dependsOn ==> d != t.id && d in Ids(tasks)
  }

  /** The definitions kept by id: the first of each. */
  function FirstDefinitions(tasks: seq<TaskDefinition>): seq<TaskDefinition> {
    if tasks == [] then []
    else
      var init, last := tasks[..|tasks| - 1], tasks[|tasks| - 1];
      if last.id in Ids(init) then FirstDefinitions(init) else FirstDefinitions(init) + [last]
  }

  function Repetitions(tasks: seq<TaskDefinition>): seq<DagError> {
    if tasks == [] then []
    else
      var init, last := tasks[..|tasks| - 1], tasks[|tasks| - 1];
      Repetitions(init) + if last.id in Ids(init) then [DuplicateTaskId(last.id)] else []
  }

  /** An id that is defined n times is reported n - 1 times. */
  lemma {:induction false} RepetitionsAreCounted(tasks: seq<TaskDefinition>, id: string)
    ensures Count(Repetitions(tasks), DuplicateTaskId(id))
         == if Count(Ids(tasks), id) > 0 then Count(Ids(tasks), id) - 1 else 0
    ensures id in Ids(tasks) <==> Count(Ids(tasks), id) > 0
  {
    if tasks != [] {
      var init, last := tasks[..|tasks| - 1], tasks[|tasks| - 1];
      IdsPrefix(tasks, |init|);
      assert Ids(tasks) == Ids(init) + [last.id] && Ids(tasks)[..|init|] == Ids(init);
      RepetitionsAreCounted(init, id);
      var added := if last.id in Ids(init) then [DuplicateTaskId(last.id)] else [];
      CountAppend(Repetitions(init), added, DuplicateTaskId(id));
      CountOne(added, DuplicateTaskId(id));
      RepetitionsAreCounted(init, last.id);
    }
  }

  lemma CountOne(errors: seq<DagError>, e: DagError)
    requires |errors| <= 1
    ensures Count(errors, e) == if errors == [e] then 1 else 0
  {
    if errors != [] { assert errors[..0] == []; }
  }

  function DependencyFaults(id: string, deps: seq<string>, ids: seq<string>): seq<DagError> {
    if deps == [] then []
    else
      var d := deps[|deps| - 1];
      DependencyFaults(id, deps[..|deps| - 1], ids)
      + if d == id then [SelfDependency(id, d)]
        else if d !in ids then [UnknownDependency(id, d)]
        else []
  }

  function CapabilityFault(t: TaskDefinition, known: set<string>): seq<DagError> {
    if t.requiredCapability in known then [] else [UnknownCapability(t.id, t.requiredCapability)]
  }

  function DefinitionFaults(defs: seq<TaskDefinition>, known: set<string>, ids: seq<string>): seq<DagError> {
    if defs == [] then []
    else
      var t := defs[|defs| - 1];
      DefinitionFaults(defs[..|defs| - 1], known, ids)
      + CapabilityFault(t, known)
      + DependencyFaults(t.id, t.dependsOn, ids)
  }

  function StaticErrors(tasks: seq<TaskDefinition>, known: set<string>): seq<DagError> {
    Repetitions(tasks) + DefinitionFaults(FirstDefinitions(tasks), known, Ids(FirstDefinitions(tasks)))
  }

  /** An error is reported for exactly these facts about the definitions. */
  ghost predicate Fault(tasks: seq<TaskDefinition>, known: set<string>, e: DagError) {
    match e
    case DuplicateTaskId(x) => exists i, j :: 0 <= i < j < |tasks| && tasks[i].id == x && tasks[j].id == x
    case UnknownCapability(x, c) => c !in known && exists t :: IsFirstDefinition(tasks, t) && t.id == x && t.requiredCapability == c
    case SelfDependency(x, d) => d == x && exists t :: IsFirstDefinition(tasks, t) && t.id == x && d in t.dependsOn
    case UnknownDependency(x, d) => d != x && d !in Ids(tasks) && exists t :: IsFirstDefinition(tasks, t) && t.id == x && d in t.dependsOn
    case CyclicDependency(_) => false
  }

  ghost predicate IsFirst(tasks: seq<TaskDefinition>, i: int, x: string) {
    0 <= i < |tasks| && tasks[i].id == x && x !in Ids(tasks[..i])
  }

  /** The definition an id stands for. */
  ghost predicate IsFirstDefinition(tasks: seq<TaskDefinition>, t: TaskDefinition) {
    exists i :: IsFirst(tasks, i, t.id) && tasks[i] == t
  }

  lemma {:induction false} FirstDefinitionsAreFirst(tasks: seq<TaskDefinition>, t: TaskDefinition)
    ensures t in FirstDefinitions(tasks) <==> IsFirstDefinition(tasks, t)
  {
    if tasks != [] {
      var init, last := tasks[..|tasks| - 1], tasks[|tasks| - 1];
      FirstDefinitionsAreFirst(init, t);
      forall i | 0 <= i < |init|
        ensures IsFirst(tasks, i, t.id) <==> IsFirst(init, i, t.id)
      {
        assert tasks[..i] == init[..i];
      }
      assert IsFirst(tasks, |init|, t.id) <==> last.id == t.id && last.id !in Ids(init);
    }
  }

  lemma {:induction false} FirstDefinitionsKeepIds(tasks: seq<TaskDefinition>)
    ensures forall x :: x in Ids(FirstDefinitions(tasks)) <==> x in Ids(tasks)
  {
    if tasks != [] {
      var init, last := tasks[..|tasks| - 1], tasks[|tasks| - 1];
      FirstDefinitionsKeepIds(init);
      IdsPrefix(tasks, |init|);
      assert tasks[..|tasks|] == tasks;
      assert Ids(FirstDefinitions(init) + [last]) == Ids(FirstDefinitions(init)) + [last.id];
    }
  }

  lemma {:induction false} RepetitionsAreFaults(tasks: seq<TaskDefinition>, e: DagError)
    ensures e in Repetitions(tasks) <==> e.DuplicateTaskId? && Fault(tasks, {}, e)
  {
    if tasks != [] {
      var init, last := tasks[..|tasks| - 1], tasks[|tasks| - 1];
      RepetitionsAreFaults(init, e);
      if last.id in Ids(init) {
        var i :| 0 <= i < |init| && Ids(init)[i] == last.id;
        assert tasks[i].id == last.id && tasks[|init|].id == last.id;
      }
      if e.DuplicateTaskId? && Fault(init, {}, e) {
        var i, j :| 0 <= i < j < |init| && init[i].id == e.taskId && init[j].id == e.taskId;
        assert tasks[i].id == e.taskId && tasks[j].id == e.taskId;
      }
      if e.DuplicateTaskId? && Fault(tasks, {}, e) {
        var i, j :| 0 <= i < j < |tasks| && tasks[i].id == e.taskId && tasks[j].id == e.taskId;
        assert Ids(init)[i] == e.taskId;
        if j < |init| {
          assert init[i].id == e.taskId && init[j].id == e.taskId;
        }
      }
    }
  }

  lemma {:induction false} DependencyFaultsAre(id: string, deps: seq<string>, ids: seq<string>, e: DagError)
    ensures e in DependencyFaults(id, deps, ids) <==>
            || (e.SelfDependency? && e.taskId == id && e.dependencyId == id && id in deps)
            || (e.UnknownDependency? && e.taskId == id && e.dependencyId != id && e.dependencyId in deps && e.dependencyId !in ids)
  {
    if deps != [] {
      DependencyFaultsAre(id, deps[..|deps| - 1], ids, e);
    }
  }

  ghost predicate DefinitionFault(t: TaskDefinition, known: set<string>, ids: seq<string>, e: DagError) {
    e in CapabilityFault(t, known) || e in DependencyFaults(t.id, t.dependsOn, ids)
  }

  lemma {:induction false} DefinitionFaultsAre(defs: seq<TaskDefinition>, known: set<string>, ids: seq<string>, e: DagError)
    ensures e in DefinitionFaults(defs, known, ids) <==> exists t :: t in defs && DefinitionFault(t, known, ids, e)
  {
    if defs != [] {
      DefinitionFaultsAre(defs[..|defs| - 1], known, ids, e);
      assert DefinitionFault(defs[|defs| - 1], known, ids, e) ==> e in DefinitionFaults(defs, known, ids);
    }
  }

  /** The error list names every fault of the definitions and nothing else. */
  lemma StaticErrorsAreFaults(tasks: seq<TaskDefinition>, known: set<string>, e: DagError)
    ensures e in StaticErrors(tasks, known) <==> Fault(tasks, known, e)
  {
    hide IsFirstDefinition, FirstDefinitions;
    var defs := FirstDefinitions(tasks);
    FirstDefinitionsKeepIds(tasks);
    RepetitionsAreFaults(tasks, e);
    DefinitionFaultsAre(defs, known, Ids(defs), e);
    forall t | t in defs
      ensures DefinitionFault(t, known, Ids(defs), e) <==>
              match e
              case UnknownCapability(x, c) => x == t.id && c == t.requiredCapability && c !in known
              case SelfDependency(x, d) => x == t.id && d == x && d in t.dependsOn
              case UnknownDependency(x, d) => x == t.id && d != x && d in t.dependsOn && d !in Ids(tasks)
              case _ => false
    {
      DependencyFaultsAre(t.id, t.dependsOn, Ids(defs), e);
    }
    forall t
      ensures t in defs <==> IsFirstDefinition(tasks, t)
    {
      FirstDefinitionsAreFirst(tasks, t);
    }
  }

  lemma NoStaticErrors(tasks: seq<TaskDefinition>, known: set<string>)
    ensures StaticErrors(tasks, known) == [] <==> WellFormed(tasks, known)
    ensures WellFormed(tasks, known) ==> FirstDefinitions(tasks) == tasks
  {
    forall e ensures e in StaticErrors(tasks, known) <==> Fault(tasks, known, e) {
      StaticErrorsAreFaults(tasks, known, e);
    }
    if StaticErrors(tasks, known) == [] {
      NoFaults(tasks, known);
    } else if WellFormed(tasks, known) {
      assert Fault(tasks, known, StaticErrors(tasks, known)[0]);
      NotWellFormed(tasks, known, StaticErrors(tasks, known)[0]);
    }
    if WellFormed(tasks, known) {
      AllDefinitionsKept(tasks);
    }
  }

  lemma {:induction false} AllDefinitionsKept(tasks: seq<TaskDefinition>)
    requires Distinct(Ids(tasks))
    ensures FirstDefinitions(tasks) == tasks
  {
    if tasks != [] {
      var init := tasks[..|tasks| - 1];
      assert Ids(tasks) == Ids(init) + [tasks[|tasks| - 1].id];
      AllDefinitionsKept(init);
    }
  }

  lemma NoFaults(tasks: seq<TaskDefinition>, known: set<string>)
    requires forall e :: !Fault(tasks, known, e)
    ensures WellFormed(tasks, known)
  {
    forall i, j | 0 <= i < j < |tasks|
      ensures Ids(tasks)[i] != Ids(tasks)[j]
    {
      assert !Fault(tasks, known, DuplicateTaskId(tasks[i].id));
    }
    forall t | t in tasks
      ensures t.requiredCapability in known
      ensures forall d :: d in t.dependsOn ==> d != t.id && d in Ids(tasks)
    {
      var i :| 0 <= i < |tasks| && tasks[i] == t;
      IdsPrefix(tasks, i);
      assert IsFirst(tasks, i, t.id) && IsFirstDefinition(tasks, t);
      assert !Fault(tasks, known, UnknownCapability(t.id, t.requiredCapability));
      forall d | d in t.dependsOn
        ensures d != t.id && d in Ids(tasks)
      {
        assert !Fault(tasks, known, SelfDependency(t.id, d));
        assert !Fault(tasks, known, UnknownDependency(t.id, d));
      }
    }
  }

  lemma NotWellFormed(tasks: seq<TaskDefinition>, known: set<string>, e: DagError)
    requires Fault(tasks, known, e)
    ensures !WellFormed(tasks, known)
  {
    match e
    case DuplicateTaskId(x) =>
      var i, j :| 0 <= i < j < |tasks| && tasks[i].id == x && tasks[j].id == x;
      assert Ids(tasks)[i] == Ids(tasks)[j];
    case _ =>
  }
}
