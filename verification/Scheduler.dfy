/** Readiness of blocked tasks, recomputed from the states of their dependencies. */
module Scheduler {
  import opened Wrappers
  import opened Sequences
  import opened TaskLifecycle

  datatype SchedulingResult = SchedulingResult(
    tasks: seq<AgentTask>,
    readyTaskIds: seq<string>,
    blockedByFailedDependencyTaskIds: seq<string>
  )

  function TaskIds(tasks: seq<AgentTask>): (ids: seq<string>)
    ensures |ids| == |tasks| && forall i :: 0 <= i < |tasks| ==> ids[i] == tasks[i].Id()
  {
    seq(|tasks|, i requires 0 <= i < |tasks| => tasks[i].Id())
  }

  /** Lookup in the table of tasks by id, where a later task replaces an earlier one. */
  function ById(tasks: seq<AgentTask>, id: string): Option<AgentTask> {
    if tasks == [] then None
    else if tasks[|tasks| - 1].Id() == id then Some(tasks[|tasks| - 1])
    else ById(tasks[..|tasks| - 1], id)
  }

  predicate HasStatus(tasks: seq<AgentTask>, id: string, status: TaskStatus) {
    ById(tasks, id).Some? && ById(tasks, id).value.status == status
  }

  predicate DependencyFailed(tasks: seq<AgentTask>, task: AgentTask) {
    exists d :: d in task.definition.dependsOn && (HasStatus(tasks, d, Failed) || HasStatus(tasks, d, Unassigned))
  }

  predicate DependenciesCompleted(tasks: seq<AgentTask>, task: AgentTask) {
    forall d :: d in task.definition.dependsOn ==> HasStatus(tasks, d, Completed)
  }

  function Rescheduled(tasks: seq<AgentTask>, task: AgentTask): AgentTask {
    if task.status != Blocked then task
    else if DependencyFailed(tasks, task) then task
    else if !DependenciesCompleted(tasks, task) then task
    else Moved(task, Ready)
  }

  function RescheduledAll(tasks: seq<AgentTask>): (r: seq<AgentTask>)
    ensures |r| == |tasks| && forall i :: 0 <= i < |tasks| ==> r[i] == Rescheduled(tasks, tasks[i])
  {
    seq(|tasks|, i requires 0 <= i < |tasks| => Rescheduled(tasks, tasks[i]))
  }

  function ReadyTasks(tasks: seq<AgentTask>): seq<AgentTask> {
    Filter((t: AgentTask) => t.status == Ready, tasks)
  }

  function ScheduleReadyTasks(tasks: seq<AgentTask>): SchedulingResult {
    var scheduled := RescheduledAll(tasks);
    SchedulingResult(
      scheduled,
      TaskIds(ReadyTasks(scheduled)),
      TaskIds(Filter((t: AgentTask) => t.status == Blocked && DependencyFailed(tasks, t), tasks)))
  }

  lemma {:induction false} ByIdAt(tasks: seq<AgentTask>, i: nat)
    requires Distinct(TaskIds(tasks)) && i < |tasks|
    ensures ById(tasks, tasks[i].Id()) == Some(tasks[i])
  {
    var init, ids := tasks[..|tasks| - 1], TaskIds(tasks);
    if i < |init| {
      assert ids[i] != ids[|init|];
      TaskIdsPrefix(tasks);
      ByIdAt(init, i);
    }
  }

  lemma TaskIdsPrefix(tasks: seq<AgentTask>)
    requires tasks != []
    ensures TaskIds(tasks) == TaskIds(tasks[..|tasks| - 1]) + [tasks[|tasks| - 1].Id()]
    ensures Distinct(TaskIds(tasks)) ==> Distinct(TaskIds(tasks[..|tasks| - 1]))
  {
    var init := tasks[..|tasks| - 1];
    assert forall k :: 0 <= k < |init| ==> TaskIds(init)[k] == TaskIds(tasks)[k];
  }

  lemma {:induction false} ByIdFound(tasks: seq<AgentTask>, id: string)
    ensures ById(tasks, id).Some? <==> id in TaskIds(tasks)
    ensures ById(tasks, id).Some? ==> exists i :: 0 <= i < |tasks| && tasks[i].Id() == id && ById(tasks, id) == Some(tasks[i])
  {
    if tasks != [] {
      var init := tasks[..|tasks| - 1];
      TaskIdsPrefix(tasks);
      ByIdFound(init, id);
      if tasks[|init|].Id() != id && ById(init, id).Some? {
        var i :| 0 <= i < |init| && init[i].Id() == id && ById(init, id) == Some(init[i]);
        assert tasks[i] == init[i];
      }
    }
  }

  /** Rescheduling changes no status but that of blocked tasks, and twice is as good as once. */
  lemma ReschedulingIsStable(tasks: seq<AgentTask>)
    requires Distinct(TaskIds(tasks))
    ensures forall d, s :: s != Blocked && s != Ready ==> (HasStatus(RescheduledAll(tasks), d, s) <==> HasStatus(tasks, d, s))
    ensures RescheduledAll(RescheduledAll(tasks)) == RescheduledAll(tasks)
  {
    var after := RescheduledAll(tasks);
    assert TaskIds(after) == TaskIds(tasks);
    forall d, s | s != Blocked && s != Ready
      ensures HasStatus(after, d, s) <==> HasStatus(tasks, d, s)
    {
      LookupAgrees(tasks, after, d);
    }
    forall i | 0 <= i < |tasks|
      ensures Rescheduled(after, after[i]) == after[i]
    {
      assert DependencyFailed(after, tasks[i]) <==> DependencyFailed(tasks, tasks[i]);
      assert DependenciesCompleted(after, tasks[i]) <==> DependenciesCompleted(tasks, tasks[i]);
    }
  }

  /** The same ids in the same places: a lookup finds the same place in both. */
  lemma LookupAgrees(a: seq<AgentTask>, b: seq<AgentTask>, d: string)
    requires TaskIds(a) == TaskIds(b) && Distinct(TaskIds(a))
    ensures ById(a, d).Some? <==> ById(b, d).Some?
    ensures ById(a, d).Some? ==> exists i :: 0 <= i < |a| == |b| && ById(a, d) == Some(a[i]) && ById(b, d) == Some(b[i]) && a[i].Id() == d
  {
    ByIdFound(a, d);
    ByIdFound(b, d);
    if ById(a, d).Some? {
      var i := IndexOf(TaskIds(a), d);
      ByIdAt(a, i);
      ByIdAt(b, i);
      assert a[i].Id() == d && b[i].Id() == TaskIds(b)[i] == d;
    }
  }

  /** The reported ids are exactly those of the ready tasks, and of the blocked tasks behind a failure. */
  lemma ReportsAreExact(tasks: seq<AgentTask>, id: string)
    ensures var result := ScheduleReadyTasks(tasks);
      && (id in result.readyTaskIds <==> exists t :: t in result.tasks && t.status == Ready && t.Id() == id)
      && (id in result.blockedByFailedDependencyTaskIds <==>
           exists t :: t in tasks && t.status == Blocked && DependencyFailed(tasks, t) && t.Id() == id)
  {
    hide Rescheduled, DependencyFailed;
    var result := ScheduleReadyTasks(tasks);
    IdOfSome(ReadyTasks(result.tasks), id);
    IdOfSome(Filter((t: AgentTask) => t.status == Blocked && DependencyFailed(tasks, t), tasks), id);
  }

  lemma IdOfSome(tasks: seq<AgentTask>, id: string)
    ensures id in TaskIds(tasks) <==> exists t :: t in tasks && t.Id() == id
  {
    if id in TaskIds(tasks) {
      var i :| 0 <= i < |tasks| && TaskIds(tasks)[i] == id;
      assert tasks[i] in tasks && tasks[i].Id() == id;
    }
    if t :| t in tasks && t.Id() == id {
      var i :| 0 <= i < |tasks| && tasks[i] == t;
      assert TaskIds(tasks)[i] == id;
    }
  }
}
