/** Tasks of a running session and the transitions their status may make. */
module TaskLifecycle {
  import opened Wrappers
  import opened TaskDefinitions

  datatype TaskStatus = Blocked | Ready | Running | ApprovalRequired | Completed | Failed | Skipped | Unassigned

  datatype AgentTask = AgentTask(
    definition: TaskDefinition,
    status: TaskStatus,
    assignedAgentId: Option<string>,
    attempt: nat
  ) {
    function Id(): string {
      definition.id
    }
  }

  datatype TransitionErrorCode = InvalidTaskStateTransition | MaxAttemptsExhausted

  datatype TransitionError = TransitionError(code: TransitionErrorCode, from: TaskStatus, to: TaskStatus)

  function AllowedTransitions(from: TaskStatus): set<TaskStatus> {
    match from
    case Blocked => {Ready}
    case Ready => {Running, Unassigned}
    case Running => {Ready, ApprovalRequired, Completed, Failed}
    case ApprovalRequired => {Running, Completed, Failed}
    case Completed => {}
    case Failed => {}
    case Skipped => {}
    case Unassigned => {Ready, Failed}
  }

  predicate CanTransition(from: TaskStatus, to: TaskStatus) {
    to in AllowedTransitions(from)
  }

  /** An attempt starts only when a ready task moves to running, and only while attempts are left. */
  function TransitionTask(task: AgentTask, next: TaskStatus): Result<AgentTask, TransitionError> {
    if !CanTransition(task.status, next) then
      Failure(TransitionError(InvalidTaskStateTransition, task.status, next))
    else if task.status == Ready && next == Running && task.attempt >= task.definition.maxAttempts then
      Failure(TransitionError(MaxAttemptsExhausted, task.status, next))
    else
      Success(task.(status := next, attempt := if task.status == Ready && next == Running then task.attempt + 1 else task.attempt))
  }

  /** The moves that are allowed, and what is refused for which reason. */
  lemma TransitionsExactly(task: AgentTask, next: TaskStatus)
    ensures var from, r := task.status, TransitionTask(task, next);
      var allowed :=
        || (from == Blocked && next == Ready)
        || (from == Ready && next in {Running, Unassigned})
        || (from == Running && next in {Ready, ApprovalRequired, Completed, Failed})
        || (from == ApprovalRequired && next in {Running, Completed, Failed})
        || (from == Unassigned && next in {Ready, Failed});
      var begins := from == Ready && next == Running;
      && (r == Failure(TransitionError(InvalidTaskStateTransition, from, next)) <==> !allowed)
      && (r == Failure(TransitionError(MaxAttemptsExhausted, from, next)) <==> begins && task.attempt >= task.definition.maxAttempts)
      && (r.Success? ==> r.value == task.(status := next, attempt := if begins then task.attempt + 1 else task.attempt))
      && (r.Success? <==> allowed && !(begins && task.attempt >= task.definition.maxAttempts))
  {
  }

  /** The task after a transition was requested, unchanged where it is refused. */
  function Moved(task: AgentTask, next: TaskStatus): AgentTask {
    match TransitionTask(task, next)
    case Success(moved) => moved
    case Failure(_) => task
  }

  function MovedThrough(task: AgentTask, requests: seq<TaskStatus>): AgentTask {
    if requests == [] then task
    else Moved(MovedThrough(task, requests[..|requests| - 1]), requests[|requests| - 1])
  }

  /** How many of the requests started an attempt. */
  function Starts(task: AgentTask, requests: seq<TaskStatus>): nat {
    if requests == [] then 0
    else
      var init, next := requests[..|requests| - 1], requests[|requests| - 1];
      var before := MovedThrough(task, init);
      Starts(task, init) + if before.status == Ready && Moved(before, next).status == Running then 1 else 0
  }

  /**
    * Whatever is requested: a final task stays as it is, the attempt counter counts the starts, and no attempt starts
    * beyond the limit.
    */
  lemma {:induction false} RequestsAreBounded(task: AgentTask, requests: seq<TaskStatus>)
    ensures var after := MovedThrough(task, requests);
      && after.definition == task.definition
      && (task.status == Completed || task.status == Failed || task.status == Skipped ==> after == task)
      && after.attempt == task.attempt + Starts(task, requests)
      && (after.attempt == task.attempt || after.attempt <= task.definition.maxAttempts)
  {
    if requests != [] {
      RequestsAreBounded(task, requests[..|requests| - 1]);
    }
  }
}
