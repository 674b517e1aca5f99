/**
  * One session's evidence as a step machine: grants, protected reads, attempts of tasks and queued saves interleave at
  * every point where the original awaits, next to whatever other sessions do to the same services.
  */
module Provenance {
  import opened Wrappers
  import opened Sequences
  import opened JsonText
  import opened TaskGraph
  import opened TaskLifecycle
  import opened CapabilityRouter
  import opened AccessGrants
  import opened ToolPolicy
  import opened EvidenceAcceptance
  import opened RelayStore
  import Gate = ResourceGateway

  // ---------- state ----------

  /** A read whose grant has been fetched, as it was then, and is not evaluated yet. */
  datatype Lookup = Lookup(grantId: string, grant: AccessGrant, resource: Text)

  /** A read the policy allowed, at a time, under a grant. */
  datatype Read = Read(grant: AccessGrant, resource: Text, at: int)

  datatype Gateway = Gateway(
    grants: GrantTable,
    refs: Gate.Provenance,
    looking: seq<Lookup>,     // the grant fetched, not yet evaluated
    reading: seq<Read>,       // allowed, the file not yet read
    issued: seq<AccessGrant>, // history: every grant ever issued
    history: seq<Read>        // history: every read that returned
  )

  type Shelf = seq<Item<EvidenceId, EvidenceRecord>>

  /** What an agent reports: a claim and the sources it names for it. */
  datatype AgentEvidence = AgentEvidence(claim: Text, sourceRefs: seq<Text>)

  /** How far the attempt of a task has come. */
  datatype Phase =
    | Granted(task: AgentTask, grantId: string)
    | Invoked(task: AgentTask, grantId: string)
    | Returned(task: AgentTask, evidence: seq<AgentEvidence>)
    | Collected(task: AgentTask, evidence: seq<AgentEvidence>, inherited: set<Text>)
    | Saving

  /** The evidence that was passed to the executor for one attempt. */
  datatype Context = Context(taskId: string, evidence: seq<EvidenceRecord>)

  datatype Session = Session(
    work: map<string, Phase>,
    completed: set<string>,
    passed: seq<Context>,
    alive: bool
  )

  datatype State = State(gateway: Gateway, shelf: Shelf, queue: seq<EvidenceRecord>, session: Session)

  /** The session under consideration and the dependencies among its tasks. */
  datatype Workflow = Workflow(sessionId: string, graph: Graph)

  // ---------- evidence of dependencies ----------

  function Values<K, T>(items: seq<Item<K, T>>): (r: seq<T>)
    ensures |r| == |items| && forall i :: 0 <= i < |r| ==> r[i] == items[i].value
  {
    seq(|items|, i requires 0 <= i < |items| => items[i].value)
  }

  function Usable(w: Workflow): Item<EvidenceId, EvidenceRecord> -> bool {
    (item: Item<EvidenceId, EvidenceRecord>) => item.value.sessionId == w.sessionId && item.value.status == Accepted
  }

  function OfTasks(tasks: seq<string>): Item<EvidenceId, EvidenceRecord> -> bool {
    (item: Item<EvidenceId, EvidenceRecord>) => item.value.taskId in tasks
  }

  function OfSession(w: Workflow): Item<EvidenceId, EvidenceRecord> -> bool {
    (item: Item<EvidenceId, EvidenceRecord>) => item.value.sessionId == w.sessionId
  }

  function IsAccepted(): Item<EvidenceId, EvidenceRecord> -> bool {
    (item: Item<EvidenceId, EvidenceRecord>) => item.value.status == Accepted
  }

  /** What the coordinator passes on: the accepted evidence of the dependencies, of this session. */
  function DependencyEvidence(w: Workflow, shelf: Shelf, t: string): seq<EvidenceRecord>
    requires t in w.graph
  {
    Values(Filter(Usable(w), Filter(OfTasks(w.graph[t]), shelf)))
  }

  /** What the dashboard shows as included in the task's context. */
  function CapsuleEvidence(w: Workflow, shelf: Shelf, t: string): seq<EvidenceRecord>
    requires t in w.graph
  {
    Values(Filter(IsAccepted(), Filter(OfTasks(w.graph[t]), Filter(OfSession(w), shelf))))
  }

  function SourcesOf(records: seq<EvidenceRecord>): set<Text> {
    set i, j | 0 <= i < |records| && 0 <= j < |records[i].sourceRefs| :: records[i].sourceRefs[j]
  }

  /** The records of one attempt, each accepted or rejected on its own. */
  function Assessed(w: Workflow, task: AgentTask, agentId: string, evidence: seq<AgentEvidence>, authorized: set<Text>)
    : (r: seq<EvidenceRecord>)
    ensures |r| == |evidence|
    ensures forall i :: 0 <= i < |r| ==> r[i] == AssessedOne(w, task, agentId, evidence[i], i, authorized)
  {
    seq(|evidence|, i requires 0 <= i < |evidence| => AssessedOne(w, task, agentId, evidence[i], i, authorized))
  }

  function AssessedOne(w: Workflow, task: AgentTask, agentId: string, item: AgentEvidence, i: nat, authorized: set<Text>)
    : EvidenceRecord
  {
    var provisional := EvidenceRecord(Numbered(w.sessionId, task.Id(), i + 1), w.sessionId, task.Id(), agentId,
                                      Provisional, item.claim, item.sourceRefs);
    ApplyEvidenceAcceptance(provisional, w.sessionId, task, authorized)
  }

  function AgentOf(task: AgentTask): string {
    match task.assignedAgentId case Some(agentId) => agentId case None => ""
  }

  // ---------- gateway steps ----------

  function IssuedIds(issued: seq<AccessGrant>): set<string> {
    set k | 0 <= k < |issued| :: issued[k].id
  }

  /** Tokens are random: one that was ever issued is not issued again. */
  function WithGrant(g: Gateway, grant: AccessGrant): Gateway {
    if grant.id in IssuedIds(g.issued) || grant.status != Active then g
    else g.(grants := AfterIssue(g.grants, grant), issued := g.issued + [grant])
  }

  /** A read begins by fetching a copy of its grant; one that names no grant is denied for good. */
  function LookUp(g: Gateway, grantId: string, resource: Text): Gateway {
    if grantId !in g.grants then g
    else g.(looking := g.looking + [Lookup(grantId, g.grants[grantId], resource)])
  }

  /** The copy is evaluated, whatever has become of the grant meanwhile. */
  function Decide(g: Gateway, k: nat, now: int): Gateway {
    if k >= |g.looking| then g
    else
      var Lookup(grantId, grant, resource) := g.looking[k];
      g.(looking := g.looking[..k] + g.looking[k + 1..],
         reading := if Evaluate(Some(grant), Gate.ReadRequest(grantId, resource), now) == Allow
                    then g.reading + [Read(grant, resource, now)] else g.reading)
  }

  function FinishRead(g: Gateway, k: nat, found: bool): Gateway {
    if k >= |g.reading| then g
    else
      var read := g.reading[k];
      g.(reading := g.reading[..k] + g.reading[k + 1..],
         refs := if found then Gate.Recorded(g.refs, Gate.HolderOf(read.grant), Gate.SourceRef(read.resource)) else g.refs,
         history := if found then g.history + [read] else g.history)
  }

  // ---------- steps ----------

  datatype Event =
    | Begin(task: AgentTask, agent: AgentManifest, token: string, now: int)
    | Invoke(t: string)
    | Spoof(t: string, producer: string, claim: Text, refs: seq<Text>)
    | Return(t: string, evidence: seq<AgentEvidence>)
    | Collect(t: string)
    | Submit(t: string)
    | Finish(t: string)
    | Abandon(t: string)
    | StoreSaves
    | StoreFails
    | SaveElsewhere(record: EvidenceRecord)
    | GrantElsewhere(grant: AccessGrant)
    | RevokeAny(id: string)
    | BeginRead(grantId: string, resource: Text)
    | DecideRead(k: nat, now: int)
    | EndRead(k: nat, found: bool)
    | Crash

  predicate Idle(s: Session, t: string) {
    s.alive && t !in s.work && t !in s.completed
  }

  /** An attempt starts, once all dependencies are completed, with a grant for the assigned agent. */
  predicate CanBegin(w: Workflow, s: State, task: AgentTask, agent: AgentManifest, token: string) {
    && task.Id() in w.graph && Idle(s.session, task.Id())
    && (forall d :: d in w.graph[task.Id()] ==> d in s.session.completed)
    && task.status == Running && task.assignedAgentId == Some(agent.agentId) && token !in IssuedIds(s.gateway.issued)
  }

  predicate Agrees(record: EvidenceRecord) {
    record.id.sessionId == record.sessionId && record.id.taskId == record.taskId
  }

  predicate SavesPending(w: Workflow, queue: seq<EvidenceRecord>, t: string) {
    exists r :: r in queue && r.sessionId == w.sessionId && r.taskId == t
  }

  function Entered(s: Session, t: string, phase: Phase): Session {
    s.(work := s.work[t := phase])
  }

  function Left(s: Session, t: string): Session {
    s.(work := s.work - {t})
  }

  function AfterBegin(w: Workflow, s: State, task: AgentTask, agent: AgentManifest, token: string, now: int): State {
    if !CanBegin(w, s, task, agent, token) then s
    else s.(gateway := WithGrant(s.gateway, NewGrant(token, w.sessionId, task.Id(), agent, now)),
            session := Entered(s.session, task.Id(), Granted(task, token)))
  }

  /** The executor is called with the evidence of the dependencies. */
  function AfterInvoke(w: Workflow, s: State, t: string): State {
    if !(t in w.graph && t in s.session.work && s.session.work[t].Granted?) then s
    else
      var phase := s.session.work[t];
      s.(session := Entered(s.session, t, Invoked(phase.task, phase.grantId))
           .(passed := s.session.passed + [Context(t, DependencyEvidence(w, s.shelf, t))]))
  }

  /** The controlled scenario files a record in another agent's name, already rejected. */
  function AfterSpoof(w: Workflow, s: State, t: string, producer: string, claim: Text, refs: seq<Text>): State {
    if !(t in s.session.work && s.session.work[t].Invoked?) then s
    else s.(queue := s.queue + [EvidenceRecord(SpoofedId(w.sessionId, t), w.sessionId, t, producer, Rejected, claim, refs)])
  }

  /** The executor returns; the grant is revoked and the task is saved as completed. */
  function AfterReturn(s: State, t: string, evidence: seq<AgentEvidence>): State {
    if !(t in s.session.work && s.session.work[t].Invoked?) then s
    else
      var phase := s.session.work[t];
      s.(gateway := s.gateway.(grants := AfterRevoke(s.gateway.grants, phase.grantId)),
         session := Entered(s.session, t, Returned(phase.task.(status := Completed), evidence)))
  }

  /** The sources of the dependencies' accepted evidence are collected. */
  function AfterCollect(w: Workflow, s: State, t: string): State {
    if !(t in w.graph && t in s.session.work && s.session.work[t].Returned?) then s
    else
      var phase := s.session.work[t];
      s.(session := Entered(s.session, t,
           Collected(phase.task, phase.evidence, SourcesOf(DependencyEvidence(w, s.shelf, t)))))
  }

  /** The task's own reads are added, every item is assessed, and all are handed to the store. */
  function AfterSubmit(w: Workflow, s: State, t: string): State {
    if !(t in s.session.work && s.session.work[t].Collected?) then s
    else
      var phase := s.session.work[t];
      var agentId := AgentOf(phase.task);
      var own := Gate.RefsOf(s.gateway.refs, Gate.Holder(w.sessionId, t, agentId));
      s.(queue := s.queue + Assessed(w, phase.task, agentId, phase.evidence, phase.inherited + own),
         session := Entered(s.session, t, Saving))
  }

  /** The attempt succeeds once its saves are through. */
  function AfterFinish(w: Workflow, s: State, t: string): State {
    if !(t in s.session.work && s.session.work[t].Saving? && !SavesPending(w, s.queue, t)) then s
    else s.(session := Left(s.session, t).(completed := s.session.completed + {t}))
  }

  /** Something threw; a grant is revoked only once the executor was called. */
  function AfterAbandon(s: State, t: string): State {
    if t !in s.session.work then s
    else
      var phase := s.session.work[t];
      s.(gateway := if phase.Invoked? then s.gateway.(grants := AfterRevoke(s.gateway.grants, phase.grantId)) else s.gateway,
         session := Left(s.session, t))
  }

  function AfterStore(s: State, saved: bool): State {
    if s.queue == [] then s
    else s.(queue := s.queue[1..],
            shelf := if saved then Upserted(s.shelf, s.queue[0].id, s.queue[0]) else s.shelf)
  }

  function AfterCrash(s: State): State {
    s.(gateway := s.gateway.(grants := map[], refs := map[], looking := [], reading := []),
       queue := [], session := s.session.(work := map[], alive := false))
  }

  function Step(w: Workflow, s: State, e: Event): State {
    match e
    case Begin(task, agent, token, now) => AfterBegin(w, s, task, agent, token, now)
    case Invoke(t) => AfterInvoke(w, s, t)
    case Spoof(t, producer, claim, refs) => AfterSpoof(w, s, t, producer, claim, refs)
    case Return(t, evidence) => AfterReturn(s, t, evidence)
    case Collect(t) => AfterCollect(w, s, t)
    case Submit(t) => AfterSubmit(w, s, t)
    case Finish(t) => AfterFinish(w, s, t)
    case Abandon(t) => AfterAbandon(s, t)
    case StoreSaves => AfterStore(s, true)
    case StoreFails => AfterStore(s, false)
    case SaveElsewhere(record) =>
      if record.sessionId == w.sessionId || !Agrees(record) then s else s.(queue := s.queue + [record])
    case GrantElsewhere(grant) => if grant.sessionId == w.sessionId then s else s.(gateway := WithGrant(s.gateway, grant))
    case RevokeAny(id) => s.(gateway := s.gateway.(grants := AfterRevoke(s.gateway.grants, id)))
    case BeginRead(grantId, resource) => s.(gateway := LookUp(s.gateway, grantId, resource))
    case DecideRead(k, now) => s.(gateway := Decide(s.gateway, k, now))
    case EndRead(k, found) => s.(gateway := FinishRead(s.gateway, k, found))
    case Crash => AfterCrash(s)
  }

  ghost predicate Fresh(w: Workflow, shelf: Shelf) {
    && Distinct(Keys(shelf))
    && forall i :: 0 <= i < |shelf| ==>
         shelf[i].key == shelf[i].value.id && Agrees(shelf[i].value) && shelf[i].value.sessionId != w.sessionId
  }

  function Initial(shelf: Shelf): State {
    State(Gateway(map[], map[], [], [], [], []), shelf, [], Session(map[], {}, [], true))
  }

  function Steps(w: Workflow, shelf: Shelf, events: seq<Event>): State {
    if events == [] then Initial(shelf)
    else Step(w, Steps(w, shelf, events[..|events| - 1]), events[|events| - 1])
  }
}
