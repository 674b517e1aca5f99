/** One attempt that nothing disturbs: it completes its task and leaves every reported item, judged, in the store. */
module UndisturbedAttempt {
  import opened Wrappers
  import opened Sequences
  import opened JsonText
  import opened TaskLifecycle
  import opened CapabilityRouter
  import opened AccessGrants
  import opened EvidenceAcceptance
  import opened RelayStore
  import opened Provenance
  import opened EvidenceSelection
  import Gate = ResourceGateway

  ghost predicate OnShelf(shelf: Shelf, r: EvidenceRecord) {
    r.id in Keys(shelf) && shelf[IndexOf(Keys(shelf), r.id)].value == r
  }

  lemma SavedIsOnShelf(shelf: Shelf, r: EvidenceRecord)
    ensures OnShelf(Upserted(shelf, r.id, r), r)
  {
    var after := Upserted(shelf, r.id, r);
    if r.id in Keys(shelf) {
      assert Keys(after) == Keys(shelf);
    } else {
      assert Keys(after) == Keys(shelf) + [r.id];
      assert IndexOf(Keys(after), r.id) == |shelf|;
    }
  }

  lemma OthersStay(shelf: Shelf, r: EvidenceRecord, q: EvidenceRecord)
    requires OnShelf(shelf, q) && q.id != r.id
    ensures OnShelf(Upserted(shelf, r.id, r), q)
  {
    var after := Upserted(shelf, r.id, r);
    var i := IndexOf(Keys(shelf), q.id);
    if r.id in Keys(shelf) {
      assert Keys(after) == Keys(shelf);
    } else {
      assert Keys(after) == Keys(shelf) + [r.id];
      IndexOfPrefix(Keys(shelf), r.id, q.id);
    }
  }

  /** The store carries out every queued save. */
  function Drained(s: State): State
    decreases |s.queue|
  {
    if s.queue == [] then s else Drained(AfterStore(s, true))
  }

  ghost predicate DistinctIds(queue: seq<EvidenceRecord>) {
    forall i, j :: 0 <= i < j < |queue| ==> queue[i].id != queue[j].id
  }

  lemma {:induction false} DrainedHolds(s: State)
    requires DistinctIds(s.queue)
    ensures Drained(s).queue == [] && Drained(s).session == s.session && Drained(s).gateway == s.gateway
    ensures forall i :: 0 <= i < |s.queue| ==> OnShelf(Drained(s).shelf, s.queue[i])
    ensures forall q :: OnShelf(s.shelf, q) && (forall i :: 0 <= i < |s.queue| ==> s.queue[i].id != q.id) ==>
              OnShelf(Drained(s).shelf, q)
    decreases |s.queue|
  {
    hide OnShelf, Upserted;
    if s.queue != [] {
      var r, next := s.queue[0], AfterStore(s, true);
      assert forall i :: 0 <= i < |next.queue| ==> next.queue[i] == s.queue[i + 1];
      DrainedHolds(next);
      SavedIsOnShelf(s.shelf, r);
      forall i | 0 <= i < |s.queue|
        ensures OnShelf(Drained(s).shelf, s.queue[i])
      {
        assert i > 0 ==> s.queue[i] == next.queue[i - 1];
      }
      forall q | OnShelf(s.shelf, q) && (forall i :: 0 <= i < |s.queue| ==> s.queue[i].id != q.id)
        ensures OnShelf(Drained(s).shelf, q)
      {
        OthersStay(s.shelf, r, q);
        assert OnShelf(next.shelf, q);
      }
    }
  }

  lemma AssessedIdsDiffer(w: Workflow, task: AgentTask, agentId: string, evidence: seq<AgentEvidence>, authorized: set<Text>)
    ensures DistinctIds(Assessed(w, task, agentId, evidence, authorized))
  {
    var records := Assessed(w, task, agentId, evidence, authorized);
    forall i, j | 0 <= i < j < |records| ensures records[i].id != records[j].id {
      assert records[i] == AssessedOne(w, task, agentId, evidence[i], i, authorized);
      assert records[j] == AssessedOne(w, task, agentId, evidence[j], j, authorized);
    }
  }

  /** The state after an attempt that nothing disturbs, up to handing its records to the store. */
  function Submitted(w: Workflow, s: State, task: AgentTask, agent: AgentManifest, token: string, now: int,
                     evidence: seq<AgentEvidence>): State {
    var t := task.Id();
    AfterSubmit(w, AfterCollect(w, AfterReturn(AfterInvoke(w, AfterBegin(w, s, task, agent, token, now), t), t, evidence), t), t)
  }

  function Inherited(w: Workflow, s: State, t: string): set<Text>
    requires t in w.graph
  {
    SourcesOf(DependencyEvidence(w, s.shelf, t))
  }

  lemma SubmittedRecords(w: Workflow, s: State, task: AgentTask, agent: AgentManifest, token: string, now: int,
                         evidence: seq<AgentEvidence>)
    requires CanBegin(w, s, task, agent, token) && s.queue == []
    ensures var t, after := task.Id(), Submitted(w, s, task, agent, token, now, evidence);
      var own := Gate.RefsOf(s.gateway.refs, Gate.Holder(w.sessionId, t, agent.agentId));
      && after.queue == Assessed(w, task.(status := Completed), agent.agentId, evidence, Inherited(w, s, t) + own)
      && after.shelf == s.shelf && t in after.session.work && after.session.work[t].Saving?
      && after.session.completed == s.session.completed
      && |after.session.passed| == |s.session.passed| + 1
      && after.session.passed[|s.session.passed|] == Context(t, DependencyEvidence(w, s.shelf, t))
  {
    hide DependencyEvidence, SourcesOf, Assessed, NewGrant;
    var t := task.Id();
    var s1 := AfterBegin(w, s, task, agent, token, now);
    assert s1.session.work[t] == Granted(task, token) && s1.shelf == s.shelf && s1.gateway.refs == s.gateway.refs;
    var s2 := AfterInvoke(w, s1, t);
    assert s2.session.work[t] == Invoked(task, token);
    var s3 := AfterReturn(s2, t, evidence);
    assert s3.session.work[t] == Returned(task.(status := Completed), evidence);
    assert s3.gateway.refs == s.gateway.refs && s3.shelf == s.shelf;
    var s4 := AfterCollect(w, s3, t);
    assert s4.session.work[t] == Collected(task.(status := Completed), evidence, Inherited(w, s, t));
    assert s4.gateway.refs == s.gateway.refs && s4.queue == [];
    assert [] + AfterSubmit(w, s4, t).queue == AfterSubmit(w, s4, t).queue;
  }

  /** The stored record of an item, accepted exactly when it claims something from authorized sources. */
  ghost predicate Judged(w: Workflow, t: string, i: nat, item: AgentEvidence, authorized: set<Text>, r: EvidenceRecord) {
    && r.id == Numbered(w.sessionId, t, i + 1) && r.claim == item.claim && r.sourceRefs == item.sourceRefs
    && (r.status == Accepted <==>
         && !IsBlank(item.claim) && item.sourceRefs != []
         && forall ref :: ref in item.sourceRefs ==> !IsBlank(ref) && ref in authorized)
  }

  lemma AssessedIsJudged(w: Workflow, task: AgentTask, agentId: string, item: AgentEvidence, i: nat, authorized: set<Text>)
    requires task.status == Completed && task.assignedAgentId == Some(agentId)
    ensures Judged(w, task.Id(), i, item, authorized, AssessedOne(w, task, agentId, item, i, authorized))
  {
    hide IsBlank;
  }

  lemma FinishCompletes(w: Workflow, s: State, t: string)
    requires t in s.session.work && s.session.work[t].Saving? && s.queue == []
    ensures AfterFinish(w, s, t).session.completed == s.session.completed + {t} && AfterFinish(w, s, t).shelf == s.shelf
    ensures AfterFinish(w, s, t).session.passed == s.session.passed
  {
  }

  /**
    * An attempt that may begin, and that nothing disturbs, is passed the accepted records of its dependencies and completes
    * its task; each item it reported is then stored, and accepted exactly when it makes a claim and names only sources that
    * the task had read or that those records name.
    */
  lemma UndisturbedAttemptCompletes(w: Workflow, s: State, task: AgentTask, agent: AgentManifest, token: string, now: int,
                                    evidence: seq<AgentEvidence>, i: nat) returns (r: EvidenceRecord)
    requires CanBegin(w, s, task, agent, token) && s.queue == [] && i < |evidence|
    ensures var t := task.Id();
      var after := AfterFinish(w, Drained(Submitted(w, s, task, agent, token, now, evidence)), t);
      var authorized := Inherited(w, s, t) + Gate.RefsOf(s.gateway.refs, Gate.Holder(w.sessionId, t, agent.agentId));
      && after.session.completed == s.session.completed + {t}
      && OnShelf(after.shelf, r) && Judged(w, t, i, evidence[i], authorized, r)
      && (forall ref :: ref in authorized <==>
           || NamedByDependencies(w, s.shelf, t, ref)
           || (var holder := Gate.Holder(w.sessionId, t, agent.agentId); holder in s.gateway.refs && ref in s.gateway.refs[holder]))
      && |after.session.passed| == |s.session.passed| + 1
      && after.session.passed[|s.session.passed|].taskId == t
      && IsSelection(w, s.shelf, t, after.session.passed[|s.session.passed|].evidence)
  {
    var t, submitted := task.Id(), Submitted(w, s, task, agent, token, now, evidence);
    var completed := task.(status := Completed);
    var authorized := Inherited(w, s, t) + Gate.RefsOf(s.gateway.refs, Gate.Holder(w.sessionId, t, agent.agentId));
    SubmittedRecords(w, s, task, agent, token, now, evidence);
    forall ref ensures ref in Inherited(w, s, t) <==> NamedByDependencies(w, s.shelf, t, ref) {
      InheritedExactly(w, s.shelf, t, ref);
    }
    DependencyEvidenceExactly(w, s.shelf, t);
    hide Submitted, Inherited, OnShelf, Judged, DistinctIds, AfterFinish, NamedByDependencies, IsSelection, DependencyEvidence;
    AssessedIdsDiffer(w, completed, agent.agentId, evidence, authorized);
    DrainedHolds(submitted);
    hide Drained;
    r := AssessedOne(w, completed, agent.agentId, evidence[i], i, authorized);
    assert submitted.queue[i] == r;
    AssessedIsJudged(w, completed, agent.agentId, evidence[i], i, authorized);
    hide AssessedOne, Assessed;
    FinishCompletes(w, Drained(submitted), t);
  }

  /** The record that the controlled scenario files in another agent's name reaches the store, rejected. */
  lemma SpoofedIsStoredRejected(w: Workflow, s: State, t: string, producer: string, claim: Text, refs: seq<Text>)
    requires t in s.session.work && s.session.work[t].Invoked? && s.queue == []
    ensures OnShelf(Drained(AfterSpoof(w, s, t, producer, claim, refs)).shelf,
                    EvidenceRecord(SpoofedId(w.sessionId, t), w.sessionId, t, producer, Rejected, claim, refs))
  {
    var after := AfterSpoof(w, s, t, producer, claim, refs);
    hide OnShelf, Upserted;
    DrainedHolds(after);
    assert after.queue[0] == EvidenceRecord(SpoofedId(w.sessionId, t), w.sessionId, t, producer, Rejected, claim, refs);
  }

  // ---------- the order of an attempt, whatever disturbs it ----------

  /** The next stage of an attempt, and the event that takes it there. */
  predicate Follows(before: Phase, e: Event, t: string, after: Phase) {
    || (before.Granted? && e == Invoke(t) && after == Invoked(before.task, before.grantId))
    || (before.Invoked? && e.Return? && e.t == t && after == Returned(before.task.(status := Completed), e.evidence))
    || (before.Returned? && e == Collect(t) && after.Collected? && after.task == before.task && after.evidence == before.evidence)
    || (before.Collected? && e == Submit(t) && after == Saving)
  }

  /** A task of the workflow, running under this agent, not completed yet and with all its dependencies completed. */
  ghost predicate MayStart(w: Workflow, s: Session, task: AgentTask, agent: AgentManifest) {
    && task.status == Running && task.assignedAgentId == Some(agent.agentId)
    && task.Id() in w.graph && task.Id() !in s.completed && forall d :: d in w.graph[task.Id()] ==> d in s.completed
  }

  /** A record of the task is still waiting to be stored. */
  ghost predicate IsQueued(w: Workflow, queue: seq<EvidenceRecord>, t: string) {
    exists k :: 0 <= k < |queue| && queue[k].sessionId == w.sessionId && queue[k].taskId == t
  }

  /**
    * An attempt begins with a grant, goes through its stages one by one, and ends by finishing, by an error or with the
    * process; a task becomes completed only by an attempt that has handed over its records, when none of them is waiting.
    */
  lemma AttemptsKeepOrder(w: Workflow, s: State, e: Event, t: string)
    ensures var before, after := s.session, Step(w, s, e).session;
      && (t !in before.work && t in after.work ==> e.Begin? && e.task.Id() == t && MayStart(w, before, e.task, e.agent)
                                                    && after.work[t] == Granted(e.task, e.token))
      && (t in before.work && t in after.work && after.work[t] != before.work[t] ==> Follows(before.work[t], e, t, after.work[t]))
      && (t in before.work && t !in after.work ==> e == Abandon(t) || e == Crash || (e == Finish(t) && t in after.completed))
      && (t in after.completed <==>
           || t in before.completed
           || (e == Finish(t) && t in before.work && before.work[t] == Saving && !IsQueued(w, s.queue, t)))
  {
    hide DependencyEvidence, SourcesOf, Assessed, NewGrant, WithGrant, AfterRevoke, LookUp, Decide, FinishRead, Upserted, IssuedIds;
    if e == Finish(t) { QueuedIsPending(w, s.queue, t); }
    hide IsQueued, SavesPending;
  }

  lemma QueuedIsPending(w: Workflow, queue: seq<EvidenceRecord>, t: string)
    ensures IsQueued(w, queue, t) <==> SavesPending(w, queue, t)
  {
    if SavesPending(w, queue, t) {
      var r :| r in queue && r.sessionId == w.sessionId && r.taskId == t;
      var k :| 0 <= k < |queue| && queue[k] == r;
    }
  }
}
