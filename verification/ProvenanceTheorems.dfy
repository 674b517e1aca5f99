/** Where the sources of accepted evidence come from, and why a task's context never changes once it was passed on. */
module ProvenanceTheorems {
  import opened Wrappers
  import opened Sequences
  import opened JsonText
  import opened TaskGraph
  import opened TaskLifecycle
  import opened AccessGrants
  import opened ToolPolicy
  import opened EvidenceAcceptance
  import opened RelayStore
  import opened Provenance
  import Gate = ResourceGateway

  // ---------- the gateway ----------

  /** The read was allowed under a grant that was issued, active when it was fetched and not past its time when evaluated. */
  ghost predicate AllowedRead(issued: seq<AccessGrant>, read: Read) {
    && read.grant in issued
    && Evaluate(Some(read.grant), Gate.ReadRequest(read.grant.id, read.resource), read.at) == Allow
  }

  ghost predicate AllAllowed(issued: seq<AccessGrant>, some: seq<Read>) {
    forall k :: 0 <= k < |some| ==> AllowedRead(issued, some[k])
  }

  ghost predicate GrantsIssued(grants: GrantTable, issued: seq<AccessGrant>) {
    forall id :: id in grants ==> grants[id].id == id && grants[id].(status := Active) in issued
  }

  ghost predicate Fetched(issued: seq<AccessGrant>, l: Lookup) {
    l.grant.id == l.grantId && l.grant.(status := Active) in issued
  }

  ghost predicate AllFetched(issued: seq<AccessGrant>, some: seq<Lookup>) {
    forall k :: 0 <= k < |some| ==> Fetched(issued, some[k])
  }

  ghost predicate WasRead(history: seq<Read>, holder: Gate.Holder, ref: Text) {
    exists k :: 0 <= k < |history| && IsReadOf(history[k], holder, ref)
  }

  ghost predicate IsReadOf(read: Read, holder: Gate.Holder, ref: Text) {
    Gate.HolderOf(read.grant) == holder && Gate.SourceRef(read.resource) == ref
  }

  ghost predicate RefsRead(refs: Gate.Provenance, history: seq<Read>) {
    forall h, ref :: h in refs && ref in refs[h] ==> WasRead(history, h, ref)
  }

  ghost predicate GatewayInv(g: Gateway) {
    && GrantsIssued(g.grants, g.issued) && AllFetched(g.issued, g.looking)
    && AllAllowed(g.issued, g.reading) && AllAllowed(g.issued, g.history)
    && RefsRead(g.refs, g.history)
  }

  lemma IssueKeepsInv(g: Gateway, grant: AccessGrant)
    requires GatewayInv(g)
    ensures GatewayInv(WithGrant(g, grant))
  {
    hide Evaluate;
    var issued := g.issued + [grant];
    assert forall x :: x in g.issued ==> x in issued;
    if grant.status == Active {
      assert grant.(status := Active) == grant && grant in issued;
    }
  }

  lemma RevokeKeepsInv(g: Gateway, id: string)
    requires GatewayInv(g)
    ensures GatewayInv(g.(grants := AfterRevoke(g.grants, id)))
  {
    hide Evaluate, AllowedRead, WasRead;
    if id in g.grants {
      assert g.grants[id].(status := Revoked).(status := Active) == g.grants[id].(status := Active);
    }
  }

  lemma LookUpKeepsInv(g: Gateway, grantId: string, resource: Text)
    requires GatewayInv(g)
    ensures GatewayInv(LookUp(g, grantId, resource))
  {
    hide AllowedRead, WasRead;
  }

  lemma DecideKeepsInv(g: Gateway, k: nat, now: int)
    requires GatewayInv(g)
    ensures GatewayInv(Decide(g, k, now))
  {
    hide WasRead;
    if k < |g.looking| {
      var Lookup(grantId, grant, resource) := g.looking[k];
      assert Fetched(g.issued, g.looking[k]);
      AllowedExactly(Some(grant), Gate.ReadRequest(grantId, resource), now);
      assert grant.status == Active ==> grant.(status := Active) == grant;
      hide Evaluate;
      assert Evaluate(Some(grant), Gate.ReadRequest(grantId, resource), now) == Allow ==>
          AllowedRead(g.issued, Read(grant, resource, now));
    }
  }

  lemma HistoryGrows(history: seq<Read>, read: Read, holder: Gate.Holder, ref: Text)
    ensures WasRead(history, holder, ref) ==> WasRead(history + [read], holder, ref)
    ensures WasRead(history + [read], Gate.HolderOf(read.grant), Gate.SourceRef(read.resource))
  {
    var after := history + [read];
    assert IsReadOf(after[|history|], Gate.HolderOf(read.grant), Gate.SourceRef(read.resource));
    if WasRead(history, holder, ref) {
      var k :| 0 <= k < |history| && IsReadOf(history[k], holder, ref);
      assert IsReadOf(after[k], holder, ref);
    }
  }

  lemma FinishReadKeepsInv(g: Gateway, k: nat, found: bool)
    requires GatewayInv(g)
    ensures GatewayInv(FinishRead(g, k, found))
  {
    hide AllowedRead, WasRead, GrantsIssued;
    var after := FinishRead(g, k, found);
    if k < |g.reading| && found {
      var read := g.reading[k];
      var holder, ref := Gate.HolderOf(read.grant), Gate.SourceRef(read.resource);
      forall h, r | h in after.refs && r in after.refs[h]
        ensures WasRead(after.history, h, r)
      {
        HistoryGrows(g.history, read, h, r);
        HistoryGrows(g.history, read, holder, ref);
        if h == holder && r != ref {
          assert h in g.refs && r in g.refs[h];
        }
      }
    }
  }

  lemma StepKeepsGateway(w: Workflow, s: State, e: Event)
    requires GatewayInv(s.gateway)
    ensures GatewayInv(Step(w, s, e).gateway)
  {
    hide GatewayInv, WithGrant, Decide, FinishRead, Evaluate, DependencyEvidence, Assessed, Upserted;
    match e
    case Begin(task, agent, token, now) => IssueKeepsInv(s.gateway, NewGrant(token, w.sessionId, task.Id(), agent, now));
    case Return(t, _) => if t in s.session.work && s.session.work[t].Invoked? { RevokeKeepsInv(s.gateway, s.session.work[t].grantId); }
    case Abandon(t) => if t in s.session.work && s.session.work[t].Invoked? { RevokeKeepsInv(s.gateway, s.session.work[t].grantId); }
    case GrantElsewhere(grant) => IssueKeepsInv(s.gateway, grant);
    case RevokeAny(id) => RevokeKeepsInv(s.gateway, id);
    case BeginRead(grantId, resource) => LookUpKeepsInv(s.gateway, grantId, resource);
    case DecideRead(k, now) => DecideKeepsInv(s.gateway, k, now);
    case EndRead(k, found) => FinishReadKeepsInv(s.gateway, k, found);
    case Crash => CrashKeepsGateway(s);
    case _ =>
  }

  lemma {:induction false} StepsKeepGateway(w: Workflow, shelf: Shelf, events: seq<Event>)
    ensures GatewayInv(Steps(w, shelf, events).gateway)
  {
    hide Step;
    if events != [] {
      hide GatewayInv;
      StepsKeepGateway(w, shelf, events[..|events| - 1]);
      StepKeepsGateway(w, Steps(w, shelf, events[..|events| - 1]), events[|events| - 1]);
    }
  }

  lemma CrashKeepsGateway(s: State)
    requires GatewayInv(s.gateway)
    ensures GatewayInv(AfterCrash(s).gateway)
  {
  }

  // ---------- the origin of sources ----------

  /** A read in this session, under a grant of the task or of one of its transitive dependencies, returned the source. */
  ghost predicate Origin(w: Workflow, history: seq<Read>, t: string, ref: Text) {
    exists k :: 0 <= k < |history| && IsOrigin(w, history[k], t, ref)
  }

  ghost predicate IsOrigin(w: Workflow, read: Read, t: string, ref: Text) {
    && read.grant.sessionId == w.sessionId && Gate.SourceRef(read.resource) == ref
    && Reaches(w.graph, read.grant.taskId, t)
  }

  ghost predicate AllOrigin(w: Workflow, history: seq<Read>, t: string, some: set<Text>) {
    forall ref :: ref in some ==> Origin(w, history, t, ref)
  }

  ghost predicate Sourced(w: Workflow, history: seq<Read>, r: EvidenceRecord) {
    r.sessionId == w.sessionId && r.status == Accepted ==>
      forall ref :: ref in r.sourceRefs ==> Origin(w, history, r.taskId, ref)
  }

  ghost predicate AllSourced(w: Workflow, history: seq<Read>, some: seq<EvidenceRecord>) {
    forall i :: 0 <= i < |some| ==> Sourced(w, history, some[i])
  }

  ghost predicate ShelfSourced(w: Workflow, history: seq<Read>, shelf: Shelf) {
    forall i :: 0 <= i < |shelf| ==> Sourced(w, history, shelf[i].value)
  }

  ghost predicate PhaseInv(w: Workflow, history: seq<Read>, t: string, phase: Phase) {
    && t in w.graph
    && (phase.Saving? || (phase.task.Id() == t && phase.task.assignedAgentId.Some?))
    && (phase.Returned? || phase.Collected? ==> phase.task.status == Completed)
    && (phase.Collected? ==> AllOrigin(w, history, t, phase.inherited))
  }

  ghost predicate WorkInv(w: Workflow, history: seq<Read>, work: map<string, Phase>) {
    forall t :: t in work ==> PhaseInv(w, history, t, work[t])
  }

  ghost predicate EvidenceInv(w: Workflow, s: State) {
    && ShelfSourced(w, s.gateway.history, s.shelf)
    && AllSourced(w, s.gateway.history, s.queue)
    && WorkInv(w, s.gateway.history, s.session.work)
  }

  lemma OriginGrows(w: Workflow, history: seq<Read>, read: Read, t: string, ref: Text)
    requires Origin(w, history, t, ref)
    ensures Origin(w, history + [read], t, ref)
  {
    var k :| 0 <= k < |history| && IsOrigin(w, history[k], t, ref);
    assert IsOrigin(w, (history + [read])[k], t, ref);
  }

  /** A source of a dependency is a source of the dependent. */
  lemma OriginPropagates(w: Workflow, history: seq<Read>, d: string, t: string, ref: Text)
    requires Origin(w, history, d, ref) && t in w.graph && d in w.graph[t]
    ensures Origin(w, history, t, ref)
  {
    var k :| 0 <= k < |history| && IsOrigin(w, history[k], d, ref);
    var c :| IsChain(w.graph, c) && c[0] == history[k].grant.taskId && Last(c) == d;
    ExtendChain(w.graph, c, t);
    assert (c + [t])[0] == c[0];
    assert IsOrigin(w, history[k], t, ref);
  }

  /** A task's own reads are origins of its own. */
  lemma OwnReadsAreOrigins(w: Workflow, g: Gateway, t: string, agentId: string)
    requires GatewayInv(g) && t in w.graph
    ensures AllOrigin(w, g.history, t, Gate.RefsOf(g.refs, Gate.Holder(w.sessionId, t, agentId)))
  {
    hide AllAllowed, GrantsIssued;
    var holder := Gate.Holder(w.sessionId, t, agentId);
    forall ref | ref in Gate.RefsOf(g.refs, holder)
      ensures Origin(w, g.history, t, ref)
    {
      assert WasRead(g.history, holder, ref);
      var k :| 0 <= k < |g.history| && IsReadOf(g.history[k], holder, ref);
      SingletonChain(w.graph, t);
      assert [t][0] == t && Last([t]) == t;
      assert IsOrigin(w, g.history[k], t, ref);
    }
  }

  lemma InheritedAreOrigins(w: Workflow, s: State, t: string)
    requires EvidenceInv(w, s) && t in w.graph
    ensures AllOrigin(w, s.gateway.history, t, SourcesOf(DependencyEvidence(w, s.shelf, t)))
  {
    hide Origin;
    var kept := Filter(Usable(w), Filter(OfTasks(w.graph[t]), s.shelf));
    var records := DependencyEvidence(w, s.shelf, t);
    forall ref | ref in SourcesOf(records)
      ensures Origin(w, s.gateway.history, t, ref)
    {
      var i, j :| 0 <= i < |records| && 0 <= j < |records[i].sourceRefs| && records[i].sourceRefs[j] == ref;
      assert kept[i] in kept && kept[i] in s.shelf && kept[i].value == records[i];
      assert Sourced(w, s.gateway.history, records[i]);
      assert Origin(w, s.gateway.history, records[i].taskId, ref);
      OriginPropagates(w, s.gateway.history, records[i].taskId, t, ref);
    }
  }

  lemma AssessedAreSourced(w: Workflow, history: seq<Read>, task: AgentTask, agentId: string,
                           evidence: seq<AgentEvidence>, authorized: set<Text>)
    requires AllOrigin(w, history, task.Id(), authorized)
    ensures AllSourced(w, history, Assessed(w, task, agentId, evidence, authorized))
  {
    hide Origin;
    var records := Assessed(w, task, agentId, evidence, authorized);
    forall i | 0 <= i < |records| ensures Sourced(w, history, records[i]) {
      assert records[i] == AssessedOne(w, task, agentId, evidence[i], i, authorized);
    }
  }

  lemma SubmitKeepsEvidence(w: Workflow, s: State, t: string)
    requires GatewayInv(s.gateway) && EvidenceInv(w, s)
    ensures EvidenceInv(w, AfterSubmit(w, s, t))
  {
    hide Origin, GatewayInv;
    if t in s.session.work && s.session.work[t].Collected? {
      var phase, history := s.session.work[t], s.gateway.history;
      assert PhaseInv(w, history, t, phase);
      var agentId := AgentOf(phase.task);
      var own := Gate.RefsOf(s.gateway.refs, Gate.Holder(w.sessionId, t, agentId));
      OwnReadsAreOrigins(w, s.gateway, t, agentId);
      AssessedAreSourced(w, history, phase.task, agentId, phase.evidence, phase.inherited + own);
      hide Sourced, Assessed, AssessedOne;
    }
  }

  lemma CollectKeepsEvidence(w: Workflow, s: State, t: string)
    requires EvidenceInv(w, s)
    ensures EvidenceInv(w, AfterCollect(w, s, t))
  {
    if t in w.graph && t in s.session.work && s.session.work[t].Returned? {
      InheritedAreOrigins(w, s, t);
      hide Sourced, AllOrigin, DependencyEvidence, SourcesOf;
      assert PhaseInv(w, s.gateway.history, t, s.session.work[t]);
    }
  }

  lemma StoreKeepsEvidence(w: Workflow, s: State, saved: bool)
    requires EvidenceInv(w, s)
    ensures EvidenceInv(w, AfterStore(s, saved))
  {
    hide Sourced, WorkInv;
  }

  lemma ReadKeepsEvidence(w: Workflow, s: State, k: nat, found: bool)
    requires EvidenceInv(w, s)
    ensures EvidenceInv(w, s.(gateway := FinishRead(s.gateway, k, found)))
  {
    hide Origin;
    if k < |s.gateway.reading| && found {
      var read, history := s.gateway.reading[k], s.gateway.history;
      forall t, ref | Origin(w, history, t, ref)
        ensures Origin(w, history + [read], t, ref)
      {
        OriginGrows(w, history, read, t, ref);
      }
      forall t | t in s.session.work ensures PhaseInv(w, history + [read], t, s.session.work[t]) {
        assert PhaseInv(w, history, t, s.session.work[t]);
      }
      forall r: EvidenceRecord | Sourced(w, history, r) ensures Sourced(w, history + [read], r) {
      }
      hide Sourced;
    }
  }

  /** The attempt of one task moved on, to a phase that holds nothing collected. */
  lemma PhaseKeepsEvidence(w: Workflow, s: State, s': State, t: string)
    requires EvidenceInv(w, s)
    requires s'.gateway.history == s.gateway.history && s'.shelf == s.shelf && s'.queue == s.queue
    requires t in s'.session.work ==>
               && s'.session.work == s.session.work[t := s'.session.work[t]]
               && t in w.graph && !s'.session.work[t].Collected?
               && (s'.session.work[t].Saving? || (s'.session.work[t].task.Id() == t && s'.session.work[t].task.assignedAgentId.Some?))
               && (s'.session.work[t].Returned? ==> s'.session.work[t].task.status == Completed)
    requires t !in s'.session.work ==> s'.session.work == s.session.work - {t}
    ensures EvidenceInv(w, s')
  {
    hide Sourced, AllOrigin;
  }

  lemma StepKeepsEvidence(w: Workflow, s: State, e: Event)
    requires GatewayInv(s.gateway) && EvidenceInv(w, s)
    ensures EvidenceInv(w, Step(w, s, e))
  {
    hide GatewayInv, Origin, AllOrigin, Sourced, Decide, Evaluate, Upserted, Assessed, DependencyEvidence, FinishRead;
    match e
    case Begin(task, agent, token, now) =>
      if CanBegin(w, s, task, agent, token) { PhaseKeepsEvidence(w, s, Step(w, s, e), task.Id()); }
    case Invoke(t) =>
      if Step(w, s, e) != s { assert PhaseInv(w, s.gateway.history, t, s.session.work[t]); PhaseKeepsEvidence(w, s, Step(w, s, e), t); }
    case Return(t, _) =>
      if Step(w, s, e) != s { assert PhaseInv(w, s.gateway.history, t, s.session.work[t]); PhaseKeepsEvidence(w, s, Step(w, s, e), t); }
    case Collect(t) => CollectKeepsEvidence(w, s, t);
    case Submit(t) => SubmitKeepsEvidence(w, s, t);
    case Finish(t) => if Step(w, s, e) != s { PhaseKeepsEvidence(w, s, Step(w, s, e), t); }
    case Abandon(t) => if Step(w, s, e) != s { PhaseKeepsEvidence(w, s, Step(w, s, e), t); }
    case StoreSaves => StoreKeepsEvidence(w, s, true);
    case StoreFails => StoreKeepsEvidence(w, s, false);
    case EndRead(k, found) => ReadKeepsEvidence(w, s, k, found);
    case Spoof(t, producer, claim, refs) => SpoofKeepsEvidence(w, s, t, producer, claim, refs);
    case SaveElsewhere(record) => ElsewhereKeepsEvidence(w, s, record);
    case DecideRead(k, now) => DecideKeepsHistory(s.gateway, k, now);
    case _ =>
  }

  lemma DecideKeepsHistory(g: Gateway, k: nat, now: int)
    ensures Decide(g, k, now).history == g.history
  {
  }

  lemma SpoofKeepsEvidence(w: Workflow, s: State, t: string, producer: string, claim: Text, refs: seq<Text>)
    requires EvidenceInv(w, s)
    ensures EvidenceInv(w, AfterSpoof(w, s, t, producer, claim, refs))
  {
    hide Origin, WorkInv;
  }

  lemma ElsewhereKeepsEvidence(w: Workflow, s: State, record: EvidenceRecord)
    requires EvidenceInv(w, s)
    ensures EvidenceInv(w, Step(w, s, SaveElsewhere(record)))
  {
    hide Origin, WorkInv;
  }

  lemma {:induction false} StepsKeepEvidence(w: Workflow, shelf: Shelf, events: seq<Event>)
    requires Fresh(w, shelf)
    ensures GatewayInv(Steps(w, shelf, events).gateway) && EvidenceInv(w, Steps(w, shelf, events))
  {
    hide Step;
    if events != [] {
      hide GatewayInv, EvidenceInv;
      var s, e := Steps(w, shelf, events[..|events| - 1]), events[|events| - 1];
      StepsKeepEvidence(w, shelf, events[..|events| - 1]);
      StepKeepsGateway(w, s, e);
      StepKeepsEvidence(w, s, e);
    }
  }

  /**
    * In every reachable state, each source of an accepted record of the session was returned by a read that the policy
    * allowed, under a grant that was issued in the same session for the record's task or one of its transitive
    * dependencies.
    */
  lemma {:induction false} ProvenanceClosure(w: Workflow, shelf: Shelf, events: seq<Event>, i: nat, ref: Text) returns (k: nat)
    requires Fresh(w, shelf)
    requires var s := Steps(w, shelf, events);
      && i < |s.shelf| && s.shelf[i].value.sessionId == w.sessionId && s.shelf[i].value.status == Accepted
      && ref in s.shelf[i].value.sourceRefs
    ensures var g := Steps(w, shelf, events).gateway;
      && k < |g.history| && Gate.SourceRef(g.history[k].resource) == ref && AllowedRead(g.issued, g.history[k])
      && g.history[k].grant.sessionId == w.sessionId
      && Reaches(w.graph, g.history[k].grant.taskId, Steps(w, shelf, events).shelf[i].value.taskId)
  {
    hide Steps, Reaches, AllowedRead;
    StepsKeepEvidence(w, shelf, events);
    var s := Steps(w, shelf, events);
    assert Sourced(w, s.gateway.history, s.shelf[i].value);
    assert Origin(w, s.gateway.history, s.shelf[i].value.taskId, ref);
    k :| 0 <= k < |s.gateway.history| && IsOrigin(w, s.gateway.history[k], s.shelf[i].value.taskId, ref);
  }

  /**
    * When a task's records are handed to the store, each is accepted exactly when it makes a claim and names sources
    * that the task read itself or inherited from the accepted evidence of its dependencies.
    */
  lemma {:induction false} SubmittedExactly(w: Workflow, shelf: Shelf, events: seq<Event>, t: string, i: nat)
    requires Fresh(w, shelf)
    requires var s := Steps(w, shelf, events);
      t in s.session.work && s.session.work[t].Collected? && i < |s.session.work[t].evidence|
    ensures var s := Steps(w, shelf, events);
      var phase, item := s.session.work[t], s.session.work[t].evidence[i];
      var after := AfterSubmit(w, s, t);
      var authorized := phase.inherited + Gate.RefsOf(s.gateway.refs, Gate.Holder(w.sessionId, t, AgentOf(phase.task)));
      && |after.queue| == |s.queue| + |phase.evidence|
      && after.queue[|s.queue| + i].claim == item.claim && after.queue[|s.queue| + i].sourceRefs == item.sourceRefs
      && (after.queue[|s.queue| + i].status == Accepted <==>
           && !IsBlank(item.claim) && item.sourceRefs != []
           && forall ref :: ref in item.sourceRefs ==> !IsBlank(ref) && ref in authorized)
  {
    hide Steps, IsBlank;
    StepsKeepEvidence(w, shelf, events);
    var s := Steps(w, shelf, events);
    assert PhaseInv(w, s.gateway.history, t, s.session.work[t]);
  }
}
