/** The evidence passed to a task stays what the dashboard shows for it, on every attempt and ever after. */
module FrozenContext {
  import opened Sequences
  import opened JsonText
  import opened TaskLifecycle
  import opened CapabilityRouter
  import opened AccessGrants
  import opened EvidenceAcceptance
  import opened RelayStore
  import opened Provenance
  import opened EvidenceSelection
  import Gate = ResourceGateway
  import P = ProvenanceTheorems

  // ---------- lists and filters ----------

  lemma {:induction false} UpdateUnkept<T(!new)>(keep: T -> bool, s: seq<T>, i: nat, x: T)
    requires i < |s| && !keep(s[i]) && !keep(x)
    ensures Filter(keep, s[i := x]) == Filter(keep, s)
  {
    var after := s[i := x];
    if i < |s| - 1 {
      assert after[..|s| - 1] == s[..|s| - 1][i := x];
      UpdateUnkept(keep, s[..|s| - 1], i, x);
    } else {
      assert after[..|s| - 1] == s[..|s| - 1];
    }
  }

  /** Saving an item that is not kept, over none or over one that is not kept either, does not show in the filter. */
  lemma UpsertUnkept<K(!new), T(!new)>(keep: Item<K, T> -> bool, items: seq<Item<K, T>>, key: K, value: T)
    requires !keep(Item(key, value)) && forall i :: 0 <= i < |items| && items[i].key == key ==> !keep(items[i])
    ensures Filter(keep, Upserted(items, key, value)) == Filter(keep, items)
  {
    if key in Keys(items) {
      UpdateUnkept(keep, items, IndexOf(Keys(items), key), Item(key, value));
    } else {
      assert (items + [Item(key, value)])[..|items|] == items;
    }
  }

  // ---------- the invariant ----------

  ghost predicate ShelfIds(shelf: Shelf) {
    forall i :: 0 <= i < |shelf| ==> shelf[i].key == shelf[i].value.id && Agrees(shelf[i].value)
  }

  /** No save is pending for a completed task of the session. */
  ghost predicate QueueInv(w: Workflow, queue: seq<EvidenceRecord>, completed: set<string>) {
    forall i :: 0 <= i < |queue| ==>
      Agrees(queue[i]) && (queue[i].sessionId == w.sessionId ==> queue[i].taskId !in completed)
  }

  ghost predicate DependenciesDone(w: Workflow, completed: set<string>, t: string) {
    t in w.graph && forall d :: d in w.graph[t] ==> d in completed
  }

  ghost predicate WorkInv(w: Workflow, work: map<string, Phase>, completed: set<string>) {
    forall t :: t in work ==>
      t !in completed && DependenciesDone(w, completed, t) && (work[t].Saving? || work[t].task.Id() == t)
  }

  ghost predicate PassedInv(w: Workflow, shelf: Shelf, passed: seq<Context>, completed: set<string>) {
    forall k :: 0 <= k < |passed| ==>
      && DependenciesDone(w, completed, passed[k].taskId)
      && passed[k].evidence == DependencyEvidence(w, shelf, passed[k].taskId)
  }

  ghost predicate FrozenInv(w: Workflow, shelf: Shelf, queue: seq<EvidenceRecord>, session: Session) {
    && ShelfIds(shelf) && QueueInv(w, queue, session.completed)
    && WorkInv(w, session.work, session.completed)
    && PassedInv(w, shelf, session.passed, session.completed)
  }

  /** A save for a task that is not among the dependencies leaves their evidence as it is. */
  lemma OtherSavesDoNotShow(w: Workflow, shelf: Shelf, r: EvidenceRecord, t: string)
    requires t in w.graph && ShelfIds(shelf) && Agrees(r)
    requires r.sessionId == w.sessionId ==> r.taskId !in w.graph[t]
    ensures DependencyEvidence(w, Upserted(shelf, r.id, r), t) == DependencyEvidence(w, shelf, t)
  {
    hide Filter;
    var keep := Both(OfTasks(w.graph[t]), Usable(w));
    FilterTwice(OfTasks(w.graph[t]), Usable(w), shelf);
    FilterTwice(OfTasks(w.graph[t]), Usable(w), Upserted(shelf, r.id, r));
    UpsertUnkept(keep, shelf, r.id, r);
  }

  lemma UpsertKeepsIds(shelf: Shelf, r: EvidenceRecord)
    requires ShelfIds(shelf) && Agrees(r)
    ensures ShelfIds(Upserted(shelf, r.id, r))
  {
  }

  lemma StoreKeepsFrozen(w: Workflow, s: State, saved: bool)
    requires FrozenInv(w, s.shelf, s.queue, s.session)
    ensures FrozenInv(w, AfterStore(s, saved).shelf, AfterStore(s, saved).queue, s.session)
  {
    hide DependencyEvidence, Upserted;
    if s.queue != [] && saved {
      var r := s.queue[0];
      UpsertKeepsIds(s.shelf, r);
      forall k | 0 <= k < |s.session.passed|
        ensures DependencyEvidence(w, Upserted(s.shelf, r.id, r), s.session.passed[k].taskId)
             == DependencyEvidence(w, s.shelf, s.session.passed[k].taskId)
      {
        OtherSavesDoNotShow(w, s.shelf, r, s.session.passed[k].taskId);
      }
    }
  }

  lemma BeginKeepsFrozen(w: Workflow, s: State, task: AgentTask, agent: AgentManifest, token: string, now: int)
    requires FrozenInv(w, s.shelf, s.queue, s.session)
    ensures var after := AfterBegin(w, s, task, agent, token, now);
      FrozenInv(w, after.shelf, after.queue, after.session)
  {
    hide PassedInv, QueueInv, ShelfIds, WithGrant;
  }

  lemma InvokeKeepsFrozen(w: Workflow, s: State, t: string)
    requires FrozenInv(w, s.shelf, s.queue, s.session)
    ensures var after := AfterInvoke(w, s, t);
      FrozenInv(w, after.shelf, after.queue, after.session)
  {
    hide QueueInv, ShelfIds, DependencyEvidence;
  }

  lemma SpoofKeepsFrozen(w: Workflow, s: State, t: string, producer: string, claim: Text, refs: seq<Text>)
    requires FrozenInv(w, s.shelf, s.queue, s.session)
    ensures var after := AfterSpoof(w, s, t, producer, claim, refs);
      FrozenInv(w, after.shelf, after.queue, after.session)
  {
    hide PassedInv, ShelfIds;
  }

  lemma ReturnKeepsFrozen(w: Workflow, s: State, t: string, evidence: seq<AgentEvidence>)
    requires FrozenInv(w, s.shelf, s.queue, s.session)
    ensures var after := AfterReturn(s, t, evidence);
      FrozenInv(w, after.shelf, after.queue, after.session)
  {
    hide PassedInv, QueueInv, ShelfIds, AfterRevoke;
  }

  lemma CollectKeepsFrozen(w: Workflow, s: State, t: string)
    requires FrozenInv(w, s.shelf, s.queue, s.session)
    ensures var after := AfterCollect(w, s, t);
      FrozenInv(w, after.shelf, after.queue, after.session)
  {
    hide PassedInv, QueueInv, ShelfIds, DependencyEvidence, SourcesOf;
  }

  lemma SubmitKeepsFrozen(w: Workflow, s: State, t: string)
    requires FrozenInv(w, s.shelf, s.queue, s.session)
    ensures var after := AfterSubmit(w, s, t);
      FrozenInv(w, after.shelf, after.queue, after.session)
  {
    hide PassedInv, ShelfIds;
    if t in s.session.work && s.session.work[t].Collected? {
      var after := AfterSubmit(w, s, t);
      var phase := s.session.work[t];
      assert phase.task.Id() == t;
      forall i | |s.queue| <= i < |after.queue|
        ensures Agrees(after.queue[i]) && after.queue[i].taskId == t
      {
      }
    }
  }

  lemma FinishKeepsFrozen(w: Workflow, s: State, t: string)
    requires FrozenInv(w, s.shelf, s.queue, s.session)
    ensures var after := AfterFinish(w, s, t);
      FrozenInv(w, after.shelf, after.queue, after.session)
  {
    hide ShelfIds, DependencyEvidence, Agrees;
    var after := AfterFinish(w, s, t);
    assert forall i :: 0 <= i < |s.queue| ==> s.queue[i] in s.queue;
    assert forall u :: DependenciesDone(w, s.session.completed, u) ==> DependenciesDone(w, after.session.completed, u);
  }

  lemma AbandonKeepsFrozen(w: Workflow, s: State, t: string)
    requires FrozenInv(w, s.shelf, s.queue, s.session)
    ensures var after := AfterAbandon(s, t);
      FrozenInv(w, after.shelf, after.queue, after.session)
  {
    hide PassedInv, QueueInv, ShelfIds, AfterRevoke;
  }

  lemma ElsewhereKeepsFrozen(w: Workflow, s: State, record: EvidenceRecord)
    requires FrozenInv(w, s.shelf, s.queue, s.session)
    ensures var after := Step(w, s, SaveElsewhere(record));
      FrozenInv(w, after.shelf, after.queue, after.session)
  {
    hide PassedInv, ShelfIds, WorkInv;
  }

  lemma CrashKeepsFrozen(w: Workflow, s: State)
    requires FrozenInv(w, s.shelf, s.queue, s.session)
    ensures var after := AfterCrash(s);
      FrozenInv(w, after.shelf, after.queue, after.session)
  {
    hide PassedInv, ShelfIds;
  }

  lemma StepKeepsFrozen(w: Workflow, s: State, e: Event)
    requires FrozenInv(w, s.shelf, s.queue, s.session)
    ensures FrozenInv(w, Step(w, s, e).shelf, Step(w, s, e).queue, Step(w, s, e).session)
  {
    hide FrozenInv, AfterBegin, AfterInvoke, AfterSpoof, AfterReturn, AfterCollect, AfterSubmit, AfterFinish, AfterAbandon, AfterCrash;
    match e
    case Begin(task, agent, token, now) => BeginKeepsFrozen(w, s, task, agent, token, now);
    case Invoke(t) => InvokeKeepsFrozen(w, s, t);
    case Spoof(t, producer, claim, refs) => SpoofKeepsFrozen(w, s, t, producer, claim, refs);
    case Return(t, evidence) => ReturnKeepsFrozen(w, s, t, evidence);
    case Collect(t) => CollectKeepsFrozen(w, s, t);
    case Submit(t) => SubmitKeepsFrozen(w, s, t);
    case Finish(t) => FinishKeepsFrozen(w, s, t);
    case Abandon(t) => AbandonKeepsFrozen(w, s, t);
    case StoreSaves => StoreKeepsFrozen(w, s, true);
    case StoreFails => StoreKeepsFrozen(w, s, false);
    case SaveElsewhere(record) => ElsewhereKeepsFrozen(w, s, record);
    case Crash => CrashKeepsFrozen(w, s);
    case _ =>
  }

  lemma {:induction false} StepsKeepFrozen(w: Workflow, shelf: Shelf, events: seq<Event>)
    requires Fresh(w, shelf)
    ensures var s := Steps(w, shelf, events);
      FrozenInv(w, s.shelf, s.queue, s.session)
  {
    hide Step;
    if events != [] {
      hide FrozenInv;
      StepsKeepFrozen(w, shelf, events[..|events| - 1]);
      StepKeepsFrozen(w, Steps(w, shelf, events[..|events| - 1]), events[|events| - 1]);
    }
  }

  /**
    * Whatever evidence was passed to the executor, on any attempt of a task, equals record for record and in order what
    * the dashboard computes for that task in every later state: the accepted records of all its dependencies then stored.
    */
  lemma PassedEvidenceIsFrozen(w: Workflow, shelf: Shelf, events: seq<Event>, m: nat, k: nat)
    requires Fresh(w, shelf) && m <= |events| && k < |Steps(w, shelf, events[..m]).session.passed|
    ensures var context := Steps(w, shelf, events[..m]).session.passed[k];
      && context.taskId in w.graph
      && context.evidence == CapsuleEvidence(w, Steps(w, shelf, events).shelf, context.taskId)
      && IsSelection(w, Steps(w, shelf, events).shelf, context.taskId, context.evidence)
  {
    hide Steps, DependencyEvidence, CapsuleEvidence, IsSelection;
    var earlier, later := Steps(w, shelf, events[..m]), Steps(w, shelf, events);
    PassedOnlyGrows(w, shelf, events, m);
    StepsKeepFrozen(w, shelf, events);
    var context := earlier.session.passed[k];
    assert later.session.passed[k] == context;
    assert DependenciesDone(w, later.session.completed, context.taskId);
    CapsuleIsDependencyEvidence(w, later.shelf, context.taskId);
    DependencyEvidenceExactly(w, later.shelf, context.taskId);
  }

  lemma {:induction false} PassedOnlyGrows(w: Workflow, shelf: Shelf, events: seq<Event>, m: nat)
    requires m <= |events|
    ensures Steps(w, shelf, events[..m]).session.passed <= Steps(w, shelf, events).session.passed
    decreases |events|
  {
    hide Step;
    if m < |events| {
      var init := events[..|events| - 1];
      assert init[..m] == events[..m];
      PassedOnlyGrows(w, shelf, init, m);
      StepKeepsPassed(w, Steps(w, shelf, init), events[|events| - 1]);
    } else {
      assert events[..m] == events;
    }
  }

  lemma StepKeepsPassed(w: Workflow, s: State, e: Event)
    ensures s.session.passed <= Step(w, s, e).session.passed
  {
    hide DependencyEvidence, Upserted, Assessed, SourcesOf, WithGrant, Decide, FinishRead;
  }

  // ---------- inherited sources ----------

  /** What an attempt has collected are still the sources that the stored evidence of its dependencies names. */
  ghost predicate CollectedInv(w: Workflow, shelf: Shelf, work: map<string, Phase>) {
    forall t :: t in work && work[t].Collected? ==>
      t in w.graph && work[t].inherited == SourcesOf(DependencyEvidence(w, shelf, t))
  }

  lemma StoreKeepsCollected(w: Workflow, s: State, saved: bool)
    requires FrozenInv(w, s.shelf, s.queue, s.session) && CollectedInv(w, s.shelf, s.session.work)
    ensures CollectedInv(w, AfterStore(s, saved).shelf, s.session.work)
  {
    hide DependencyEvidence, Upserted, SourcesOf, PassedInv;
    if s.queue != [] && saved {
      var r := s.queue[0];
      forall t | t in s.session.work && s.session.work[t].Collected?
        ensures DependencyEvidence(w, Upserted(s.shelf, r.id, r), t) == DependencyEvidence(w, s.shelf, t)
      {
        assert DependenciesDone(w, s.session.completed, t);
        OtherSavesDoNotShow(w, s.shelf, r, t);
      }
    }
  }

  lemma StepKeepsCollected(w: Workflow, s: State, e: Event)
    requires FrozenInv(w, s.shelf, s.queue, s.session) && CollectedInv(w, s.shelf, s.session.work)
    ensures CollectedInv(w, Step(w, s, e).shelf, Step(w, s, e).session.work)
  {
    hide DependencyEvidence, Upserted, SourcesOf, Assessed, WithGrant, LookUp, Decide, FinishRead, AfterRevoke, FrozenInv, AfterStore;
    if e.StoreSaves? {
      StoreKeepsCollected(w, s, true);
    } else if e.StoreFails? {
      StoreKeepsCollected(w, s, false);
    }
    StoreKeepsSession(s);
  }

  lemma StoreKeepsSession(s: State)
    ensures AfterStore(s, true).session == s.session && AfterStore(s, false).session == s.session
  {
    hide Upserted;
  }

  lemma {:induction false} StepsKeepCollected(w: Workflow, shelf: Shelf, events: seq<Event>)
    requires Fresh(w, shelf)
    ensures CollectedInv(w, Steps(w, shelf, events).shelf, Steps(w, shelf, events).session.work)
  {
    hide Step, FrozenInv;
    if events != [] {
      hide CollectedInv;
      StepsKeepCollected(w, shelf, events[..|events| - 1]);
      StepsKeepFrozen(w, shelf, events[..|events| - 1]);
      StepKeepsCollected(w, Steps(w, shelf, events[..|events| - 1]), events[|events| - 1]);
    }
  }

  /** The task's agent has read the source on behalf of the task, as far as this process remembers. */
  predicate OwnRead(w: Workflow, g: Gateway, t: string, agentId: string, ref: Text) {
    var holder := Gate.Holder(w.sessionId, t, agentId);
    holder in g.refs && ref in g.refs[holder]
  }

  /**
    * In every reachable state in which an attempt is about to hand its records over: an item will be accepted exactly when
    * it makes a claim and names sources, each of which the task has read itself or an accepted record of one of its
    * dependencies, as stored now, names.
    */
  lemma AcceptedFromDependencies(w: Workflow, shelf: Shelf, events: seq<Event>, t: string, i: nat)
    requires Fresh(w, shelf)
    requires var s := Steps(w, shelf, events);
      t in s.session.work && s.session.work[t].Collected? && i < |s.session.work[t].evidence|
    ensures var s := Steps(w, shelf, events);
      var phase, item := s.session.work[t], s.session.work[t].evidence[i];
      var after := AfterSubmit(w, s, t);
      && t in w.graph && |after.queue| == |s.queue| + |phase.evidence|
      && after.queue[|s.queue| + i].claim == item.claim && after.queue[|s.queue| + i].sourceRefs == item.sourceRefs
      && (after.queue[|s.queue| + i].status == Accepted <==>
           && !IsBlank(item.claim) && item.sourceRefs != []
           && forall ref :: ref in item.sourceRefs ==>
                !IsBlank(ref) && (OwnRead(w, s.gateway, t, AgentOf(phase.task), ref) || NamedByDependencies(w, s.shelf, t, ref)))
  {
    hide Steps, IsBlank, AfterSubmit, NamedByDependencies;
    StepsKeepCollected(w, shelf, events);
    P.SubmittedExactly(w, shelf, events, t, i);
    var s := Steps(w, shelf, events);
    var phase := s.session.work[t];
    forall ref
      ensures ref in phase.inherited <==> NamedByDependencies(w, s.shelf, t, ref)
    {
      InheritedExactly(w, s.shelf, t, ref);
    }
  }
}
