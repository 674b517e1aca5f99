/** How long the grant of an attempt lets anyone read. */
module GrantScope {
  import opened Wrappers
  import opened JsonText
  import opened AccessGrants
  import opened ToolPolicy
  import opened RelayStore
  import opened Provenance
  import opened ProvenanceTheorems
  import Gate = ResourceGateway

  /** The grants of attempts under way were issued. */
  ghost predicate GrantsKnown(work: map<string, Phase>, issued: seq<AccessGrant>) {
    forall t :: t in work && (work[t].Granted? || work[t].Invoked?) ==> work[t].grantId in IssuedIds(issued)
  }

  /** Issued once, and not active any more. */
  ghost predicate Ended(g: Gateway, id: string) {
    id in IssuedIds(g.issued) && (id in g.grants ==> g.grants[id].status == Revoked)
  }

  lemma IssuedGrows(issued: seq<AccessGrant>, grant: AccessGrant)
    ensures IssuedIds(issued + [grant]) == IssuedIds(issued) + {grant.id}
  {
    var after := issued + [grant];
    assert after[|issued|] == grant;
    assert forall k :: 0 <= k < |issued| ==> after[k] == issued[k];
  }

  lemma GrantKeepsEnded(g: Gateway, grant: AccessGrant, id: string)
    ensures Ended(g, id) ==> Ended(WithGrant(g, grant), id)
    ensures IssuedIds(g.issued) <= IssuedIds(WithGrant(g, grant).issued)
    ensures grant.status == Active ==> grant.id in IssuedIds(WithGrant(g, grant).issued)
  {
    IssuedGrows(g.issued, grant);
    hide IssuedIds;
  }

  lemma RevokeKeepsEnded(g: Gateway, id: string, other: string)
    requires Ended(g, id)
    ensures Ended(g.(grants := AfterRevoke(g.grants, other)), id)
  {
    hide IssuedIds;
  }

  /** A grant that has ended never becomes active again, in no session and across crashes. */
  lemma StepKeepsEnded(w: Workflow, s: State, e: Event, id: string)
    requires Ended(s.gateway, id)
    ensures Ended(Step(w, s, e).gateway, id)
  {
    hide IssuedIds, LookUp, Decide, FinishRead, WithGrant, AfterRevoke, DependencyEvidence, Upserted, Assessed, SourcesOf, NewGrant;
    match e
    case Begin(task, agent, token, now) => GrantKeepsEnded(s.gateway, NewGrant(token, w.sessionId, task.Id(), agent, now), id);
    case GrantElsewhere(grant) => GrantKeepsEnded(s.gateway, grant, id);
    case Return(t, _) =>
      if t in s.session.work && s.session.work[t].Invoked? {
        RevokeKeepsEnded(s.gateway, id, s.session.work[t].grantId);
      }
    case Abandon(t) =>
      if t in s.session.work && s.session.work[t].Invoked? {
        RevokeKeepsEnded(s.gateway, id, s.session.work[t].grantId);
      }
    case RevokeAny(other) => RevokeKeepsEnded(s.gateway, id, other);
    case BeginRead(grantId, resource) => ReadsKeepGrants(s.gateway, grantId, resource, 0, 0, false);
    case DecideRead(k, now) => ReadsKeepGrants(s.gateway, "", [], now, k, false);
    case EndRead(k, found) => ReadsKeepGrants(s.gateway, "", [], 0, k, found);
    case _ =>
  }

  lemma ReadsKeepGrants(g: Gateway, grantId: string, resource: Text, now: int, k: nat, found: bool)
    ensures LookUp(g, grantId, resource).grants == g.grants && LookUp(g, grantId, resource).issued == g.issued
    ensures Decide(g, k, now).grants == g.grants && Decide(g, k, now).issued == g.issued
    ensures FinishRead(g, k, found).grants == g.grants && FinishRead(g, k, found).issued == g.issued
  {
    hide Evaluate;
  }

  lemma StepKeepsKnown(w: Workflow, s: State, e: Event)
    requires GrantsKnown(s.session.work, s.gateway.issued)
    ensures GrantsKnown(Step(w, s, e).session.work, Step(w, s, e).gateway.issued)
  {
    hide IssuedIds, Evaluate, WithGrant, AfterRevoke, DependencyEvidence, Upserted, Assessed, SourcesOf;
    match e
    case Begin(task, agent, token, now) => GrantKeepsEnded(s.gateway, NewGrant(token, w.sessionId, task.Id(), agent, now), token);
    case GrantElsewhere(grant) => GrantKeepsEnded(s.gateway, grant, grant.id);
    case _ =>
  }

  lemma {:induction false} StepsKeepKnown(w: Workflow, shelf: Shelf, events: seq<Event>)
    ensures GrantsKnown(Steps(w, shelf, events).session.work, Steps(w, shelf, events).gateway.issued)
  {
    hide Step;
    if events != [] {
      hide GrantsKnown;
      StepsKeepKnown(w, shelf, events[..|events| - 1]);
      StepKeepsKnown(w, Steps(w, shelf, events[..|events| - 1]), events[|events| - 1]);
    }
  }

  lemma {:induction false} StepsKeepEnded(w: Workflow, shelf: Shelf, events: seq<Event>, later: seq<Event>, id: string)
    requires Ended(Steps(w, shelf, events).gateway, id)
    ensures Ended(Steps(w, shelf, events + later).gateway, id)
  {
    hide Step, Ended;
    if later == [] {
      assert events + later == events;
    } else {
      var init, last := later[..|later| - 1], later[|later| - 1];
      StepsKeepEnded(w, shelf, events, init, id);
      assert (events + later)[..|events + later| - 1] == events + init;
      StepKeepsEnded(w, Steps(w, shelf, events + init), last, id);
    }
  }

  /** An attempt that reached the executor ends with its grant revoked, whether it returned or threw. */
  lemma AttemptEndsGrant(w: Workflow, s: State, t: string, e: Event)
    requires GrantsKnown(s.session.work, s.gateway.issued) && t in s.session.work && s.session.work[t].Invoked?
    requires e == Abandon(t) || (e.Return? && e.t == t)
    ensures Ended(Step(w, s, e).gateway, s.session.work[t].grantId)
  {
    hide IssuedIds;
  }

  // ---------- reads after the end of an attempt ----------

  /** The read had been allowed by then, or its copy of the grant had been fetched. */
  ghost predicate WasPending(before: Gateway, read: Read) {
    || read in before.reading || read in before.history
    || exists l :: l in before.looking && l.grant == read.grant && l.resource == read.resource
  }

  ghost predicate AllPending(before: Gateway, some: seq<Read>, id: string) {
    forall k :: 0 <= k < |some| && some[k].grant.id == id ==> WasPending(before, some[k])
  }

  ghost predicate CopiesPending(before: Gateway, some: seq<Lookup>, id: string) {
    forall k :: 0 <= k < |some| && some[k].grantId == id ==> some[k].grant.status == Revoked || some[k] in before.looking
  }

  /** Since `before` nothing new could begin under this grant. */
  ghost predicate NothingNew(before: Gateway, g: Gateway, id: string) {
    && Ended(g, id) && CopiesPending(before, g.looking, id)
    && AllPending(before, g.reading, id) && AllPending(before, g.history, id)
  }

  lemma NothingNewYet(g: Gateway, id: string)
    requires Ended(g, id)
    ensures NothingNew(g, g, id)
  {
    hide IssuedIds;
  }

  lemma LookUpAddsNothing(before: Gateway, g: Gateway, id: string, grantId: string, resource: Text)
    requires NothingNew(before, g, id)
    ensures NothingNew(before, LookUp(g, grantId, resource), id)
  {
    hide IssuedIds, WasPending;
  }

  lemma DecideAddsNothing(before: Gateway, g: Gateway, id: string, k: nat, now: int)
    requires NothingNew(before, g, id) && GatewayInv(g)
    ensures NothingNew(before, Decide(g, k, now), id)
  {
    hide IssuedIds, NormalizeLogicalResource, MatchingScope, AllowedRead, RefsRead, GrantsIssued;
    if k < |g.looking| {
      assert Fetched(g.issued, g.looking[k]);
    }
  }

  lemma FinishAddsNothing(before: Gateway, g: Gateway, id: string, k: nat, found: bool)
    requires NothingNew(before, g, id)
    ensures NothingNew(before, FinishRead(g, k, found), id)
  {
    hide IssuedIds, WasPending;
  }

  lemma SameReadsAddNothing(before: Gateway, g: Gateway, after: Gateway, id: string)
    requires NothingNew(before, g, id) && Ended(after, id) && after.history == g.history
    requires after.looking == g.looking || after.looking == []
    requires after.reading == g.reading || after.reading == []
    ensures NothingNew(before, after, id)
  {
    hide IssuedIds, WasPending;
  }

  lemma StepAddsNothing(w: Workflow, s: State, e: Event, before: Gateway, id: string)
    requires NothingNew(before, s.gateway, id) && GatewayInv(s.gateway)
    ensures NothingNew(before, Step(w, s, e).gateway, id)
  {
    StepKeepsEnded(w, s, e, id);
    hide Ended, CopiesPending, AllPending, GatewayInv, LookUp, Decide, FinishRead, AfterRevoke, DependencyEvidence, Upserted, Assessed, SourcesOf, NewGrant, IssuedIds;
    match e
    case BeginRead(grantId, resource) => LookUpAddsNothing(before, s.gateway, id, grantId, resource);
    case DecideRead(k, now) => DecideAddsNothing(before, s.gateway, id, k, now);
    case EndRead(k, found) => FinishAddsNothing(before, s.gateway, id, k, found);
    case _ => SameReadsAddNothing(before, s.gateway, Step(w, s, e).gateway, id);
  }

  lemma {:induction false} StepsAddNothing(w: Workflow, shelf: Shelf, events: seq<Event>, later: seq<Event>, id: string)
    requires Ended(Steps(w, shelf, events).gateway, id)
    ensures NothingNew(Steps(w, shelf, events).gateway, Steps(w, shelf, events + later).gateway, id)
  {
    hide Step, Ended, NothingNew;
    var before := Steps(w, shelf, events).gateway;
    if later == [] {
      assert events + later == events;
      NothingNewYet(before, id);
    } else {
      var init, last := later[..|later| - 1], later[|later| - 1];
      StepsAddNothing(w, shelf, events, init, id);
      assert (events + later)[..|events + later| - 1] == events + init;
      StepsKeepGateway(w, shelf, events + init);
      StepAddsNothing(w, Steps(w, shelf, events + init), last, before, id);
    }
  }

  /**
    * Once the executor has returned or thrown, in any later state, the reads made under the attempt's grant are those
    * allowed before and those that had fetched their copy of the grant before: with none pending, there is never another.
    */
  lemma {:induction false} GrantEndsWithAttempt(w: Workflow, shelf: Shelf, events: seq<Event>, t: string, e: Event,
                                                later: seq<Event>)
    requires var s := Steps(w, shelf, events); t in s.session.work && s.session.work[t].Invoked?
    requires e == Abandon(t) || (e.Return? && e.t == t)
    ensures var id := Steps(w, shelf, events).session.work[t].grantId;
      var before, after := Steps(w, shelf, events + [e]).gateway, Steps(w, shelf, events + [e] + later).gateway;
      AllPending(before, after.reading, id) && AllPending(before, after.history, id)
  {
    hide Step, Ended, GrantsKnown, AllPending, CopiesPending;
    var s := Steps(w, shelf, events);
    StepsKeepKnown(w, shelf, events);
    AttemptEndsGrant(w, s, t, e);
    assert (events + [e])[..|events|] == events;
    StepsAddNothing(w, shelf, events + [e], later, s.session.work[t].grantId);
  }

  /**
    * The exception is real: when the attempt ends while a read has fetched its copy of the grant, and the copy is active, in
    * time and admits the read, then the read is allowed after the grant has been revoked.
    */
  lemma PendingReadOutlivesGrant(w: Workflow, shelf: Shelf, events: seq<Event>, t: string, e: Event, k: nat, now: int)
    requires var s := Steps(w, shelf, events);
      && t in s.session.work && s.session.work[t].Invoked? && k < |s.gateway.looking|
      && s.gateway.looking[k].grantId == s.session.work[t].grantId
    requires e == Abandon(t) || (e.Return? && e.t == t)
    requires var l := Steps(w, shelf, events).gateway.looking[k];
      && l.grant.status == Active && InTime(l.grant, now) && Gate.READ_TOOL in l.grant.allowedTools
      && exists r, i :: Admits(l.grant, Gate.ReadRequest(l.grantId, l.resource), r, i)
    ensures var l := Steps(w, shelf, events).gateway.looking[k];
      var after := Steps(w, shelf, events + [e]).gateway;
      && Ended(after, l.grantId)
      && Steps(w, shelf, events + [e] + [DecideRead(k, now)]).gateway.reading == after.reading + [Read(l.grant, l.resource, now)]
  {
    hide Admits, Ended, GrantsKnown, Evaluate;
    var s := Steps(w, shelf, events);
    var l := s.gateway.looking[k];
    StepsKeepKnown(w, shelf, events);
    StepsKeepGateway(w, shelf, events);
    assert Fetched(s.gateway.issued, l);
    AllowedExactly(Some(l.grant), Gate.ReadRequest(l.grantId, l.resource), now);
    assert (events + [e])[..|events|] == events;
    assert (events + [e] + [DecideRead(k, now)])[..|events + [e]|] == events + [e];
    AttemptEndsGrant(w, s, t, e);
    EndingKeepsReads(w, s, t, e);
    hide Step;
    DecideAllows(w, Step(w, s, e), k, now);
  }

  lemma EndingKeepsReads(w: Workflow, s: State, t: string, e: Event)
    requires e == Abandon(t) || (e.Return? && e.t == t)
    ensures Step(w, s, e).gateway.looking == s.gateway.looking && Step(w, s, e).gateway.reading == s.gateway.reading
  {
  }

  lemma DecideAllows(w: Workflow, s: State, k: nat, now: int)
    requires k < |s.gateway.looking|
    requires var l := s.gateway.looking[k]; Evaluate(Some(l.grant), Gate.ReadRequest(l.grantId, l.resource), now) == Allow
    ensures var l := s.gateway.looking[k];
      Step(w, s, DecideRead(k, now)).gateway.reading == s.gateway.reading + [Read(l.grant, l.resource, now)]
  {
    hide Evaluate;
  }

  // ---------- an attempt that fails before the executor is called ----------

  predicate Holds(phase: Phase, id: string) {
    (phase.Granted? || phase.Invoked?) && phase.grantId == id
  }

  ghost predicate NoneHolds(work: map<string, Phase>, id: string) {
    forall t :: t in work ==> !Holds(work[t], id)
  }

  /** No two attempts hold the same grant. */
  ghost predicate HoldersDiffer(work: map<string, Phase>) {
    forall t, u, id :: t in work && u in work && Holds(work[t], id) && Holds(work[u], id) ==> t == u
  }

  lemma StepKeepsHolders(w: Workflow, s: State, e: Event)
    requires GrantsKnown(s.session.work, s.gateway.issued) && HoldersDiffer(s.session.work)
    ensures HoldersDiffer(Step(w, s, e).session.work)
  {
    hide IssuedIds, LookUp, Decide, FinishRead, WithGrant, AfterRevoke, DependencyEvidence, Upserted, Assessed, SourcesOf;
  }

  lemma {:induction false} StepsKeepHolders(w: Workflow, shelf: Shelf, events: seq<Event>)
    ensures HoldersDiffer(Steps(w, shelf, events).session.work)
  {
    hide Step;
    if events != [] {
      hide HoldersDiffer, GrantsKnown;
      StepsKeepHolders(w, shelf, events[..|events| - 1]);
      StepsKeepKnown(w, shelf, events[..|events| - 1]);
      StepKeepsHolders(w, Steps(w, shelf, events[..|events| - 1]), events[|events| - 1]);
    }
  }

  /** Issued, and held by no attempt any more. */
  ghost predicate Leaked(s: State, id: string) {
    id in IssuedIds(s.gateway.issued) && NoneHolds(s.session.work, id)
  }

  predicate EndsGrant(e: Event, id: string) {
    e == Crash || e == RevokeAny(id)
  }

  lemma WithGrantKeepsOthers(g: Gateway, grant: AccessGrant, id: string)
    requires id in IssuedIds(g.issued)
    ensures id in IssuedIds(WithGrant(g, grant).issued)
    ensures id in g.grants ==> id in WithGrant(g, grant).grants && WithGrant(g, grant).grants[id] == g.grants[id]
  {
    IssuedGrows(g.issued, grant);
    hide IssuedIds;
  }

  lemma StepKeepsLeaked(w: Workflow, s: State, e: Event, id: string)
    requires Leaked(s, id)
    ensures Leaked(Step(w, s, e), id)
  {
    hide IssuedIds, LookUp, Decide, FinishRead, WithGrant, AfterRevoke, DependencyEvidence, Upserted, Assessed, SourcesOf, NewGrant;
    match e
    case Begin(task, agent, token, now) => WithGrantKeepsOthers(s.gateway, NewGrant(token, w.sessionId, task.Id(), agent, now), id);
    case GrantElsewhere(grant) => WithGrantKeepsOthers(s.gateway, grant, id);
    case BeginRead(grantId, resource) => ReadsKeepGrants(s.gateway, grantId, resource, 0, 0, false);
    case DecideRead(k, now) => ReadsKeepGrants(s.gateway, "", [], now, k, false);
    case EndRead(k, found) => ReadsKeepGrants(s.gateway, "", [], 0, k, found);
    case _ =>
  }

  /** The steps that leave the gateway alone. */
  predicate IsQuiet(e: Event) {
    e.Invoke? || e.Spoof? || e.Collect? || e.Submit? || e.Finish? || e.StoreSaves? || e.StoreFails? || e.SaveElsewhere?
  }

  lemma QuietKeepsGateway(w: Workflow, s: State, e: Event)
    requires IsQuiet(e)
    ensures Step(w, s, e).gateway == s.gateway
  {
    hide DependencyEvidence, Upserted, Assessed, SourcesOf, SavesPending;
  }

  lemma EndingReachesHolder(w: Workflow, s: State, e: Event, id: string)
    requires (e.Return? || e.Abandon?) && NoneHolds(s.session.work, id) && id in s.gateway.grants
    ensures id in Step(w, s, e).gateway.grants && Step(w, s, e).gateway.grants[id] == s.gateway.grants[id]
  {
  }

  lemma StepLeavesLeaked(w: Workflow, s: State, e: Event, id: string)
    requires Leaked(s, id) && id in s.gateway.grants
    ensures EndsGrant(e, id) ==> Ended(Step(w, s, e).gateway, id)
    ensures !EndsGrant(e, id) ==> id in Step(w, s, e).gateway.grants && Step(w, s, e).gateway.grants[id] == s.gateway.grants[id]
  {
    hide IssuedIds, NoneHolds;
    if IsQuiet(e) {
      hide Step;
      QuietKeepsGateway(w, s, e);
    } else if e.Return? || e.Abandon? {
      hide Step;
      EndingReachesHolder(w, s, e, id);
    } else {
      hide LookUp, Decide, FinishRead, WithGrant, NewGrant;
      match e
      case Begin(task, agent, token, now) => WithGrantKeepsOthers(s.gateway, NewGrant(token, w.sessionId, task.Id(), agent, now), id);
      case GrantElsewhere(grant) => WithGrantKeepsOthers(s.gateway, grant, id);
      case BeginRead(grantId, resource) => ReadsKeepGrants(s.gateway, grantId, resource, 0, 0, false);
      case DecideRead(k, now) => ReadsKeepGrants(s.gateway, "", [], now, k, false);
      case EndRead(k, found) => ReadsKeepGrants(s.gateway, "", [], 0, k, found);
      case _ =>
    }
  }

  ghost predicate SomeEnds(later: seq<Event>, id: string) {
    exists j :: 0 <= j < |later| && EndsGrant(later[j], id)
  }

  lemma {:induction false} StepsLeaveLeaked(w: Workflow, shelf: Shelf, events: seq<Event>, later: seq<Event>, id: string)
    requires Leaked(Steps(w, shelf, events), id) && id in Steps(w, shelf, events).gateway.grants
    ensures var before, after := Steps(w, shelf, events), Steps(w, shelf, events + later);
      && Leaked(after, id)
      && (SomeEnds(later, id) ==> Ended(after.gateway, id))
      && (!SomeEnds(later, id) ==> id in after.gateway.grants && after.gateway.grants[id] == before.gateway.grants[id])
  {
    hide Step, Ended, Leaked, EndsGrant;
    if later == [] {
      assert events + later == events;
    } else {
      var init, last := later[..|later| - 1], later[|later| - 1];
      StepsLeaveLeaked(w, shelf, events, init, id);
      assert (events + later)[..|events + later| - 1] == events + init;
      var s := Steps(w, shelf, events + init);
      StepKeepsLeaked(w, s, last, id);
      assert SomeEnds(later, id) <==> SomeEnds(init, id) || EndsGrant(last, id) by { EndsNext(later, id); }
      if SomeEnds(init, id) {
        StepKeepsEnded(w, s, last, id);
      } else {
        StepLeavesLeaked(w, s, last, id);
      }
    }
  }

  lemma EndsNext(later: seq<Event>, id: string)
    requires later != []
    ensures SomeEnds(later, id) <==> SomeEnds(later[..|later| - 1], id) || EndsGrant(later[|later| - 1], id)
  {
    hide EndsGrant;
    if SomeEnds(later[..|later| - 1], id) {
      var j :| 0 <= j < |later| - 1 && EndsGrant(later[..|later| - 1][j], id);
      assert EndsGrant(later[j], id);
    }
  }

  predicate IsAllowed(g: Gateway, id: string, resource: Text, now: int) {
    id in g.grants && Evaluate(Some(g.grants[id]), Gate.ReadRequest(id, resource), now) == Allow
  }

  predicate InTime(grant: AccessGrant, now: int) {
    grant.expiresAt.Some? ==> now < grant.expiresAt.value
  }

  lemma AllowedWhileInTime(grant: AccessGrant, id: string, resource: Text, at: int, now: int)
    requires Evaluate(Some(grant), Gate.ReadRequest(id, resource), at) == Allow
    ensures Evaluate(Some(grant), Gate.ReadRequest(id, resource), now) == Allow <==> InTime(grant, now)
  {
    AllowedExactly(Some(grant), Gate.ReadRequest(id, resource), at);
    AllowedExactly(Some(grant), Gate.ReadRequest(id, resource), now);
    hide Evaluate;
  }

  lemma EndedAllowsNothing(g: Gateway, id: string, resource: Text, now: int)
    requires Ended(g, id)
    ensures !IsAllowed(g, id, resource, now)
  {
    hide NormalizeLogicalResource, MatchingScope, IssuedIds;
  }

  /**
    * An attempt that throws before the executor is called leaves its grant behind. A read that the grant allowed stays
    * allowed, in every later state and whatever else happens, exactly until its time is up, someone revokes the grant by
    * its id, or the process dies.
    */
  lemma EarlyFailureKeepsGrant(w: Workflow, shelf: Shelf, events: seq<Event>, t: string, later: seq<Event>,
                               resource: Text, at: int, now: int)
    requires var s := Steps(w, shelf, events);
      && t in s.session.work && s.session.work[t].Granted?
      && IsAllowed(s.gateway, s.session.work[t].grantId, resource, at)
    ensures var s := Steps(w, shelf, events);
      var id := s.session.work[t].grantId;
      var after := Steps(w, shelf, events + [Abandon(t)] + later).gateway;
      IsAllowed(after, id, resource, now) <==> InTime(s.gateway.grants[id], now) && !SomeEnds(later, id)
  {
    hide Ended, Evaluate, HoldersDiffer, GrantsKnown, SomeEnds, Leaked;
    var s := Steps(w, shelf, events);
    var id := s.session.work[t].grantId;
    StepsKeepHolders(w, shelf, events);
    StepsKeepKnown(w, shelf, events);
    AbandonLeaks(w, s, t);
    assert (events + [Abandon(t)])[..|events|] == events;
    hide Steps;
    StepsLeaveLeaked(w, shelf, events + [Abandon(t)], later, id);
    AllowedWhileInTime(s.gateway.grants[id], id, resource, at, now);
    var after := Steps(w, shelf, events + [Abandon(t)] + later).gateway;
    if SomeEnds(later, id) {
      EndedAllowsNothing(after, id, resource, now);
    }
  }

  lemma AbandonLeaks(w: Workflow, s: State, t: string)
    requires GrantsKnown(s.session.work, s.gateway.issued) && HoldersDiffer(s.session.work)
    requires t in s.session.work && s.session.work[t].Granted?
    ensures Leaked(Step(w, s, Abandon(t)), s.session.work[t].grantId) && Step(w, s, Abandon(t)).gateway == s.gateway
  {
    hide IssuedIds;
    assert Holds(s.session.work[t], s.session.work[t].grantId);
  }
}
