/** Protected reads from the lookup of a grant to the record of a source: none is made up, lost, doubled or kept by a crash. */
module ReadAccounting {
  import opened Wrappers
  import opened JsonText
  import opened CapabilityRouter
  import opened AccessGrants
  import opened ToolPolicy
  import opened EvidenceAcceptance
  import opened RelayStore
  import opened Provenance
  import opened ProvenanceTheorems
  import Gate = ResourceGateway

  /** The sequence without its `k`-th element. */
  function Without<T>(s: seq<T>, k: nat): (r: seq<T>)
    requires k < |s|
    ensures |r| == |s| - 1 && forall i :: 0 <= i < |r| ==> r[i] == if i < k then s[i] else s[i + 1]
  {
    s[..k] + s[k + 1..]
  }

  // ---------- one step ----------

  /** A read fetches a copy of the grant it names; one that names none is denied. */
  lemma LooksUpExactly(g: Gateway, grantId: string, resource: Text)
    ensures LookUp(g, grantId, resource)
         == if grantId in g.grants then g.(looking := g.looking + [Lookup(grantId, g.grants[grantId], resource)]) else g
  {
  }

  /** Each copy is evaluated once, for reading with the read tool, and goes on only when the policy allows it. */
  lemma DecidesExactly(g: Gateway, k: nat, now: int)
    requires k < |g.looking|
    ensures var l, t := g.looking[k], Decide(g, k, now);
      && t == g.(looking := Without(g.looking, k), reading := t.reading)
      && t.reading == if Evaluate(Some(l.grant), AccessRequest(l.grantId, "resource.read", l.resource, "read"), now) == Allow
                      then g.reading + [Read(l.grant, l.resource, now)] else g.reading
  {
    hide Evaluate;
  }

  /** The record of what a holder has read. */
  function RefsFor(refs: Gate.Provenance, h: Gate.Holder): set<Text> {
    if h in refs then refs[h] else {}
  }

  /** An allowed read ends once, and when the file is there its source is recorded for the holder of its grant, beside those recorded before. */
  lemma ReadsEndExactly(g: Gateway, k: nat, found: bool)
    requires k < |g.reading|
    ensures var read, t := g.reading[k], FinishRead(g, k, found);
      var holder := Gate.Holder(read.grant.sessionId, read.grant.taskId, read.grant.agentId);
      && t == g.(reading := Without(g.reading, k), refs := t.refs, history := t.history)
      && t.history == (if found then g.history + [read] else g.history)
      && forall h :: RefsFor(t.refs, h) == RefsFor(g.refs, h) + if found && h == holder then {Ascii("resource://") + read.resource} else {}
  {
    assert Gate.SCHEME == Ascii("resource://");
  }

  /** A crash ends every read and attempt under way and forgets grants and records; what is stored stays. */
  lemma CrashForgets(s: State)
    ensures var t := AfterCrash(s);
      && t.shelf == s.shelf && t.queue == [] && !t.session.alive && t.session.work == map[]
      && t.session.completed == s.session.completed && t.session.passed == s.session.passed
      && t.gateway == Gateway(map[], map[], [], [], s.gateway.issued, s.gateway.history)
  {
  }

  /** Other sessions go on as they like: they save their own records, get their own grants and may revoke any. */
  lemma OthersGoOn(w: Workflow, s: State, record: EvidenceRecord, grant: AccessGrant, id: string)
    ensures record.sessionId != w.sessionId && Agrees(record) ==>
              Step(w, s, SaveElsewhere(record)) == s.(queue := s.queue + [record])
    ensures grant.sessionId != w.sessionId && grant.status == Active && grant.id !in IssuedIds(s.gateway.issued) ==>
              Step(w, s, GrantElsewhere(grant))
              == s.(gateway := s.gateway.(grants := s.gateway.grants[grant.id := grant], issued := s.gateway.issued + [grant]))
    ensures id in s.gateway.grants ==>
              Step(w, s, RevokeAny(id))
              == s.(gateway := s.gateway.(grants := s.gateway.grants[id := s.gateway.grants[id].(status := Revoked)]))
  {
  }

  // ---------- whole runs ----------

  /** How many reads have been looked up and are not denied yet. */
  function Reads(g: Gateway): nat {
    |g.looking| + |g.reading| + |g.history|
  }

  predicate LooksSomethingUp(s: State, e: Event) {
    e.BeginRead? && e.grantId in s.gateway.grants
  }

  /** Reads are conserved: only a lookup adds one, and nothing doubles one. */
  lemma ReadsAreConserved(w: Workflow, s: State, e: Event)
    ensures Reads(Step(w, s, e).gateway) <= Reads(s.gateway) + if LooksSomethingUp(s, e) then 1 else 0
    ensures s.gateway.history <= Step(w, s, e).gateway.history
  {
    hide Evaluate, Gate.RefsOf, Gate.Recorded, WithGrant, AfterRevoke, DependencyEvidence, Assessed, SourcesOf, Upserted;
    match e
    case Begin(task, agent, token, now) => IssueKeepsReads(s.gateway, NewGrant(token, w.sessionId, task.Id(), agent, now));
    case GrantElsewhere(grant) => IssueKeepsReads(s.gateway, grant);
    case _ =>
  }

  lemma IssueKeepsReads(g: Gateway, grant: AccessGrant)
    ensures var t := WithGrant(g, grant);
      t.looking == g.looking && t.reading == g.reading && t.history == g.history && t.refs == g.refs
  {
  }

  /** As long as the process lives, records only grow, and by exactly the read that ended. */
  lemma StepRecords(w: Workflow, s: State, e: Event, h: Gate.Holder, ref: Text)
    requires e != Crash
    ensures var g, t := s.gateway, Step(w, s, e).gateway;
      && g.history <= t.history && |t.history| <= |g.history| + 1
      && (ref in RefsFor(t.refs, h) <==>
           ref in RefsFor(g.refs, h) || (|t.history| > |g.history| && IsReadOf(t.history[|g.history|], h, ref)))
  {
    hide Evaluate, WithGrant, AfterRevoke, DependencyEvidence, Assessed, SourcesOf, Upserted;
    match e
    case Begin(task, agent, token, now) => IssueKeepsReads(s.gateway, NewGrant(token, w.sessionId, task.Id(), agent, now));
    case GrantElsewhere(grant) => IssueKeepsReads(s.gateway, grant);
    case EndRead(k, found) =>
      if k < |s.gateway.reading| { ReadsEndExactly(s.gateway, k, found); }
    case _ =>
  }

  /** Some read of the history from the `n`-th on is one of the source, on behalf of the holder. */
  ghost predicate ReadSince(history: seq<Read>, n: nat, h: Gate.Holder, ref: Text) {
    exists k :: n <= k < |history| && IsReadOf(history[k], h, ref)
  }

  /** The process that is running was started by the last of these events, or by none. */
  predicate StartsAfresh(events: seq<Event>) {
    events == [] || events[|events| - 1] == Crash
  }

  /**
    * In every state, the sources recorded for a holder are exactly those of the reads that ended for it in the present
    * process: none is missing, and none is left from before a crash.
    */
  lemma {:induction false} RecordsAreReads(w: Workflow, shelf: Shelf, events: seq<Event>, later: seq<Event>, h: Gate.Holder, ref: Text)
    requires StartsAfresh(events) && Crash !in later
    ensures var n, g := |Steps(w, shelf, events).gateway.history|, Steps(w, shelf, events + later).gateway;
      n <= |g.history| && (ref in RefsFor(g.refs, h) <==> ReadSince(g.history, n, h, ref))
  {
    hide Step, IsReadOf;
    if later == [] {
      assert events + later == events;
      FreshRecords(w, shelf, events, h);
    } else {
      var init, last := later[..|later| - 1], later[|later| - 1];
      assert (events + later)[..|events + later| - 1] == events + init;
      assert forall e :: e in init ==> e in later;
      RecordsAreReads(w, shelf, events, init, h, ref);
      var s := Steps(w, shelf, events + init);
      StepRecords(w, s, last, h, ref);
      var before, after := s.gateway.history, Step(w, s, last).gateway.history;
      assert forall k :: 0 <= k < |before| ==> before[k] == after[k];
    }
  }

  lemma FreshRecords(w: Workflow, shelf: Shelf, events: seq<Event>, h: Gate.Holder)
    requires StartsAfresh(events)
    ensures RefsFor(Steps(w, shelf, events).gateway.refs, h) == {}
  {
    if events != [] {
      CrashForgets(Steps(w, shelf, events[..|events| - 1]));
    }
  }
}
