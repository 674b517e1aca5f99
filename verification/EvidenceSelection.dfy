/** Which records of the store a task is passed, shown and allowed to build on, told from the stored list alone. */
module EvidenceSelection {
  import opened Sequences
  import opened JsonText
  import opened EvidenceAcceptance
  import opened RelayStore
  import opened Provenance

  // ---------- the two filters ----------

  /** Both computations select the same records in the same order. */
  lemma CapsuleIsDependencyEvidence(w: Workflow, shelf: Shelf, t: string)
    requires t in w.graph
    ensures CapsuleEvidence(w, shelf, t) == DependencyEvidence(w, shelf, t)
  {
    hide Filter;
    var tasks := w.graph[t];
    FilterTwice(OfTasks(tasks), Usable(w), shelf);
    FilterTwice(OfSession(w), OfTasks(tasks), shelf);
    FilterTwice(Both(OfSession(w), OfTasks(tasks)), IsAccepted(), shelf);
    FilterAgrees(Both(OfTasks(tasks), Usable(w)), Both(Both(OfSession(w), OfTasks(tasks)), IsAccepted()), shelf);
  }

  // ---------- the selection ----------

  /** The record belongs to the session, is accepted, and comes from a task that `t` depends on. */
  predicate Qualifies(w: Workflow, r: EvidenceRecord, t: string)
    requires t in w.graph
  {
    r.sessionId == w.sessionId && r.status == Accepted && r.taskId in w.graph[t]
  }

  /** The evidence is what stands at these positions of the list, which are those of all qualifying records, in order. */
  ghost predicate Selects(w: Workflow, shelf: Shelf, t: string, evidence: seq<EvidenceRecord>, picks: seq<nat>)
    requires t in w.graph
  {
    && |picks| == |evidence| && Rising(picks)
    && (forall j :: 0 <= j < |picks| ==> picks[j] < |shelf| && evidence[j] == shelf[picks[j]].value)
    && forall i :: i in picks <==> 0 <= i < |shelf| && Qualifies(w, shelf[i].value, t)
  }

  ghost predicate IsSelection(w: Workflow, shelf: Shelf, t: string, evidence: seq<EvidenceRecord>)
    requires t in w.graph
  {
    exists picks: seq<nat> :: Selects(w, shelf, t, evidence, picks)
  }

  /** What the coordinator passes on, and what the dashboard shows, are the qualifying records of the list, each in its place. */
  lemma DependencyEvidenceExactly(w: Workflow, shelf: Shelf, t: string)
    requires t in w.graph
    ensures IsSelection(w, shelf, t, DependencyEvidence(w, shelf, t))
    ensures IsSelection(w, shelf, t, CapsuleEvidence(w, shelf, t))
  {
    CapsuleIsDependencyEvidence(w, shelf, t);
    FilterTwice(OfTasks(w.graph[t]), Usable(w), shelf);
    var keep := Both(OfTasks(w.graph[t]), Usable(w));
    var picks := FilterPicks(keep, shelf);
    forall i ensures i in picks <==> 0 <= i < |shelf| && Qualifies(w, shelf[i].value, t) {
      assert 0 <= i < |shelf| ==> (keep(shelf[i]) <==> Qualifies(w, shelf[i].value, t));
    }
    assert Selects(w, shelf, t, DependencyEvidence(w, shelf, t), picks);
  }

  /** A record is selected exactly when it qualifies and some item of the list holds it. */
  lemma SelectedExactly(w: Workflow, shelf: Shelf, t: string, evidence: seq<EvidenceRecord>, r: EvidenceRecord)
    requires t in w.graph && IsSelection(w, shelf, t, evidence)
    ensures r in evidence <==> exists i :: 0 <= i < |shelf| && shelf[i].value == r && Qualifies(w, r, t)
  {
    var picks: seq<nat> :| Selects(w, shelf, t, evidence, picks);
    if r in evidence {
      var j :| 0 <= j < |evidence| && evidence[j] == r;
      assert picks[j] in picks;
    }
    if i :| 0 <= i < |shelf| && shelf[i].value == r && Qualifies(w, r, t) {
      assert i in picks;
      var j :| 0 <= j < |picks| && picks[j] == i;
      assert evidence[j] == r;
    }
  }

  /** Some qualifying record of the list names the source. */
  ghost predicate NamedByDependencies(w: Workflow, shelf: Shelf, t: string, ref: Text)
    requires t in w.graph
  {
    exists i :: 0 <= i < |shelf| && Qualifies(w, shelf[i].value, t) && ref in shelf[i].value.sourceRefs
  }

  lemma SourcesExactly(records: seq<EvidenceRecord>, ref: Text)
    ensures ref in SourcesOf(records) <==> exists r :: r in records && ref in r.sourceRefs
  {
    if r :| r in records && ref in r.sourceRefs {
      var i :| 0 <= i < |records| && records[i] == r;
      var j :| 0 <= j < |r.sourceRefs| && r.sourceRefs[j] == ref;
      assert records[i].sourceRefs[j] == ref;
    }
  }

  /** The sources a task inherits are exactly those that the accepted evidence of its dependencies names. */
  lemma InheritedExactly(w: Workflow, shelf: Shelf, t: string, ref: Text)
    requires t in w.graph
    ensures ref in SourcesOf(DependencyEvidence(w, shelf, t)) <==> NamedByDependencies(w, shelf, t, ref)
  {
    hide SourcesOf, DependencyEvidence, IsSelection, Qualifies;
    var evidence := DependencyEvidence(w, shelf, t);
    DependencyEvidenceExactly(w, shelf, t);
    SourcesExactly(evidence, ref);
    if ref in SourcesOf(evidence) {
      var r :| r in evidence && ref in r.sourceRefs;
      SelectedExactly(w, shelf, t, evidence, r);
    }
    if NamedByDependencies(w, shelf, t, ref) {
      var i :| 0 <= i < |shelf| && Qualifies(w, shelf[i].value, t) && ref in shelf[i].value.sourceRefs;
      SelectedExactly(w, shelf, t, evidence, shelf[i].value);
    }
  }
}
