/** What the first-in-first-out order of an accepted workflow looks like. */
module TopologicalOrder {
  import opened Sequences
  import opened TaskGraph
  import opened TaskDefinitions
  import opened DagValidator

  // ---------- it is determined by the definitions ----------

  lemma ReleasePositionAgrees(a: seq<string>, b: seq<string>, n: nat, deps: seq<string>, ra: int, rb: int)
    requires Distinct(b) && n <= |a| && n <= |b| && a[..n] == b[..n]
    requires ReleasedAt(a, deps, ra) && ReleasedAt(b, deps, rb) && ra < n
    ensures ra == rb
  {
    assert forall i :: 0 <= i < n ==> a[..n][i] == a[i] && b[..n][i] == b[i];
    if ra >= 0 {
      assert a[ra] in deps && a[ra] in b[..rb + 1];
    }
    if rb >= 0 {
      assert b[rb] in deps && b[rb] in a[..ra + 1];
    }
  }

  /** Two first-in-first-out orders of the same tasks cannot part at position `n`. */
  lemma NextAgrees(g: Graph, ids: seq<string>, a: seq<string>, b: seq<string>, n: nat)
    requires IsOrder(g, a) && Fifo(g, ids, a) && IsOrder(g, b) && Fifo(g, ids, b)
    requires n < |a| && n < |b| && a[..n] == b[..n] && b[n] in a && a[n] in b
    ensures a[n] == b[n]
  {
    hide IsOrder, AllIn, ReleasedAt;
    var ra :| ReleasedBy(g, a, ra) && ReleaseOrder(ids, a, ra);
    var rb :| ReleasedBy(g, b, rb) && ReleaseOrder(ids, b, rb);
    var j := IndexOf(a, b[n]);
    var k := IndexOf(b, a[n]);
    IsOrderIsDistinct(g, a);
    IsOrderIsDistinct(g, b);
    assert forall i :: 0 <= i < n ==> a[..n][i] == a[i] && b[..n][i] == b[i];
    assert j >= n && k >= n;
    ReleasePositionAgrees(a, b, n, g[a[n]], ra[n], rb[k]);
    ReleasePositionAgrees(b, a, n, g[b[n]], rb[n], ra[j]);
  }

  lemma IsOrderIsDistinct(g: Graph, order: seq<string>)
    requires IsOrder(g, order)
    ensures Distinct(order)
  {
  }

  /** The definitions determine the order: any two complete ones are the same. */
  lemma {:induction false} FifoIsUnique(g: Graph, ids: seq<string>, a: seq<string>, b: seq<string>)
    requires IsOrder(g, a) && Fifo(g, ids, a) && forall t :: t in g ==> t in a
    requires IsOrder(g, b) && Fifo(g, ids, b) && forall t :: t in g ==> t in b
    ensures a == b
  {
    hide Fifo;
    FifoPrefixAgrees(g, ids, a, b, |a|);
    FifoPrefixAgrees(g, ids, b, a, |b|);
    assert a[..|a|] == a && b[..|b|] == b;
  }

  lemma {:induction false} FifoPrefixAgrees(g: Graph, ids: seq<string>, a: seq<string>, b: seq<string>, n: nat)
    requires IsOrder(g, a) && Fifo(g, ids, a) && forall t :: t in g ==> t in a
    requires IsOrder(g, b) && Fifo(g, ids, b) && forall t :: t in g ==> t in b
    requires n <= |a|
    ensures n <= |b| && a[..n] == b[..n]
  {
    hide Fifo, IsOrder;
    if n > 0 {
      FifoPrefixAgrees(g, ids, a, b, n - 1);
      MembersExist(g, a);
      MembersExist(g, b);
      NotBefore(g, a, b, n - 1);
      assert b[n - 1] in a;
      NextAgrees(g, ids, a, b, n - 1);
      OneFurther(a, b, n - 1);
    }
  }

  lemma MembersExist(g: Graph, order: seq<string>)
    requires IsOrder(g, order)
    ensures forall i :: 0 <= i < |order| ==> order[i] in g
  {
    hide AllIn;
  }

  /** What comes next in one order lies beyond the common part in the other. */
  lemma NotBefore(g: Graph, a: seq<string>, b: seq<string>, n: nat)
    requires IsOrder(g, a) && n < |a| && n <= |b| && a[..n] == b[..n] && a[n] in b
    ensures n < |b|
  {
    hide AllIn;
    var k := IndexOf(b, a[n]);
    assert forall i :: 0 <= i < n ==> b[i] == b[..n][i] == a[..n][i] == a[i];
    assert k >= n;
  }

  lemma OneFurther(a: seq<string>, b: seq<string>, n: nat)
    requires n < |a| && n < |b| && a[..n] == b[..n] && a[n] == b[n]
    ensures a[..n + 1] == b[..n + 1]
  {
    assert a[..n + 1] == a[..n] + [a[n]] && b[..n + 1] == b[..n] + [b[n]];
  }

  // ---------- it is sorted by depth ----------

  /** The length of the chain of releases that leads to position `i`. */
  ghost function LevelAt(rel: seq<int>, i: nat): nat
    requires i < |rel| && forall k :: 0 <= k < |rel| ==> rel[k] < k
  {
    if rel[i] < 0 then 0 else LevelAt(rel, rel[i]) + 1
  }

  lemma {:induction false} LevelsAscend(rel: seq<int>, i: nat, j: nat)
    requires i <= j < |rel| && forall k :: 0 <= k < |rel| ==> rel[k] < k
    requires forall a, b :: 0 <= a < b < |rel| ==> rel[a] <= rel[b]
    ensures LevelAt(rel, i) <= LevelAt(rel, j)
    decreases j
  {
    if rel[i] >= 0 {
      assert rel[i] <= rel[j];
      LevelsAscend(rel, rel[i], rel[j]);
    }
  }

  lemma {:induction false} LongestChain(g: Graph, order: seq<string>, rel: seq<int>, i: nat) returns (c: seq<string>)
    requires ReleasedBy(g, order, rel) && i < |order|
    ensures IsChain(g, c) && Last(c) == order[i] && |c| == LevelAt(rel, i) + 1
    decreases i
  {
    hide IsChain, AllIn;
    assert ReleasedAt(order, g[order[i]], rel[i]);
    if rel[i] < 0 {
      c := [order[i]];
      SingletonChain(g, order[i]);
    } else {
      var b := LongestChain(g, order, rel, rel[i]);
      ExtendChain(g, b, order[i]);
      c := b + [order[i]];
    }
  }

  lemma {:induction false} NoLongerChain(g: Graph, order: seq<string>, rel: seq<int>, i: nat, c: seq<string>)
    requires IsOrder(g, order) && ReleasedBy(g, order, rel) && i < |order|
    requires forall a, b :: 0 <= a < b < |rel| ==> rel[a] <= rel[b]
    requires IsChain(g, c) && Last(c) == order[i]
    ensures |c| <= LevelAt(rel, i) + 1
    decreases |c|
  {
    if |c| > 1 {
      var init := c[..|c| - 1];
      SubChain(g, c, 0, |c| - 1);
      assert Last(init) in g[order[i]];
      assert ReleasedAt(order, g[order[i]], rel[i]);
      var p := PositionUpTo(order, g[order[i]], rel[i], Last(init));
      NoLongerChain(g, order, rel, p, init);
      LevelsAscend(rel, p, rel[i]);
    }
  }

  lemma PositionUpTo(order: seq<string>, deps: seq<string>, r: int, d: string) returns (p: nat)
    requires ReleasedAt(order, deps, r) && d in deps
    ensures p <= r < |order| && order[p] == d
  {
    assert d in order[..r + 1];
    p :| 0 <= p < r + 1 && order[..r + 1][p] == d;
  }

  /** Earlier in the order is never deeper in the graph. */
  lemma {:induction false} SortedByDepth(g: Graph, ids: seq<string>, order: seq<string>, i: nat, j: nat) returns (m: nat, n: nat)
    requires IsOrder(g, order) && Fifo(g, ids, order) && i <= j < |order|
    ensures HasDepth(g, order[i], m) && HasDepth(g, order[j], n) && m <= n
  {
    var rel :| ReleasedBy(g, order, rel) && ReleaseOrder(ids, order, rel);
    m := DepthAt(g, ids, order, rel, i);
    n := DepthAt(g, ids, order, rel, j);
    LevelsAscend(rel, i, j);
  }

  lemma DepthAt(g: Graph, ids: seq<string>, order: seq<string>, rel: seq<int>, i: nat) returns (n: nat)
    requires IsOrder(g, order) && ReleasedBy(g, order, rel) && ReleaseOrder(ids, order, rel) && i < |order|
    ensures HasDepth(g, order[i], n) && n == LevelAt(rel, i)
  {
    hide IsOrder, AllIn, ReleasedAt;
    n := LevelAt(rel, i);
    var c := LongestChain(g, order, rel, i);
    forall b | IsChain(g, b) && Last(b) == order[i]
      ensures |b| <= n + 1
    {
      NoLongerChain(g, order, rel, i, b);
    }
  }

  // ---------- when equal depth keeps definition order ----------

  predicate DefinedBefore(ids: seq<string>, x: string, y: string) {
    x in ids && y in ids && IndexOf(ids, x) < IndexOf(ids, y)
  }

  /** Tasks of depth `n` stand in the order in which they are defined. */
  ghost predicate KeepsAt(g: Graph, ids: seq<string>, order: seq<string>, n: nat) {
    forall i, j :: 0 <= i < j < |order| && HasDepth(g, order[i], n) && HasDepth(g, order[j], n) ==>
      DefinedBefore(ids, order[i], order[j])
  }

  /** Of the deepest dependencies of `t`, a task of depth `n`, the one defined last. */
  ghost predicate Latest(g: Graph, ids: seq<string>, t: string, n: nat, d: string) {
    && t in g && n > 0 && d in g[t] && d in ids && HasDepth(g, d, n - 1)
    && forall e :: e in g[t] && HasDepth(g, e, n - 1) ==> !DefinedBefore(ids, d, e)
  }

  /** The last-defined deepest dependencies of tasks of depth `n` are defined in the order of these tasks. */
  ghost predicate AgreesAt(g: Graph, ids: seq<string>, n: nat) {
    forall a, b, d, e ::
      HasDepth(g, a, n) && HasDepth(g, b, n) && Latest(g, ids, a, n, d) && Latest(g, ids, b, n, e) && DefinedBefore(ids, a, b) ==>
        !DefinedBefore(ids, e, d)
  }

  /** A task below the roots is released by a dependency one level up, the last of its dependencies in the order. */
  lemma ReleaserBefore(g: Graph, ids: seq<string>, order: seq<string>, rel: seq<int>, i: nat, n: nat)
    requires IsOrder(g, order) && ReleasedBy(g, order, rel) && ReleaseOrder(ids, order, rel) && i < |order|
    requires HasDepth(g, order[i], n) && n > 0
    ensures i < |rel| && 0 <= rel[i] < i && order[i] in g && ReleasedAt(order, g[order[i]], rel[i])
    ensures order[rel[i]] in ids && HasDepth(g, order[rel[i]], n - 1)
  {
    hide IsOrder, AllIn, HasDepth, ReleasedAt;
    var m := DepthAt(g, ids, order, rel, i);
    DepthIsUnique(g, order[i], m, n);
    var l := DepthAt(g, ids, order, rel, rel[i]);
  }

  /** Where all tasks of depth `n - 1` stand in definition order, the one that releases a task is the one defined last. */
  lemma ReleaserIsLatest(g: Graph, ids: seq<string>, order: seq<string>, rel: seq<int>, i: nat, n: nat)
    requires IsOrder(g, order) && ReleasedBy(g, order, rel) && ReleaseOrder(ids, order, rel) && i < |order|
    requires HasDepth(g, order[i], n) && n > 0 && KeepsAt(g, ids, order, n - 1)
    ensures i < |rel| && 0 <= rel[i] < i && Latest(g, ids, order[i], n, order[rel[i]])
  {
    hide IsOrder, HasDepth, ReleasedBy, ReleaseOrder, AllIn;
    ReleaserBefore(g, ids, order, rel, i, n);
    var r := rel[i];
    forall e | e in g[order[i]] && HasDepth(g, e, n - 1)
      ensures !DefinedBefore(ids, order[r], e)
    {
      hide ReleasedAt;
      var p := PositionUpTo(order, g[order[i]], r, e);
      assert p < r ==> DefinedBefore(ids, order[p], order[r]);
    }
  }

  lemma LatestIsOne(g: Graph, ids: seq<string>, t: string, n: nat, d: string, e: string)
    requires Latest(g, ids, t, n, d) && Latest(g, ids, t, n, e)
    ensures d == e
  {
    hide HasDepth;
    assert ids[IndexOf(ids, d)] == d && ids[IndexOf(ids, e)] == e;
  }

  lemma NotBeforeIsAfter(ids: seq<string>, x: string, y: string)
    requires x in ids && y in ids
    ensures DefinedBefore(ids, x, y) || DefinedBefore(ids, y, x) || x == y
    ensures DefinedBefore(ids, x, y) ==> !DefinedBefore(ids, y, x) && x != y
  {
    assert ids[IndexOf(ids, x)] == x && ids[IndexOf(ids, y)] == y;
  }

  /** An earlier task was released no later, and is defined earlier if released at the same time. */
  lemma EarlierIsReleasedFirst(ids: seq<string>, order: seq<string>, rel: seq<int>, i: nat, j: nat)
    requires ReleaseOrder(ids, order, rel) && i < j < |order|
    ensures order[i] in ids && order[j] in ids && rel[i] <= rel[j]
    ensures rel[i] == rel[j] ==> DefinedBefore(ids, order[i], order[j])
  {
  }

  lemma StandsAsDefined(g: Graph, ids: seq<string>, order: seq<string>, n: nat, i: nat, j: nat)
    requires KeepsAt(g, ids, order, n) && i < |order| && j < |order| && HasDepth(g, order[i], n) && HasDepth(g, order[j], n)
    requires DefinedBefore(ids, order[i], order[j])
    ensures i < j
  {
    hide HasDepth;
  }

  lemma DefinedAsStands(g: Graph, ids: seq<string>, order: seq<string>, n: nat, i: nat, j: nat)
    requires KeepsAt(g, ids, order, n) && i <= j < |order| && HasDepth(g, order[i], n) && HasDepth(g, order[j], n)
    ensures !DefinedBefore(ids, order[j], order[i])
  {
    hide HasDepth;
  }

  lemma PairAgrees(g: Graph, ids: seq<string>, order: seq<string>, rel: seq<int>, n: nat, i: nat, j: nat)
    requires IsOrder(g, order) && ReleasedBy(g, order, rel) && ReleaseOrder(ids, order, rel)
    requires n > 0 && KeepsAt(g, ids, order, n - 1) && KeepsAt(g, ids, order, n)
    requires i < |order| && j < |order| && HasDepth(g, order[i], n) && HasDepth(g, order[j], n)
    requires DefinedBefore(ids, order[i], order[j])
    ensures 0 <= rel[i] < i && 0 <= rel[j] < j && !DefinedBefore(ids, order[rel[j]], order[rel[i]])
  {
    hide IsOrder, HasDepth, DefinedBefore, ReleaseOrder, ReleasedBy, Latest, KeepsAt;
    ReleaserIsLatest(g, ids, order, rel, i, n);
    ReleaserIsLatest(g, ids, order, rel, j, n);
    ReleasersHaveDepth(g, ids, order[i], n, order[rel[i]]);
    ReleasersHaveDepth(g, ids, order[j], n, order[rel[j]]);
    StandsAsDefined(g, ids, order, n, i, j);
    EarlierIsReleasedFirst(ids, order, rel, i, j);
    DefinedAsStands(g, ids, order, n - 1, rel[i], rel[j]);
  }

  lemma PairKeeps(g: Graph, ids: seq<string>, order: seq<string>, rel: seq<int>, n: nat, i: nat, j: nat)
    requires IsOrder(g, order) && ReleasedBy(g, order, rel) && ReleaseOrder(ids, order, rel)
    requires n > 0 && KeepsAt(g, ids, order, n - 1) && AgreesAt(g, ids, n)
    requires i < j < |order| && HasDepth(g, order[i], n) && HasDepth(g, order[j], n)
    ensures DefinedBefore(ids, order[i], order[j])
  {
    IsOrderIsDistinct(g, order);
    ReleaserIsLatest(g, ids, order, rel, i, n);
    ReleaserIsLatest(g, ids, order, rel, j, n);
    hide IsOrder, HasDepth, DefinedBefore, Latest, ReleaseOrder, ReleasedBy;
    EarlierIsReleasedFirst(ids, order, rel, i, j);
    NotBeforeIsAfter(ids, order[i], order[j]);
    assert rel[i] < rel[j] ==> DefinedBefore(ids, order[rel[i]], order[rel[j]]) by {
      ReleasersHaveDepth(g, ids, order[i], n, order[rel[i]]);
      ReleasersHaveDepth(g, ids, order[j], n, order[rel[j]]);
    }
  }

  lemma ReleasersHaveDepth(g: Graph, ids: seq<string>, t: string, n: nat, d: string)
    requires Latest(g, ids, t, n, d)
    ensures t in g && n > 0 && d in ids && HasDepth(g, d, n - 1)
  {
    hide HasDepth;
  }

  /** One level: when the level below keeps definition order, this one does exactly when the definitions agree on it. */
  lemma LevelKeepsExactly(g: Graph, ids: seq<string>, order: seq<string>, n: nat)
    requires IsOrder(g, order) && Fifo(g, ids, order) && (forall t :: t in g ==> t in order)
    requires n > 0 && KeepsAt(g, ids, order, n - 1)
    ensures KeepsAt(g, ids, order, n) <==> AgreesAt(g, ids, n)
  {
    hide IsOrder, HasDepth, Latest, ReleasedBy, ReleaseOrder, DefinedBefore;
    var rel :| ReleasedBy(g, order, rel) && ReleaseOrder(ids, order, rel);
    if KeepsAt(g, ids, order, n) {
      forall a, b, d, e | HasDepth(g, a, n) && HasDepth(g, b, n) && Latest(g, ids, a, n, d) && Latest(g, ids, b, n, e)
                          && DefinedBefore(ids, a, b)
        ensures !DefinedBefore(ids, e, d)
      {
        ReleasersHaveDepth(g, ids, a, n, d);
        ReleasersHaveDepth(g, ids, b, n, e);
        var i, j := IndexOf(order, a), IndexOf(order, b);
        PairAgrees(g, ids, order, rel, n, i, j);
        ReleaserIsLatest(g, ids, order, rel, i, n);
        ReleaserIsLatest(g, ids, order, rel, j, n);
        LatestIsOne(g, ids, a, n, d, order[rel[i]]);
        LatestIsOne(g, ids, b, n, e, order[rel[j]]);
      }
    }
    if AgreesAt(g, ids, n) {
      forall i, j | 0 <= i < j < |order| && HasDepth(g, order[i], n) && HasDepth(g, order[j], n)
        ensures DefinedBefore(ids, order[i], order[j])
      {
        PairKeeps(g, ids, order, rel, n, i, j);
      }
    }
  }

  lemma RootsKeep(g: Graph, ids: seq<string>, order: seq<string>)
    requires IsOrder(g, order) && Fifo(g, ids, order)
    ensures KeepsAt(g, ids, order, 0)
  {
    hide IsOrder, HasDepth, DefinedBefore, AllIn;
    var rel :| ReleasedBy(g, order, rel) && ReleaseOrder(ids, order, rel);
    forall i, j | 0 <= i < j < |order| && HasDepth(g, order[i], 0) && HasDepth(g, order[j], 0)
      ensures DefinedBefore(ids, order[i], order[j])
    {
      var m := DepthAt(g, ids, order, rel, i);
      var n := DepthAt(g, ids, order, rel, j);
      DepthIsUnique(g, order[i], m, 0);
      DepthIsUnique(g, order[j], n, 0);
      assert ReleasedAt(order, g[order[i]], rel[i]) && ReleasedAt(order, g[order[j]], rel[j]);
      EarlierIsReleasedFirst(ids, order, rel, i, j);
    }
  }

  /**
    * Tasks of equal depth come out in definition order, at every depth, if and only if at every depth the tasks are defined
    * in the order of their last-defined deepest dependencies.
    */
  lemma TiesKeepDefinitionOrderExactly(g: Graph, ids: seq<string>, order: seq<string>)
    requires IsOrder(g, order) && Fifo(g, ids, order) && forall t :: t in g ==> t in order
    ensures (forall n: nat :: KeepsAt(g, ids, order, n)) <==> (forall n: nat :: n > 0 ==> AgreesAt(g, ids, n))
  {
    hide IsOrder, Fifo, KeepsAt, AgreesAt;
    if forall n: nat :: KeepsAt(g, ids, order, n) {
      forall n: nat | n > 0 ensures AgreesAt(g, ids, n) {
        assert KeepsAt(g, ids, order, n - 1);
        LevelKeepsExactly(g, ids, order, n);
      }
    }
    if forall n: nat :: n > 0 ==> AgreesAt(g, ids, n) {
      forall n: nat ensures KeepsAt(g, ids, order, n) { AgreementKeeps(g, ids, order, n); }
    }
  }

  lemma {:induction false} AgreementKeeps(g: Graph, ids: seq<string>, order: seq<string>, n: nat)
    requires IsOrder(g, order) && Fifo(g, ids, order) && forall t :: t in g ==> t in order
    requires forall k: nat :: 0 < k <= n ==> AgreesAt(g, ids, k)
    ensures KeepsAt(g, ids, order, n)
  {
    hide IsOrder, Fifo, KeepsAt, AgreesAt;
    if n == 0 {
      RootsKeep(g, ids, order);
    } else {
      AgreementKeeps(g, ids, order, n - 1);
      LevelKeepsExactly(g, ids, order, n);
    }
  }

  /** Tasks that wait for the same dependencies are released together, and do keep definition order. */
  lemma SameDependenciesKeepOrder(g: Graph, ids: seq<string>, order: seq<string>, i: nat, j: nat)
    requires IsOrder(g, order) && Fifo(g, ids, order) && i < j < |order|
    requires forall d :: d in g[order[i]] <==> d in g[order[j]]
    ensures DefinedBefore(ids, order[i], order[j])
  {
    hide IsOrder, DefinedBefore, ReleaseOrder;
    IsOrderIsDistinct(g, order);
    var rel :| ReleasedBy(g, order, rel) && ReleaseOrder(ids, order, rel);
    ReleasedTogether(order, g[order[i]], g[order[j]], rel[i], rel[j]);
    ReleasedTogether(order, g[order[j]], g[order[i]], rel[j], rel[i]);
    EarlierIsReleasedFirst(ids, order, rel, i, j);
  }

  lemma ReleasedTogether(order: seq<string>, deps: seq<string>, others: seq<string>, r: int, q: int)
    requires Distinct(order) && ReleasedAt(order, deps, r) && ReleasedAt(order, others, q)
    requires forall d :: d in deps ==> d in others
    ensures r <= q
  {
    if r >= 0 {
      var p := PositionUpTo(order, others, q, order[r]);
    }
  }

  // ---------- equal depth does not keep definition order ----------

  function Plain(id: string, deps: seq<string>): TaskDefinition {
    TaskDefinition(id, "work", [], deps, 1)
  }

  /** The second dependent is released first, because it waits for the first root. */
  const CROSSED := [Plain("a", []), Plain("b", []), Plain("c", ["b"]), Plain("d", ["a"])]

  /** Among tasks of equal depth, the one defined later can come first. */
  lemma TiesLeaveDefinitionOrder(order: seq<string>)
    requires IsOrder(GraphOf(CROSSED), order) && Fifo(GraphOf(CROSSED), Ids(CROSSED), order)
    requires forall t :: t in GraphOf(CROSSED) ==> t in order
    ensures order == ["a", "b", "d", "c"] && Ids(CROSSED) == ["a", "b", "c", "d"]
    ensures HasDepth(GraphOf(CROSSED), "c", 1) && HasDepth(GraphOf(CROSSED), "d", 1)
  {
    CrossedGraph();
    CrossedIsUnique(GraphOf(CROSSED), Ids(CROSSED), order);
    CrossedDepths(GraphOf(CROSSED), Ids(CROSSED));
  }

  lemma CrossedIsUnique(g: Graph, ids: seq<string>, order: seq<string>)
    requires g == map["a" := [], "b" := [], "c" := ["b"], "d" := ["a"]] && ids == ["a", "b", "c", "d"]
    requires IsOrder(g, order) && Fifo(g, ids, order) && forall t :: t in g ==> t in order
    ensures order == ["a", "b", "d", "c"]
  {
    var crossed, rel := ["a", "b", "d", "c"], [-1, -1, 0, 1];
    CrossedOrder(g);
    CrossedRelease();
    hide IsOrder, ReleasedBy, ReleaseOrder;
    assert forall t :: t in g ==> t in crossed;
    assert Fifo(g, ids, crossed);
    hide Fifo;
    FifoIsUnique(g, ids, order, crossed);
  }

  lemma CrossedDepths(g: Graph, ids: seq<string>)
    requires g == map["a" := [], "b" := [], "c" := ["b"], "d" := ["a"]] && ids == ["a", "b", "c", "d"]
    ensures HasDepth(g, "c", 1) && HasDepth(g, "d", 1)
  {
    var crossed, rel := ["a", "b", "d", "c"], [-1, -1, 0, 1];
    CrossedOrder(g);
    CrossedRelease();
    CrossedLevels();
    hide IsOrder, ReleasedBy, ReleaseOrder, HasDepth, LevelAt;
    var m := DepthAt(g, ids, crossed, rel, 2);
    var n := DepthAt(g, ids, crossed, rel, 3);
  }

  lemma CrossedLevels()
    ensures LevelAt([-1, -1, 0, 1], 2) == 1 && LevelAt([-1, -1, 0, 1], 3) == 1
  {
    assert LevelAt([-1, -1, 0, 1], 0) == 0 && LevelAt([-1, -1, 0, 1], 1) == 0;
  }

  lemma CrossedRelease()
    ensures ReleaseOrder(["a", "b", "c", "d"], ["a", "b", "d", "c"], [-1, -1, 0, 1])
  {
    CrossedPositions();
  }

  lemma CrossedPositions()
    ensures var ids := ["a", "b", "c", "d"];
      IndexOf(ids, "a") == 0 && IndexOf(ids, "b") == 1 && IndexOf(ids, "c") == 2 && IndexOf(ids, "d") == 3
  {
    var ids := ["a", "b", "c", "d"];
    assert ids[0] == "a" && ids[1] == "b" && ids[2] == "c" && ids[3] == "d";
    IndexOfDistinct(ids, 0);
    IndexOfDistinct(ids, 1);
    IndexOfDistinct(ids, 2);
    IndexOfDistinct(ids, 3);
  }

  lemma CrossedGraph()
    ensures GraphOf(CROSSED) == map["a" := [], "b" := [], "c" := ["b"], "d" := ["a"]]
    ensures Ids(CROSSED) == ["a", "b", "c", "d"]
  {
    var ids := Ids(CROSSED);
    assert Distinct(ids);
    GraphAt(CROSSED, 0);
    GraphAt(CROSSED, 1);
    GraphAt(CROSSED, 2);
    GraphAt(CROSSED, 3);
  }

  lemma CrossedOrder(g: Graph)
    requires g == map["a" := [], "b" := [], "c" := ["b"], "d" := ["a"]]
    ensures IsOrder(g, ["a", "b", "d", "c"])
    ensures ReleasedBy(g, ["a", "b", "d", "c"], [-1, -1, 0, 1])
  {
    var o := ["a", "b", "d", "c"];
    assert o[..2][0] == "a" && o[..3][1] == "b" && o[..1][0] == "a" && o[..2][1] == "b";
  }
}
