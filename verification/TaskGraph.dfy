/** Dependency graphs of workflow tasks: chains, cycles and depth. */
module TaskGraph {
  import opened Sequences

  /** Each task with the ids it depends on, in declaration order and possibly repeated. */
  type Graph = map<string, seq<string>>

  /** Every dependency is itself a task. */
  ghost predicate Closed(g: Graph) {
    forall t :: t in g ==> forall d :: d in g[t] ==> d in g
  }

  /** A dependency chain: each task depends on the one before it. */
  ghost predicate IsChain(g: Graph, c: seq<string>) {
    && c != []
    && (forall i :: 0 <= i < |c| ==> c[i] in g)
    && (forall i, j :: 0 <= i < j < |c| && j == i + 1 ==> c[i] in g[c[j]])
  }

  function Last(c: seq<string>): string
    requires c != []
  {
    c[|c| - 1]
  }

  /** `to` is `from` or depends on it, directly or through others. */
  ghost predicate Reaches(g: Graph, from: string, to: string) {
    exists c :: IsChain(g, c) && c[0] == from && Last(c) == to
  }

  ghost predicate OnCycle(g: Graph, t: string) {
    exists c :: IsChain(g, c) && |c| > 1 && c[0] == t && Last(c) == t
  }

  ghost predicate Acyclic(g: Graph) {
    forall t :: !OnCycle(g, t)
  }

  /** On a cycle, or transitively dependent on one. */
  ghost predicate Doomed(g: Graph, t: string) {
    exists x :: OnCycle(g, x) && Reaches(g, x, t)
  }

  lemma ExtendChain(g: Graph, c: seq<string>, t: string)
    requires IsChain(g, c) && t in g && Last(c) in g[t]
    ensures IsChain(g, c + [t]) && Last(c + [t]) == t
  {
    var b := c + [t];
    forall i, j | 0 <= i < j < |b| && j == i + 1
      ensures b[i] in g[b[j]]
    {
      assert b[i] == c[i];
    }
  }

  lemma SingletonChain(g: Graph, t: string)
    requires t in g
    ensures IsChain(g, [t])
  {
  }

  lemma SubChain(g: Graph, c: seq<string>, i: nat, j: nat)
    requires IsChain(g, c) && i < j <= |c|
    ensures IsChain(g, c[i..j]) && c[i..j][0] == c[i] && Last(c[i..j]) == c[j - 1]
  {
  }

  // ---------- topological orders ----------

  ghost predicate AllIn<T>(s: seq<T>, all: seq<T>) {
    forall x :: x in s ==> x in all
  }

  /** Distinct tasks, each after everything it depends on. */
  ghost predicate IsOrder(g: Graph, order: seq<string>) {
    && Distinct(order)
    && (forall i :: 0 <= i < |order| ==> order[i] in g)
    && (forall i :: 0 <= i < |order| ==> AllIn(g[order[i]], order[..i]))
  }

  /** A chain that ends in an order lies wholly in it, at ascending positions. */
  lemma {:induction false} ChainInOrder(g: Graph, order: seq<string>, c: seq<string>, k: nat, at: nat) returns (p: nat)
    requires IsOrder(g, order) && IsChain(g, c) && at < |order| && order[at] == Last(c) && k < |c|
    ensures p < |order| && order[p] == c[k] && p + (|c| - 1 - k) <= at
    decreases |c|
  {
    if k == |c| - 1 {
      p := at;
    } else {
      var init := c[..|c| - 1];
      assert Last(init) in g[Last(c)];
      assert Last(init) in order[..at];
      var b :| 0 <= b < at && order[b] == Last(init);
      p := ChainInOrder(g, order, init, k, b);
    }
  }

  /** Nothing in an order is doomed. */
  lemma OrderedIsSafe(g: Graph, order: seq<string>, t: string)
    requires IsOrder(g, order) && t in order
    ensures !Doomed(g, t)
  {
    if Doomed(g, t) {
      var x :| OnCycle(g, x) && Reaches(g, x, t);
      var c :| IsChain(g, c) && c[0] == x && Last(c) == t;
      var at :| 0 <= at < |order| && order[at] == t;
      var p := ChainInOrder(g, order, c, 0, at);
      var loop :| IsChain(g, loop) && |loop| > 1 && loop[0] == x && Last(loop) == x;
      var q := ChainInOrder(g, order, loop, 0, p);
      assert false;
    }
  }

  ghost predicate WaitsOn(g: Graph, order: seq<string>, t: string)
    requires t in g
  {
    exists d :: d in g[t] && d !in order
  }

  /** Every task outside the order still waits on one outside it. */
  ghost predicate Stuck(g: Graph, order: seq<string>) {
    forall t :: t in g && t !in order ==> WaitsOn(g, order, t)
  }

  lemma Awaited(g: Graph, order: seq<string>, t: string) returns (d: string)
    requires Closed(g) && Stuck(g, order) && t in g && t !in order
    ensures d in g[t] && d in g && d !in order
  {
    assert WaitsOn(g, order, t);
    d :| d in g[t] && d !in order;
  }

  /** A chain of any length ending in `t`, when every task outside `order` has a dependency outside it. */
  lemma {:induction false} LongChain(g: Graph, order: seq<string>, t: string, n: nat) returns (c: seq<string>)
    requires Closed(g) && t in g && t !in order
    requires Stuck(g, order)
    ensures IsChain(g, c) && |c| == n + 1 && Last(c) == t
    decreases n
  {
    hide IsChain, Stuck, Closed;
    if n == 0 {
      c := [t];
      SingletonChain(g, t);
    } else {
      var d := Awaited(g, order, t);
      var b := LongChain(g, order, d, n - 1);
      ExtendChain(g, b, t);
      c := b + [t];
    }
  }

  /** A task left out because something it depends on was left out is on a cycle or depends on one. */
  lemma LeftOverIsDoomed(g: Graph, order: seq<string>, t: string)
    requires Closed(g) && t in g && t !in order
    requires Stuck(g, order)
    ensures Doomed(g, t)
  {
    var c := LongChain(g, order, t, |g|);
    hide Stuck, Closed, WaitsOn, Doomed;
    LongChainIsDoomed(g, c);
  }

  /** A chain with more positions than there are tasks goes round a cycle. */
  lemma LongChainIsDoomed(g: Graph, c: seq<string>)
    requires IsChain(g, c) && |c| > |g|
    ensures Doomed(g, Last(c))
  {
    assert forall x :: x in c ==> x in g.Keys;
    assert |g.Keys| == |g|;
    var i, j := Pigeonhole(c, g.Keys);
    hide IsChain;
    SubChain(g, c, i, j + 1);
    SubChain(g, c, i, |c|);
    assert OnCycle(g, c[i]) by { assert |c[i..j + 1]| > 1; }
    assert Reaches(g, c[i], Last(c)) by { assert c[i..|c|][0] == c[i]; }
  }

  /** An order that leaves out exactly the tasks with a dependency left out: it covers everything iff there is no cycle. */
  lemma CompleteExactlyWhenAcyclic(g: Graph, order: seq<string>)
    requires Closed(g) && IsOrder(g, order)
    requires Stuck(g, order)
    ensures forall t :: t in g ==> (t !in order <==> Doomed(g, t))
    ensures |order| == |g| <==> Acyclic(g)
    ensures |order| == |g| ==> forall t :: t in g ==> t in order
  {
    forall t | t in g
      ensures t !in order <==> Doomed(g, t)
    {
      if t in order { OrderedIsSafe(g, order, t); } else { LeftOverIsDoomed(g, order, t); }
    }
    DistinctFits(order, g.Keys);
    assert |g.Keys| == |g|;
    CyclesAreDoomed(g);
    if Acyclic(g) {
      assert forall t :: t in g.Keys ==> t in order;
      assert Elements(order) == g.Keys;
      DistinctSize(order);
    }
  }

  lemma CyclesAreDoomed(g: Graph)
    ensures forall x :: OnCycle(g, x) ==> Doomed(g, x) && x in g
  {
    forall x | OnCycle(g, x)
      ensures Doomed(g, x) && x in g
    {
      var loop :| IsChain(g, loop) && |loop| > 1 && loop[0] == x && Last(loop) == x;
      assert Reaches(g, x, x);
    }
  }

  // ---------- depth ----------

  /** The longest dependency chain that ends in `t` has `n + 1` tasks. */
  ghost predicate HasDepth(g: Graph, t: string, n: nat) {
    && (exists c :: IsChain(g, c) && Last(c) == t && |c| == n + 1)
    && (forall c :: IsChain(g, c) && Last(c) == t ==> |c| <= n + 1)
  }

  /** A task has one depth. */
  lemma DepthIsUnique(g: Graph, t: string, m: nat, n: nat)
    requires HasDepth(g, t, m) && HasDepth(g, t, n)
    ensures m == n
  {
    var b :| IsChain(g, b) && Last(b) == t && |b| == m + 1;
    var c :| IsChain(g, c) && Last(c) == t && |c| == n + 1;
  }
}
