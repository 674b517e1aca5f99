/** Counting, searching and filtering in sequences. */
module Sequences {

  ghost predicate Distinct<T>(s: seq<T>) {
    forall i, j :: 0 <= i < j < |s| ==> s[i] != s[j]
  }

  function Elements<T>(s: seq<T>): set<T> {
    set x | x in s
  }

  /** The elements that satisfy `keep`, in their order. */
  function Filter<T(!new)>(keep: T -> bool, s: seq<T>): (r: seq<T>)
    ensures forall x :: x in r <==> x in s && keep(x)
  {
    if s == [] then []
    else
      var rest := Filter(keep, s[..|s| - 1]);
      if keep(s[|s| - 1]) then rest + [s[|s| - 1]] else rest
  }

  lemma {:induction false} FilterAgrees<T(!new)>(f: T -> bool, g: T -> bool, s: seq<T>)
    requires forall x :: x in s ==> f(x) == g(x)
    ensures Filter(f, s) == Filter(g, s)
  {
    if s != [] {
      FilterAgrees(f, g, s[..|s| - 1]);
    }
  }

  lemma {:induction false} FilterDistinct<T(!new)>(keep: T -> bool, s: seq<T>)
    requires Distinct(s)
    ensures Distinct(Filter(keep, s))
  {
    if s != [] {
      FilterDistinct(keep, s[..|s| - 1]);
    }
  }

  ghost function Both<T>(f: T -> bool, g: T -> bool): T -> bool {
    x => f(x) && g(x)
  }

  /** Filtering in stages keeps the first of those that pass every stage. */
  lemma {:induction false} FilterTwice<T(!new)>(f: T -> bool, g: T -> bool, s: seq<T>)
    ensures Filter(g, Filter(f, s)) == Filter(Both(f, g), s)
  {
    if s != [] {
      var init := s[..|s| - 1];
      FilterTwice(f, g, init);
      var kept := Filter(f, init);
      assert (kept + [s[|s| - 1]])[..|kept|] == kept;
    }
  }

  /** Positions in ascending order. */
  ghost predicate Rising(picks: seq<nat>) {
    forall i, j :: 0 <= i < j < |picks| ==> picks[i] < picks[j]
  }

  /** These are the positions, in order, of the elements that satisfy `keep`, and `r` is what stands there. */
  ghost predicate PicksOf<T>(keep: T -> bool, s: seq<T>, r: seq<T>, picks: seq<nat>) {
    && |picks| == |r| && Rising(picks)
    && (forall j :: 0 <= j < |picks| ==> picks[j] < |s| && r[j] == s[picks[j]])
    && forall i :: i in picks <==> 0 <= i < |s| && keep(s[i])
  }

  lemma PicksNext<T>(keep: T -> bool, s: seq<T>, r: seq<T>, picks: seq<nat>)
    requires s != [] && PicksOf(keep, s[..|s| - 1], r, picks)
    ensures !keep(s[|s| - 1]) ==> PicksOf(keep, s, r, picks)
    ensures keep(s[|s| - 1]) ==> PicksOf(keep, s, r + [s[|s| - 1]], picks + [|s| - 1])
  {
    var last := |s| - 1;
    var longer: seq<nat> := picks + [last];
    forall i
      ensures i in picks <==> 0 <= i < last && keep(s[i])
      ensures i in longer <==> i in picks || i == last
    {
      assert 0 <= i < last ==> s[..last][i] == s[i];
    }
    forall j | 0 <= j < |picks| ensures picks[j] < last && r[j] == s[picks[j]] {
      assert picks[j] in picks;
    }
  }

  /** Filtering picks the positions of exactly the elements that satisfy the test, each once and in order. */
  lemma {:induction false} FilterPicks<T(!new)>(keep: T -> bool, s: seq<T>) returns (picks: seq<nat>)
    ensures PicksOf(keep, s, Filter(keep, s), picks)
  {
    hide PicksOf;
    if s == [] {
      picks := [];
      NothingPicked(keep, s);
    } else {
      var rest := FilterPicks(keep, s[..|s| - 1]);
      PicksNext(keep, s, Filter(keep, s[..|s| - 1]), rest);
      picks := if keep(s[|s| - 1]) then rest + [|s| - 1] else rest;
    }
  }

  lemma NothingPicked<T>(keep: T -> bool, s: seq<T>)
    requires s == []
    ensures PicksOf(keep, s, [], [])
  {
  }

  /** How often `x` occurs. */
  function Count<T(==)>(s: seq<T>, x: T): nat {
    if s == [] then 0
    else Count(s[..|s| - 1], x) + if s[|s| - 1] == x then 1 else 0
  }

  lemma CountNext<T>(s: seq<T>, m: nat, x: T)
    requires m < |s|
    ensures Count(s[..m + 1], x) == Count(s[..m], x) + if s[m] == x then 1 else 0
  {
    assert s[..m + 1][..m] == s[..m];
  }

  lemma {:induction false} CountPrefix<T>(s: seq<T>, m: nat, x: T)
    requires m <= |s|
    ensures Count(s[..m], x) <= Count(s, x)
    decreases |s| - m
  {
    if m < |s| {
      CountNext(s, m, x);
      CountPrefix(s, m + 1, x);
    } else {
      assert s[..m] == s;
    }
  }

  lemma {:induction false} CountAppend<T>(a: seq<T>, b: seq<T>, x: T)
    ensures Count(a + b, x) == Count(a, x) + Count(b, x)
  {
    if b == [] {
      assert a + b == a;
    } else {
      assert (a + b)[..|a + b| - 1] == a + b[..|b| - 1];
      CountAppend(a, b[..|b| - 1], x);
    }
  }

  /** The position of the first occurrence. */
  function IndexOf<T(==)>(s: seq<T>, x: T): (i: nat)
    requires x in s
    ensures i < |s| && s[i] == x && x !in s[..i]
  {
    if s[0] == x then 0
    else
      assert s == [s[0]] + s[1..];
      var i := IndexOf(s[1..], x);
      assert s[..i + 1] == [s[0]] + s[1..][..i];
      i + 1
  }

  lemma IndexOfDistinct<T>(s: seq<T>, i: nat)
    requires Distinct(s) && i < |s|
    ensures IndexOf(s, s[i]) == i
  {
  }

  lemma {:induction false} IndexOfPrefix<T>(s: seq<T>, x: T, y: T)
    requires y in s
    ensures IndexOf(s + [x], y) == IndexOf(s, y)
  {
    if s[0] != y {
      assert (s + [x])[1..] == s[1..] + [x];
      IndexOfPrefix(s[1..], x, y);
    }
  }

  // ---------- sizes ----------

  lemma ElementsGrow<T>(s: seq<T>)
    requires s != []
    ensures Elements(s) == Elements(s[..|s| - 1]) + {s[|s| - 1]}
  {
    var init, last := s[..|s| - 1], s[|s| - 1];
    assert forall x :: x in s <==> x in init || x == last;
  }

  lemma {:induction false} DistinctSize<T>(s: seq<T>)
    requires Distinct(s)
    ensures |Elements(s)| == |s|
  {
    if s != [] {
      var init := s[..|s| - 1];
      DistinctSize(init);
      assert forall i :: 0 <= i < |init| ==> s[i] == init[i] && s[i] != s[|s| - 1];
      ElementsGrow(s);
    }
  }

  lemma {:induction false} SubsetSize<T>(a: set<T>, b: set<T>)
    requires a <= b
    ensures |a| <= |b|
    ensures |a| == |b| ==> a == b
  {
    if a != {} {
      var x :| x in a;
      SubsetSize(a - {x}, b - {x});
    }
  }

  lemma DistinctFits<T>(s: seq<T>, all: set<T>)
    requires Distinct(s) && forall x :: x in s ==> x in all
    ensures |s| <= |all|
    ensures |s| == |all| ==> forall x :: x in all ==> x in s
  {
    DistinctSize(s);
    assert Elements(s) <= all;
    SubsetSize(Elements(s), all);
  }

  /** More positions than values: some value is repeated. */
  lemma Pigeonhole<T>(s: seq<T>, all: set<T>) returns (i: nat, j: nat)
    requires |s| > |all| && forall x :: x in s ==> x in all
    ensures i < j < |s| && s[i] == s[j]
  {
    if Distinct(s) {
      DistinctFits(s, all);
      assert false;
    }
    i, j :| 0 <= i < j < |s| && s[i] == s[j];
  }
}
