/** Slash-separated paths: splitting, joining, and the normalisation of Node's `path.posix`. */
module LogicalPaths {
  import opened JsonText

  const SLASH: CodeUnit := 0x2F
  const DOTDOT: Text := [DOT, DOT]

  function Split(s: Text): (r: seq<Text>)
    ensures r != []
  {
    if s == [] then [[]]
    else
      var rest := Split(s[1..]);
      if s[0] == SLASH then [[]] + rest else [[s[0]] + rest[0]] + rest[1..]
  }

  function Join(segs: seq<Text>): Text {
    if segs == [] then []
    else if |segs| == 1 then segs[0]
    else segs[0] + [SLASH] + Join(segs[1..])
  }

  lemma {:induction false} SplitPlain(s: Text)
    requires SLASH !in s
    ensures Split(s) == [s]
  {
    if s != [] {
      SplitPlain(s[1..]);
      assert [s[0]] + s[1..] == s;
    }
  }

  lemma Associative(a: seq<Text>, b: seq<Text>, c: seq<Text>)
    ensures a + (b + c) == (a + b) + c
  {
  }

  /** A slash separates the segments before it from those after it. */
  lemma {:induction false} SplitAtSlash(a: Text, b: Text)
    ensures Split(a + [SLASH] + b) == Split(a) + Split(b)
  {
    var s := a + [SLASH] + b;
    if a == [] {
      assert s == [SLASH] + b && s[1..] == b;
    } else {
      assert s[1..] == a[1..] + [SLASH] + b;
      SplitAtSlash(a[1..], b);
      var ra, rb := Split(a[1..]), Split(b);
      assert s[0] == a[0];
      if a[0] == SLASH {
        assert Split(s) == [[]] + (ra + rb) && Split(a) == [[]] + ra;
        Associative([[]], ra, rb);
      } else {
        var first := [[a[0]] + ra[0]];
        assert (ra + rb)[1..] == ra[1..] + rb && (ra + rb)[0] == ra[0];
        assert Split(s) == first + (ra[1..] + rb) && Split(a) == first + ra[1..];
        Associative(first, ra[1..], rb);
      }
    }
  }

  ghost predicate NoSlash(segs: seq<Text>) {
    forall x :: x in segs ==> SLASH !in x
  }

  lemma {:induction false} SplitJoin(segs: seq<Text>)
    requires segs != [] && NoSlash(segs)
    ensures Split(Join(segs)) == segs
  {
    SplitPlain(segs[0]);
    if |segs| > 1 {
      SplitJoin(segs[1..]);
      SplitAtSlash(segs[0], Join(segs[1..]));
    }
  }

  lemma {:induction false} SplitHasNoSlash(s: Text)
    ensures NoSlash(Split(s))
    ensures forall x, u :: x in Split(s) && u in x ==> u in s
  {
    if s != [] {
      SplitHasNoSlash(s[1..]);
      var rest := Split(s[1..]);
      assert rest[0] in rest;
      assert forall x :: x in rest[1..] ==> x in rest;
    }
  }

  lemma {:induction false} JoinAppend(a: seq<Text>, b: seq<Text>)
    requires a != [] && b != []
    ensures Join(a + b) == Join(a) + [SLASH] + Join(b)
  {
    if |a| > 1 {
      JoinAppend(a[1..], b);
      assert (a + b)[1..] == a[1..] + b;
    } else {
      assert (a + b)[1..] == b;
    }
  }

  // ---------- dot segments ----------

  /** What remains of the segments once empty and dot segments are resolved. */
  function Resolve(segs: seq<Text>, aboveRoot: bool): seq<Text> {
    if segs == [] then []
    else
      var done, x := Resolve(segs[..|segs| - 1], aboveRoot), segs[|segs| - 1];
      if x == [] || x == [DOT] then done
      else if x == DOTDOT then
        if done != [] && done[|done| - 1] != DOTDOT then done[..|done| - 1]
        else if aboveRoot then done + [x]
        else done
      else done + [x]
  }

  ghost predicate PlainSegment(x: Text) {
    x != [] && x != [DOT] && x != DOTDOT && SLASH !in x
  }

  ghost predicate AllPlain(segs: seq<Text>) {
    forall i :: 0 <= i < |segs| ==> PlainSegment(segs[i])
  }

  /** No empty or dot segment, and steps upwards only at the front. */
  ghost predicate Resolved(segs: seq<Text>, r: seq<Text>) {
    && (forall i :: 0 <= i < |r| ==> r[i] in segs && (r[i] == DOTDOT || PlainSegment(r[i])))
    && (forall i, j :: 0 <= i < j < |r| && r[j] == DOTDOT ==> r[i] == DOTDOT)
  }

  lemma {:induction false} ResolveShape(segs: seq<Text>)
    requires NoSlash(segs)
    ensures Resolved(segs, Resolve(segs, true))
  {
    if segs != [] {
      var init, x := segs[..|segs| - 1], segs[|segs| - 1];
      assert NoSlash(init);
      ResolveShape(init);
      var done := Resolve(init, true);
      assert x in segs && SLASH !in x;
      assert forall i :: 0 <= i < |done| ==> done[i] in init && done[i] in segs;
      assert Resolved(segs, done);
      if x == DOTDOT && done != [] && done[|done| - 1] == DOTDOT {
        assert forall i :: 0 <= i < |done| ==> done[i] == DOTDOT;
      }
    }
  }

  lemma {:induction false} ResolvePlain(base: seq<Text>, segs: seq<Text>, aboveRoot: bool)
    requires AllPlain(segs)
    ensures Resolve(base + segs, aboveRoot) == Resolve(base, aboveRoot) + segs
    ensures Resolve(base + segs + [[]], aboveRoot) == Resolve(base, aboveRoot) + segs
  {
    if segs == [] {
      assert base + segs == base;
    } else {
      var init := segs[..|segs| - 1];
      assert (base + segs)[..|base + segs| - 1] == base + init;
      ResolvePlain(base, init, aboveRoot);
      assert PlainSegment(segs[|segs| - 1]);
      assert init + [segs[|segs| - 1]] == segs;
    }
    assert (base + segs + [[]])[..|base + segs|] == base + segs;
  }

  // ---------- resolving keeps the meaning of a path ----------

  /** Where one segment leads from a directory below the root; there is nothing above the root. */
  function Moved(dir: seq<Text>, x: Text): seq<Text> {
    if x == [] || x == Ascii(".") then dir
    else if x == Ascii("..") then (if dir == [] then [] else dir[..|dir| - 1])
    else dir + [x]
  }

  /** Where a path leads, segment by segment. */
  function Walked(dir: seq<Text>, segs: seq<Text>): seq<Text> {
    if segs == [] then dir else Moved(Walked(dir, segs[..|segs| - 1]), segs[|segs| - 1])
  }

  lemma DotNames()
    ensures [DOT] == Ascii(".") && DOTDOT == Ascii("..") && [SLASH] == Ascii("/")
  {
  }

  lemma WalkedNext(dir: seq<Text>, done: seq<Text>, x: Text)
    ensures Walked(dir, done + [x]) == Moved(Walked(dir, done), x)
  {
    assert (done + [x])[..|done|] == done;
  }

  lemma {:induction false} WalkFromRoot(segs: seq<Text>)
    ensures Resolve(segs, false) == Walked([], segs)
  {
    DotNames();
    if segs != [] {
      var init := segs[..|segs| - 1];
      WalkFromRoot(init);
      WalkedIsPlain(init);
      var done := Walked([], init);
      assert done != [] ==> done[|done| - 1] in done;
    }
  }

  /** From wherever it is followed, the resolved path leads where the path leads; from the root, what is left is the place. */
  lemma {:induction false} ResolveKeepsMeaning(dir: seq<Text>, segs: seq<Text>)
    requires NoSlash(segs)
    ensures Walked(dir, Resolve(segs, true)) == Walked(dir, segs)
    ensures Resolve(segs, false) == Walked([], segs)
  {
    DotNames();
    WalkFromRoot(segs);
    if segs != [] {
      var init, x := segs[..|segs| - 1], segs[|segs| - 1];
      assert NoSlash(init);
      ResolveKeepsMeaning(dir, init);
      ResolveShape(init);
      var done := Resolve(init, true);
      WalkedNext(dir, done, x);
      if done != [] {
        assert done[..|done| - 1] + [done[|done| - 1]] == done;
        WalkedNext(dir, done[..|done| - 1], done[|done| - 1]);
      }
    }
  }

  /** No step upwards is left of a walk from the root. */
  lemma {:induction false} WalkedIsPlain(segs: seq<Text>)
    ensures forall x :: x in Walked([], segs) ==> x != Ascii("..")
  {
    if segs != [] {
      WalkedIsPlain(segs[..|segs| - 1]);
    }
  }

  /** `path.posix.normalize`. */
  function Normalize(p: Text): Text {
    if p == [] then [DOT]
    else
      var absolute, trailing := p[0] == SLASH, p[|p| - 1] == SLASH;
      var body := Join(Resolve(Split(p), !absolute));
      if body == [] then
        if absolute then [SLASH] else if trailing then [DOT, SLASH] else [DOT]
      else
        (if absolute then [SLASH] else []) + body + if trailing then [SLASH] else []
  }

  /** `path.resolve` of an absolute base and a path below it. */
  function ResolvePath(base: Text, p: Text): Text {
    [SLASH] + Join(Resolve(Split(base + [SLASH] + p), false))
  }

  // ---------- clean relative paths ----------

  /** Plain segments joined by single slashes, perhaps with one at the end. */
  ghost predicate CleanAs(p: Text, segs: seq<Text>) {
    segs != [] && AllPlain(segs) && (p == Join(segs) || p == Join(segs) + [SLASH])
  }

  lemma {:induction false} JoinEnds(segs: seq<Text>)
    requires segs != [] && AllPlain(segs)
    ensures Join(segs) != [] && Join(segs)[0] == segs[0][0] != SLASH && Join(segs)[|Join(segs)| - 1] != SLASH
  {
    assert PlainSegment(segs[0]);
    assert segs[0][0] in segs[0];
    if |segs| > 1 {
      assert forall i :: 0 <= i < |segs| - 1 ==> segs[1..][i] == segs[i + 1];
      JoinEnds(segs[1..]);
    } else {
      assert segs[0][|segs[0]| - 1] in segs[0];
    }
  }

  lemma CleanSplits(p: Text, segs: seq<Text>)
    requires CleanAs(p, segs)
    ensures Split(p) == if p == Join(segs) then segs else segs + [[]]
    ensures p != [] && p[0] != SLASH && (p[|p| - 1] == SLASH <==> p != Join(segs))
  {
    PlainHasNoSlash(segs);
    SplitJoin(segs);
    JoinEnds(segs);
    SplitAtSlash(Join(segs), []);
    assert Join(segs) + [SLASH] + [] == Join(segs) + [SLASH];
  }

  lemma PlainHasNoSlash(segs: seq<Text>)
    requires AllPlain(segs)
    ensures NoSlash(segs)
  {
    forall x | x in segs ensures SLASH !in x {
      var i :| 0 <= i < |segs| && segs[i] == x;
      assert PlainSegment(segs[i]);
    }
  }

  lemma NotPlain()
    ensures !PlainSegment(DOTDOT)
  {
  }

  lemma ResolveClean(p: Text, segs: seq<Text>)
    requires CleanAs(p, segs)
    ensures Resolve(Split(p), true) == segs
  {
    hide Split, Join, PlainSegment;
    CleanSplits(p, segs);
    ResolvePlain([], segs, true);
    assert [] + segs == segs;
  }

  lemma CleanIsNormal(p: Text, segs: seq<Text>)
    requires CleanAs(p, segs)
    ensures Normalize(p) == p
    ensures p != DOTDOT && !(DOTDOT + [SLASH] <= p)
  {
    hide Split, Resolve, Join, PlainSegment;
    CleanSplits(p, segs);
    ResolveClean(p, segs);
    JoinEnds(segs);
    FirstSegmentIsPlain(p, segs);
    StepUpFirst(p);
    assert !PlainSegment(DOTDOT) by { NotPlain(); }
  }

  lemma FirstSegmentIsPlain(p: Text, segs: seq<Text>)
    requires CleanAs(p, segs)
    ensures PlainSegment(Split(p)[0])
  {
    hide Split;
    CleanSplits(p, segs);
    assert PlainSegment(segs[0]);
  }

  lemma StepUpFirst(p: Text)
    ensures p == DOTDOT || DOTDOT + [SLASH] <= p ==> Split(p)[0] == DOTDOT
  {
    hide Split;
    SplitPlain(DOTDOT);
    if DOTDOT + [SLASH] <= p {
      assert p == DOTDOT + [SLASH] + p[3..];
      SplitAtSlash(DOTDOT, p[3..]);
    }
  }

  /** The normal relative paths that do not lead upwards are the clean ones and the two names of the root. */
  lemma NormalIsClean(p: Text) returns (segs: seq<Text>)
    requires p != [] && p[0] != SLASH && Normalize(p) == p
    requires p != DOTDOT && !(DOTDOT + [SLASH] <= p)
    ensures p == [DOT] || p == [DOT, SLASH] || CleanAs(p, segs)
  {
    segs := Resolve(Split(p), true);
    SplitHasNoSlash(p);
    ResolveShape(Split(p));
    assert Resolved(Split(p), segs);
    if segs != [] {
      LeadsUp(segs, p);
      assert segs[0] != DOTDOT;
      JoinEnds(segs);
    }
  }

  lemma LeadsUp(segs: seq<Text>, p: Text)
    requires segs != []
    requires p == Join(segs) || p == Join(segs) + [SLASH]
    ensures segs[0] == DOTDOT ==> p == DOTDOT || DOTDOT + [SLASH] <= p
  {
  }
}
