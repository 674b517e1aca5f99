/**
 * The key-sorting serializer behind payload hashes, and the theorem it exists for: two values are
 * written alike exactly when they are equal up to the order of object keys.
 */
module CanonicalJson {
  import opened Wrappers
  import opened JsonText

  /** A JavaScript value: an object is its own properties in insertion order. */
  datatype Json =
    | Null
    | Bool(flag: bool)
    | Str(text: Text)
    | Num(number: Number)
    | NonFinite               // NaN and the infinities
    | Arr(items: seq<Json>)
    | Obj(fields: seq<Field>)
    | Unsupported             // undefined, functions, symbols, big integers

  datatype Field = Field(name: Text, value: Json)

  datatype TypeError = NotFinite | NotSerializable

  const NULL_TEXT: Text := [0x6E, 0x75, 0x6C, 0x6C]
  const TRUE_TEXT: Text := [0x74, 0x72, 0x75, 0x65]
  const FALSE_TEXT: Text := [0x66, 0x61, 0x6C, 0x73, 0x65]

  /** The values JavaScript can hold: no property name occurs twice in an object. */
  ghost predicate WellFormed(v: Json) {
    match v
    case Num(n) => n.Valid()
    case Arr(items) => forall x :: x in items ==> WellFormed(x)
    case Obj(fields) => DistinctNames(fields) && forall f :: f in fields ==> WellFormed(f.value)
    case _ => true
  }

  ghost predicate DistinctNames(fields: seq<Field>) {
    forall i, j :: 0 <= i < j < |fields| ==> fields[i].name != fields[j].name
  }

  /** Equal after reordering keys at every depth, with 0 and -0 the same number. */
  ghost predicate Same(a: Json, b: Json) {
    match (a, b)
    case (Num(m), Num(n)) => SameNumber(m, n)
    case (Arr(xs), Arr(ys)) => |xs| == |ys| && forall i :: 0 <= i < |xs| ==> Same(xs[i], ys[i])
    case (Obj(fs), Obj(gs)) =>
      && (forall i :: 0 <= i < |fs| ==> HasSame(fs[i], gs))
      && (forall j :: 0 <= j < |gs| ==> HasName(gs[j].name, fs))
    case (_, _) => a == b && !a.Num? && !a.Arr? && !a.Obj?
  }

  ghost predicate HasSame(f: Field, gs: seq<Field>) {
    exists j :: 0 <= j < |gs| && gs[j].name == f.name && Same(f.value, gs[j].value)
  }

  ghost predicate HasName(name: Text, fs: seq<Field>) {
    exists i :: 0 <= i < |fs| && fs[i].name == name
  }

  // ---------- key order ----------

  /** Code-unit order of property names, the order of `Array.prototype.sort` on strings. */
  predicate Before(s: Text, t: Text) {
    if t == [] then false
    else if s == [] then true
    else s[0] < t[0] || (s[0] == t[0] && Before(s[1..], t[1..]))
  }

  lemma {:induction false} BeforeIsTotal(s: Text, t: Text)
    ensures s == t || Before(s, t) || Before(t, s)
  {
    if s != [] && t != [] && s[0] == t[0] {
      BeforeIsTotal(s[1..], t[1..]);
      assert s == [s[0]] + s[1..] && t == [t[0]] + t[1..];
    }
  }

  lemma {:induction false} BeforeIsStrict(s: Text, t: Text)
    requires Before(s, t)
    ensures !Before(t, s) && s != t
  {
    if s != [] && s[0] == t[0] { BeforeIsStrict(s[1..], t[1..]); }
  }

  lemma {:induction false} BeforeIsTransitive(s: Text, t: Text, u: Text)
    requires Before(s, t) && Before(t, u)
    ensures Before(s, u)
  {
    if s != [] && s[0] == t[0] == u[0] { BeforeIsTransitive(s[1..], t[1..], u[1..]); }
  }

  ghost predicate Ascending(fields: seq<Field>) {
    forall i, j :: 0 <= i < j < |fields| ==> Before(fields[i].name, fields[j].name)
  }

  function Insert(f: Field, sorted: seq<Field>): seq<Field> {
    if sorted == [] || Before(f.name, sorted[0].name) then [f] + sorted
    else [sorted[0]] + Insert(f, sorted[1..])
  }

  function SortedByName(fields: seq<Field>): seq<Field> {
    if fields == [] then [] else Insert(fields[0], SortedByName(fields[1..]))
  }

  lemma {:induction false} InsertKeeps(f: Field, sorted: seq<Field>)
    ensures multiset(Insert(f, sorted)) == multiset([f] + sorted)
  {
    if sorted != [] && !Before(f.name, sorted[0].name) {
      InsertKeeps(f, sorted[1..]);
      assert sorted == [sorted[0]] + sorted[1..];
    }
  }

  /** Sorting only reorders. */
  lemma {:induction false} SortKeeps(fields: seq<Field>)
    ensures multiset(SortedByName(fields)) == multiset(fields)
    ensures |SortedByName(fields)| == |fields|
    ensures forall f :: f in SortedByName(fields) <==> f in fields
  {
    if fields != [] {
      SortKeeps(fields[1..]);
      InsertKeeps(fields[0], SortedByName(fields[1..]));
      assert fields == [fields[0]] + fields[1..];
    }
    assert |multiset(SortedByName(fields))| == |multiset(fields)|;
    forall f
      ensures f in SortedByName(fields) <==> f in fields
    {
      assert f in multiset(SortedByName(fields)) <==> f in multiset(fields);
    }
  }

  lemma {:induction false} InsertAscending(f: Field, sorted: seq<Field>)
    requires Ascending(sorted) && forall g :: g in sorted ==> g.name != f.name
    ensures Ascending(Insert(f, sorted))
  {
    hide Before;
    if sorted == [] {
    } else if Before(f.name, sorted[0].name) {
      var r := Insert(f, sorted);
      forall i, j | 0 <= i < j < |r|
        ensures Before(r[i].name, r[j].name)
      {
        if i == 0 && j > 1 { BeforeIsTransitive(f.name, sorted[0].name, sorted[j - 1].name); }
      }
    } else {
      var rest := Insert(f, sorted[1..]);
      InsertAscending(f, sorted[1..]);
      InsertKeeps(f, sorted[1..]);
      BeforeIsTotal(f.name, sorted[0].name);
      forall j | 0 <= j < |rest|
        ensures Before(sorted[0].name, rest[j].name)
      {
        assert rest[j] in multiset([f] + sorted[1..]);
      }
    }
  }

  /** Sorting distinct names puts them in strictly ascending order. */
  lemma {:induction false} SortAscending(fields: seq<Field>)
    requires DistinctNames(fields)
    ensures Ascending(SortedByName(fields))
  {
    if fields != [] {
      SortAscending(fields[1..]);
      SortKeeps(fields[1..]);
      forall g | g in SortedByName(fields[1..])
        ensures g.name != fields[0].name
      {
        assert g in fields[1..];
      }
      InsertAscending(fields[0], SortedByName(fields[1..]));
    }
  }

  // ---------- the serializer ----------

  /** `canonicalJson`: the text of a value, or the TypeError it throws. */
  function CanonicalText(v: Json): Result<Text, TypeError>
    decreases v, 1, 0
  {
    match v
    case Null => Success(NULL_TEXT)
    case Bool(b) => Success(if b then TRUE_TEXT else FALSE_TEXT)
    case Str(s) => Success(Quoted(s))
    case Num(n) => Success(NumberText(n))
    case NonFinite => Failure(NotFinite)
    case Arr(items) =>
      var body :- ItemsText(items, v);
      Success([LEFT_BRACKET] + body + [RIGHT_BRACKET])
    case Obj(fields) =>
      SortKeeps(fields);
      var body :- FieldsText(SortedByName(fields), v);
      Success([LEFT_BRACE] + body + [RIGHT_BRACE])
    case Unsupported => Failure(NotSerializable)
  }

  /** The comma-separated texts of array items, all of them parts of `whole`. */
  function ItemsText(items: seq<Json>, ghost whole: Json): Result<Text, TypeError>
    requires forall i :: 0 <= i < |items| ==> items[i] < whole
    decreases whole, 0, |items|
  {
    if items == [] then Success([])
    else
      var first :- CanonicalText(items[0]);
      var rest :- ItemsText(items[1..], whole);
      Success(first + if |items| > 1 then [COMMA] + rest else [])
  }

  /** The comma-separated `"name":value` texts of object fields, all of them parts of `whole`. */
  function FieldsText(fields: seq<Field>, ghost whole: Json): Result<Text, TypeError>
    requires forall f :: f in fields ==> f.value < whole
    decreases whole, 0, |fields|
  {
    if fields == [] then Success([])
    else
      var first :- CanonicalText(fields[0].value);
      var rest :- FieldsText(fields[1..], whole);
      Success(Quoted(fields[0].name) + ([COLON] + (first + if |fields| > 1 then [COMMA] + rest else [])))
  }

  // ---------- equal values, equal texts ----------

  /** Both lists name the same properties, and equal names carry the same values. */
  ghost predicate SameFields(fs: seq<Field>, gs: seq<Field>) {
    && (forall i :: 0 <= i < |fs| ==> HasSame(fs[i], gs))
    && (forall j :: 0 <= j < |gs| ==> HasName(gs[j].name, fs))
  }

  /** Fields that agree pairwise in one order have partners in any order. */
  lemma AllHaveSame(fields: seq<Field>, fs: seq<Field>, others: seq<Field>, gs: seq<Field>)
    requires |fs| == |gs|
    requires forall f :: f in fields ==> f in fs
    requires forall g :: g in gs ==> g in others
    requires forall i :: 0 <= i < |fs| ==> fs[i].name == gs[i].name && Same(fs[i].value, gs[i].value)
    ensures forall i :: 0 <= i < |fields| ==> HasSame(fields[i], others)
  {
    forall i | 0 <= i < |fields|
      ensures HasSame(fields[i], others)
    {
      assert fields[i] in fs;
      var k :| 0 <= k < |fs| && fs[k] == fields[i];
      assert gs[k] in others;
      var j :| 0 <= j < |others| && others[j] == gs[k];
    }
  }

  lemma Partner(f: Field, gs: seq<Field>) returns (j: nat)
    requires HasSame(f, gs)
    ensures j < |gs| && gs[j].name == f.name && Same(f.value, gs[j].value)
  {
    j :| 0 <= j < |gs| && gs[j].name == f.name && Same(f.value, gs[j].value);
  }

  lemma Namesake(name: Text, fs: seq<Field>) returns (i: nat)
    requires HasName(name, fs)
    ensures i < |fs| && fs[i].name == name
  {
    i :| 0 <= i < |fs| && fs[i].name == name;
  }

  lemma IsPartner(f: Field, gs: seq<Field>, j: nat)
    requires j < |gs| && gs[j].name == f.name && Same(f.value, gs[j].value)
    ensures HasSame(f, gs)
  {
  }

  lemma IsNamesake(name: Text, fs: seq<Field>, i: nat)
    requires i < |fs| && fs[i].name == name
    ensures HasName(name, fs)
  {
  }

  lemma AscendingIsDistinct(fs: seq<Field>)
    requires Ascending(fs)
    ensures DistinctNames(fs)
  {
    forall i, j | 0 <= i < j < |fs|
      ensures fs[i].name != fs[j].name
    {
      BeforeIsStrict(fs[i].name, fs[j].name);
    }
  }

  /** In two ascending lists over the same names, the first names agree. */
  lemma SameHeads(fs: seq<Field>, gs: seq<Field>)
    requires Ascending(fs) && Ascending(gs) && SameFields(fs, gs) && fs != []
    ensures gs != [] && fs[0].name == gs[0].name && Same(fs[0].value, gs[0].value)
  {
    hide Same, HasSame, HasName, Before;
    var j := Partner(fs[0], gs);
    var i := Namesake(gs[0].name, fs);
    if i > 0 && j > 0 {
      BeforeIsStrict(fs[0].name, fs[i].name);
    }
    AscendingIsDistinct(gs);
    assert j == 0;
  }

  lemma SameTailFields(fs: seq<Field>, gs: seq<Field>)
    requires Ascending(fs) && Ascending(gs) && SameFields(fs, gs) && fs != [] && gs != []
    requires fs[0].name == gs[0].name
    ensures Ascending(fs[1..]) && Ascending(gs[1..]) && SameFields(fs[1..], gs[1..])
  {
    hide Same, HasSame, HasName, Before;
    AscendingIsDistinct(fs);
    AscendingIsDistinct(gs);
    var ft, gt := fs[1..], gs[1..];
    forall i | 0 <= i < |ft|
      ensures HasSame(ft[i], gt)
    {
      var j := Partner(fs[i + 1], gs);
      assert fs[0].name != fs[i + 1].name;
      IsPartner(ft[i], gt, j - 1);
    }
    forall j | 0 <= j < |gt|
      ensures HasName(gt[j].name, ft)
    {
      var i := Namesake(gs[j + 1].name, fs);
      assert gs[0].name != gs[j + 1].name;
      IsNamesake(gt[j].name, ft, i - 1);
    }
  }

  lemma {:induction false} SameValueSameText(a: Json, b: Json)
    requires WellFormed(a) && WellFormed(b) && Same(a, b)
    ensures CanonicalText(a) == CanonicalText(b)
    decreases a, 1, 0
  {
    if a.Arr? {
      SameItemsSameText(a.items, a, b.items, b);
    } else if a.Obj? {
      SortKeeps(a.fields);
      SortKeeps(b.fields);
      SortAscending(a.fields);
      SortAscending(b.fields);
      var fs, gs := SortedByName(a.fields), SortedByName(b.fields);
      SortedSameFields(a.fields, fs, b.fields, gs);
      SameFieldsSameText(fs, a, gs, b);
    }
  }

  lemma SortedSameFields(fields: seq<Field>, fs: seq<Field>, others: seq<Field>, gs: seq<Field>)
    requires forall f :: f in fs <==> f in fields
    requires forall g :: g in gs <==> g in others
    requires forall i :: 0 <= i < |fields| ==> HasSame(fields[i], others)
    requires forall j :: 0 <= j < |others| ==> HasName(others[j].name, fields)
    ensures SameFields(fs, gs)
  {
    hide Same, HasSame, HasName;
    forall i | 0 <= i < |fs|
      ensures HasSame(fs[i], gs)
    {
      assert fs[i] in fields;
      var k :| 0 <= k < |fields| && fields[k] == fs[i];
      var j := Partner(fields[k], others);
      assert others[j] in gs;
      var m :| 0 <= m < |gs| && gs[m] == others[j];
      IsPartner(fs[i], gs, m);
    }
    forall j | 0 <= j < |gs|
      ensures HasName(gs[j].name, fs)
    {
      assert gs[j] in others;
      var k :| 0 <= k < |others| && others[k] == gs[j];
      var i := Namesake(others[k].name, fields);
      assert fields[i] in fs;
      var m :| 0 <= m < |fs| && fs[m] == fields[i];
      IsNamesake(gs[j].name, fs, m);
    }
  }

  lemma {:induction false} SameItemsSameText(xs: seq<Json>, a: Json, ys: seq<Json>, b: Json)
    requires forall i :: 0 <= i < |xs| ==> xs[i] < a && WellFormed(xs[i])
    requires forall i :: 0 <= i < |ys| ==> ys[i] < b && WellFormed(ys[i])
    requires |xs| == |ys| && forall i :: 0 <= i < |xs| ==> Same(xs[i], ys[i])
    ensures ItemsText(xs, a) == ItemsText(ys, b)
    decreases a, 0, |xs|
  {
    if xs != [] {
      SameValueSameText(xs[0], ys[0]);
      SameItemsSameText(xs[1..], a, ys[1..], b);
    }
  }

  lemma {:induction false} SameFieldsSameText(fs: seq<Field>, a: Json, gs: seq<Field>, b: Json)
    requires forall f :: f in fs ==> f.value < a && WellFormed(f.value)
    requires forall g :: g in gs ==> g.value < b && WellFormed(g.value)
    requires Ascending(fs) && Ascending(gs) && SameFields(fs, gs)
    ensures FieldsText(fs, a) == FieldsText(gs, b)
    decreases a, 0, |fs|
  {
    hide Same, HasSame, HasName, Before;
    if fs == [] {
      if gs != [] { var i := Namesake(gs[0].name, fs); }
    } else {
      SameHeads(fs, gs);
      SameTailFields(fs, gs);
      SameValueSameText(fs[0].value, gs[0].value);
      SameFieldsSameText(fs[1..], a, gs[1..], b);
    }
  }

  /** A value is written at all exactly when no number in it is infinite and nothing in it is unsupported. */
  ghost predicate Serializable(v: Json) {
    match v
    case NonFinite => false
    case Unsupported => false
    case Arr(items) => forall x :: x in items ==> Serializable(x)
    case Obj(fields) => forall f :: f in fields ==> Serializable(f.value)
    case _ => true
  }

  lemma {:induction false} WrittenExactlyWhenSerializable(v: Json)
    ensures CanonicalText(v).Success? <==> Serializable(v)
    decreases v, 1, 0
  {
    if v.Arr? {
      ItemsWritten(v.items, v);
    } else if v.Obj? {
      SortKeeps(v.fields);
      FieldsWritten(SortedByName(v.fields), v);
    }
  }

  lemma {:induction false} ItemsWritten(items: seq<Json>, whole: Json)
    requires forall i :: 0 <= i < |items| ==> items[i] < whole
    ensures ItemsText(items, whole).Success? <==> forall x :: x in items ==> Serializable(x)
    decreases whole, 0, |items|
  {
    if items != [] {
      WrittenExactlyWhenSerializable(items[0]);
      ItemsWritten(items[1..], whole);
      assert items == [items[0]] + items[1..];
    }
  }

  lemma {:induction false} FieldsWritten(fields: seq<Field>, whole: Json)
    requires forall f :: f in fields ==> f.value < whole
    ensures FieldsText(fields, whole).Success? <==> forall f :: f in fields ==> Serializable(f.value)
    decreases whole, 0, |fields|
  {
    if fields != [] {
      WrittenExactlyWhenSerializable(fields[0].value);
      FieldsWritten(fields[1..], whole);
      assert fields == [fields[0]] + fields[1..];
    }
  }
}
