/** The canonical text of a value reads back, by the JSON grammar, as that value with its keys in order. */
module JsonRoundTrip {
  import opened Wrappers
  import opened JsonText
  import opened CanonicalJson
  import opened JsonReader

  // ---------- strings ----------

  lemma HexReadsBack(d: int)
    requires 0 <= d < 16
    ensures HexOf(HexDigit(d)) == Some(d)
  {
  }

  lemma UnitReadsBack(u: CodeUnit)
    ensures UnitOf(Hex4(u)) == Some(u)
  {
    var a := u / 16;
    var b := a / 16;
    assert b == u / 256 && b / 16 == u / 4096;
    HexReadsBack(u / 4096);
    HexReadsBack(u / 256 % 16);
    HexReadsBack(u / 16 % 16);
    HexReadsBack(u % 16);
    hide HexOf, HexDigit;
  }

  lemma TokenReadsBack(s: Text, x: Text)
    requires s != []
    ensures Token(s) != [] && Token(s)[0] != QUOTE
    ensures ReadChar(Token(s) + x) == Some((s[..TokenWidth(s)], |Token(s)|))
  {
    var t := Token(s) + x;
    assert t[..|Token(s)|] == Token(s) && t[0] == Token(s)[0] && s[..1] == [s[0]];
    if StartsWithPair(s) {
      assert t[1] == s[1] && t[..2] == s[..2];
    } else if t[0] == BACKSLASH {
      assert t[1] == Token(s)[1];
      if ShortEscape(s[0]) == 0 {
        UnitReadsBack(s[0]);
        assert t[2..6] == Hex4(s[0]);
      }
    }
  }

  /** A written string reads back, whatever follows it. */
  lemma {:induction false} QuotedReadsBack(s: Text, x: Text)
    ensures ReadChars(Escaped(s) + [QUOTE] + x) == Some((s, x))
    decreases |s|
  {
    var t := Escaped(s) + [QUOTE] + x;
    if s == [] {
      assert t == [QUOTE] + x;
    } else {
      var rest := s[TokenWidth(s)..];
      var y := Escaped(rest) + [QUOTE] + x;
      assert t == Token(s) + y;
      TokenReadsBack(s, y);
      QuotedReadsBack(rest, x);
      assert t[|Token(s)|..] == y;
      assert s == s[..TokenWidth(s)] + rest;
    }
  }

  // ---------- numbers ----------

  predicate StopsDigits(x: Text) {
    x == [] || !IsDecimal(x[0])
  }

  lemma {:induction false} RunIs(t: Text, m: nat)
    requires m <= |t| && (forall i :: 0 <= i < m ==> IsDecimal(t[i])) && StopsDigits(t[m..])
    ensures DigitRun(t) == m
  {
    if m > 0 {
      assert t[1..][m - 1..] == t[m..];
      RunIs(t[1..], m - 1);
    }
  }

  lemma RunReadsBack(d: seq<Digit>, x: Text)
    requires StopsDigits(x)
    ensures DigitRun(DigitText(d) + x) == |d|
    ensures (DigitText(d) + x)[|d|..] == x
    ensures DigitsOf((DigitText(d) + x)[..|d|]) == d
  {
    var t := DigitText(d) + x;
    assert t[..|d|] == DigitText(d) && t[|d|..] == x;
    assert forall i :: 0 <= i < |d| ==> IsDecimal(t[i]) && t[i] == DigitText(d)[i];
    RunIs(t, |d|);
  }

  function Padding(n: nat): (z: seq<Digit>)
    ensures |z| == n && forall i :: 0 <= i < n ==> z[i] == 0
  {
    seq(n, _ => 0)
  }

  lemma ZerosAreDigits(n: nat)
    ensures Zeros(n) == DigitText(Padding(n))
  {
  }

  lemma JoinedDigits(d: seq<Digit>, e: seq<Digit>)
    ensures DigitText(d) + DigitText(e) == DigitText(d + e)
  {
  }

  lemma {:induction false} UnpadsTrailing(negative: bool, d: seq<Digit>, m: nat, point: int)
    requires d != [] && d[0] != 0 && d[|d| - 1] != 0
    ensures Unpadded(negative, d + Padding(m), point) == Number(negative, d, point)
  {
    if m == 0 {
      assert d + Padding(m) == d;
    } else {
      assert (d + Padding(m))[..|d| + m - 1] == d + Padding(m - 1);
      UnpadsTrailing(negative, d, m - 1, point);
    }
  }

  lemma {:induction false} UnpadsLeading(negative: bool, z: nat, d: seq<Digit>, point: int)
    requires d != [] && d[0] != 0 && d[|d| - 1] != 0
    ensures Unpadded(negative, Padding(z) + d, point) == Number(negative, d, point - z)
  {
    if z == 0 {
      assert Padding(z) + d == d;
    } else {
      assert (Padding(z) + d)[1..] == Padding(z - 1) + d;
      UnpadsLeading(negative, z - 1, d, point - 1);
    }
  }

  lemma {:induction false} NatReadsBack(n: nat) returns (d: seq<Digit>)
    ensures d != [] && NatText(n) == DigitText(d) && Natural(d) == n
    ensures n < 10 ==> |d| == 1
  {
    if n < 10 {
      d := [n];
      assert d[..0] == [];
    } else {
      var rest := NatReadsBack(n / 10);
      var last: Digit := n % 10;
      d := rest + [last];
      assert d[..|rest|] == rest;
      JoinedDigits(rest, [last]);
      assert DigitText([last]) == [ZERO + n % 10];
    }
  }

  lemma ExponentReadsBack(e: int, x: Text)
    requires StopsDigits(x)
    ensures ReadExponent(ExponentText(e) + x) == Some((e, x))
  {
    hide DigitRun, DigitsOf, Natural, DigitText, NatText;
    var t := ExponentText(e) + x;
    var d := NatReadsBack(if e < 0 then -e else e);
    RunReadsBack(d, x);
    assert t[1..] == [if e < 0 then MINUS else PLUS] + (DigitText(d) + x);
    assert t[1..][1..] == DigitText(d) + x;
  }

  /** What may follow a number: no part of one. */
  predicate StopsNumber(x: Text) {
    StopsDigits(x) && !Starts(x, '.') && !Starts(x, 'e') && !Starts(x, 'E')
  }

  /** The reader on an integer part, a fraction and an exponent, each as it may occur in a written number. */
  lemma PartsReadBack(negative: bool, whole: seq<Digit>, fraction: seq<Digit>, e: int, x: Text)
    requires whole != [] && (|whole| > 1 ==> whole[0] != 0) && StopsNumber(x)
    ensures var t := DigitText(whole)
                     + ((if fraction == [] then [] else [DOT] + DigitText(fraction)) + ((if e == 0 then [] else ExponentText(e)) + x));
      ReadNumber((if negative then [MINUS] else []) + t) == Some((Unpadded(negative, whole + fraction, |whole| + e), x))
  {
    hide DigitRun, DigitsOf, DigitText, Unpadded, ReadFraction, ReadExponent, ExponentText, StopsNumber;
    var y := (if e == 0 then [] else ExponentText(e)) + x;
    var z := (if fraction == [] then [] else [DOT] + DigitText(fraction)) + y;
    var t := DigitText(whole) + z;
    var all := (if negative then [MINUS] else []) + t;
    assert t[0] == ZERO + whole[0];
    assert all[0] == (if negative then MINUS else t[0]);
    assert (if Starts(all, '-') then all[1..] else all) == t;
    ExponentPart(e, x);
    assert StopsDigits(z);
    RunReadsBack(whole, z);
    FractionPart(fraction, y);
    assert |whole| > 1 ==> !Starts(t, '0');
  }

  lemma ExponentPart(e: int, x: Text)
    requires StopsNumber(x)
    ensures var y := (if e == 0 then [] else ExponentText(e)) + x;
      ReadExponent(y) == Some((e, x)) && StopsDigits(y) && !Starts(y, '.')
  {
    var y := (if e == 0 then [] else ExponentText(e)) + x;
    if e == 0 {
      assert y == x;
    } else {
      ExponentReadsBack(e, x);
      assert y[0] == LETTER_E;
    }
  }

  lemma FractionPart(fraction: seq<Digit>, y: Text)
    requires StopsDigits(y) && !Starts(y, '.')
    ensures var z := (if fraction == [] then [] else [DOT] + DigitText(fraction)) + y;
      ReadFraction(z) == Some((fraction, y)) && StopsDigits(z)
  {
    var z := (if fraction == [] then [] else [DOT] + DigitText(fraction)) + y;
    if fraction == [] {
      assert z == y;
    } else {
      assert z[1..] == DigitText(fraction) + y;
      RunReadsBack(fraction, y);
    }
  }

  /** A magnitude in its parts, as a reader finds them. */
  ghost predicate HasParts(d: seq<Digit>, n: int, whole: seq<Digit>, fraction: seq<Digit>, e: int) {
    && d != [] && whole != [] && (|whole| > 1 ==> whole[0] != 0)
    && MagnitudeText(d, n)
       == DigitText(whole) + ((if fraction == [] then [] else [DOT] + DigitText(fraction)) + (if e == 0 then [] else ExponentText(e)))
    && forall negative :: Unpadded(negative, whole + fraction, |whole| + e) == Number(negative, d, n)
  }

  lemma WholeForm(d: seq<Digit>, n: int)
    requires d != [] && d[0] != 0 && d[|d| - 1] != 0 && |d| <= n <= 21
    ensures HasParts(d, n, d + Padding(n - |d|), [], 0)
  {
    hide DigitText, Unpadded;
    var whole := d + Padding(n - |d|);
    ZerosAreDigits(n - |d|);
    JoinedDigits(d, Padding(n - |d|));
    assert whole + [] == whole && DigitText(whole) + ([] + []) == DigitText(whole);
    forall negative ensures Unpadded(negative, whole + [], |whole| + 0) == Number(negative, d, n) {
      UnpadsTrailing(negative, d, n - |d|, n);
    }
  }

  lemma PointForm(d: seq<Digit>, n: int)
    requires d != [] && d[0] != 0 && d[|d| - 1] != 0 && 0 < n < |d| && n <= 21
    ensures HasParts(d, n, d[..n], d[n..], 0)
  {
    hide DigitText;
    assert d[..n] + d[n..] == d;
    assert DigitText(d[..n]) + [DOT] + DigitText(d[n..]) == DigitText(d[..n]) + (([DOT] + DigitText(d[n..])) + []);
  }

  lemma FractionForm(d: seq<Digit>, n: int)
    requires d != [] && d[0] != 0 && d[|d| - 1] != 0 && -6 < n <= 0
    ensures HasParts(d, n, [0], Padding(-n) + d, 0)
  {
    hide DigitText, Unpadded;
    ZerosAreDigits(-n);
    JoinedDigits(Padding(-n), d);
    assert [0] + (Padding(-n) + d) == Padding(1 - n) + d;
    assert DigitText([0]) == [ZERO];
    assert [ZERO, DOT] + Zeros(-n) + DigitText(d) == [ZERO] + (([DOT] + (Zeros(-n) + DigitText(d))) + []);
    forall negative ensures Unpadded(negative, [0] + (Padding(-n) + d), 1 + 0) == Number(negative, d, n) {
      UnpadsLeading(negative, 1 - n, d, 1);
    }
  }

  lemma ExponentForm(d: seq<Digit>, n: int)
    requires d != [] && d[0] != 0 && d[|d| - 1] != 0 && (n > 21 || n <= -6)
    ensures HasParts(d, n, d[..1], d[1..], n - 1)
  {
    hide DigitText, ExponentText;
    assert d[..1] + d[1..] == d;
    if |d| == 1 {
      assert d[..1] == d;
      assert DigitText(d) + ([] + ExponentText(n - 1)) == DigitText(d) + ExponentText(n - 1);
    } else {
      assert DigitText(d[..1]) + (([DOT] + DigitText(d[1..])) + ExponentText(n - 1))
          == DigitText(d[..1]) + [DOT] + DigitText(d[1..]) + ExponentText(n - 1);
    }
  }

  lemma MagnitudeParts(d: seq<Digit>, n: int) returns (whole: seq<Digit>, fraction: seq<Digit>, e: int)
    requires d != [] && d[0] != 0 && d[|d| - 1] != 0
    ensures HasParts(d, n, whole, fraction, e)
  {
    hide HasParts;
    if |d| <= n <= 21 {
      whole, fraction, e := d + Padding(n - |d|), [], 0;
      WholeForm(d, n);
    } else if 0 < n <= 21 {
      whole, fraction, e := d[..n], d[n..], 0;
      PointForm(d, n);
    } else if -6 < n <= 0 {
      whole, fraction, e := [0], Padding(-n) + d, 0;
      FractionForm(d, n);
    } else {
      whole, fraction, e := d[..1], d[1..], n - 1;
      ExponentForm(d, n);
    }
  }

  /** A number as its text reads: 0 and -0 are the same. */
  function Plain(v: Number): Number {
    if v.digits == [] then Number(false, [], 0) else v
  }

  /** A written number reads back, up to the sign of zero, whatever may follow it. */
  lemma NumberReadsBack(v: Number, x: Text)
    requires v.Valid() && StopsNumber(x)
    ensures ReadNumber(NumberText(v) + x) == Some((Plain(v), x))
  {
    hide MagnitudeText, ReadNumber, DigitText, ExponentText, StopsNumber;
    if v.digits == [] {
      PartsReadBack(false, [0], [], 0, x);
      assert DigitText([0]) == [ZERO];
      assert NumberText(v) + x == [] + (DigitText([0]) + ([] + ([] + x)));
      assert Unpadded(false, [0] + [], 1) == Unpadded(false, [], 0) by { assert ([0] + [])[1..] == []; }
    } else {
      var whole, fraction, e := MagnitudeParts(v.digits, v.point);
      PartsReadBack(v.negative, whole, fraction, e, x);
      hide Unpadded;
      var f := if fraction == [] then [] else [DOT] + DigitText(fraction);
      var g := if e == 0 then [] else ExponentText(e);
      var sign := if v.negative then [MINUS] else [];
      assert sign + (DigitText(whole) + (f + g)) + x == sign + (DigitText(whole) + (f + (g + x)));
    }
  }

  // ---------- values ----------

  /** What may follow a value inside a text: nothing, or a unit that ends it. */
  predicate Ends(rest: Text) {
    rest == [] || rest[0] in {COMMA, RIGHT_BRACKET, RIGHT_BRACE}
  }

  /** The value as its text gives it back: fields in the order of their names, zeros without a sign. */
  function Canonical(v: Json): Json
    decreases v
  {
    match v
    case Num(n) => Num(Plain(n))
    case Arr(items) => Arr(seq(|items|, i requires 0 <= i < |items| => Canonical(items[i])))
    case Obj(fields) =>
      SortKeeps(fields);
      var fs := SortedByName(fields);
      Obj(seq(|fs|, i requires 0 <= i < |fs| => assert fs[i] in fields; Field(fs[i].name, Canonical(fs[i].value))))
    case _ => v
  }

  function CanonicalItems(items: seq<Json>): (r: seq<Json>)
    ensures |r| == |items| && forall i :: 0 <= i < |r| ==> r[i] == Canonical(items[i])
  {
    seq(|items|, i requires 0 <= i < |items| => Canonical(items[i]))
  }

  function CanonicalFields(fields: seq<Field>): (r: seq<Field>)
    ensures |r| == |fields| && forall i :: 0 <= i < |r| ==> r[i] == Field(fields[i].name, Canonical(fields[i].value))
  {
    seq(|fields|, i requires 0 <= i < |fields| => Field(fields[i].name, Canonical(fields[i].value)))
  }

  lemma CanonicalParts(v: Json)
    ensures v.Arr? ==> Canonical(v) == Arr(CanonicalItems(v.items))
    ensures v.Obj? ==> Canonical(v) == Obj(CanonicalFields(SortedByName(v.fields)))
  {
    if v.Obj? {
      SortKeeps(v.fields);
      var fs := SortedByName(v.fields);
      assert Canonical(v).fields == CanonicalFields(fs);
    }
  }

  /** A text with this prefix begins with its units. */
  lemma PrefixHead(p: Text, t: Text)
    requires p != []
    ensures p <= t ==> t != [] && t[0] == p[0]
    ensures p <= t && |p| > 1 ==> |t| > 1 && t[1] == p[1]
  {
  }

  lemma EndsStopsNumber(x: Text)
    requires Ends(x)
    ensures StopsNumber(x)
  {
  }

  /** The text of a value begins with none of the units that the reader looks for to tell that a list is empty. */
  lemma FirstUnit(v: Json)
    requires WellFormed(v) && CanonicalText(v).Success?
    ensures var t := CanonicalText(v).value; t != [] && t[0] != RIGHT_BRACKET && t[0] != RIGHT_BRACE
  {
    if v.Num? && v.number.digits != [] {
      hide MagnitudeText;
      MagnitudeStart(v.number.digits, v.number.point);
    }
  }

  lemma MagnitudeStart(d: seq<Digit>, n: int)
    requires d != [] && d[0] != 0 && d[|d| - 1] != 0
    ensures MagnitudeText(d, n) != [] && IsDecimal(MagnitudeText(d, n)[0])
  {
    var whole, fraction, e := MagnitudeParts(d, n);
  }

  /** The first unit of a number's text tells the reader that it is one. */
  lemma NumberDispatch(n: Number, x: Text)
    requires n.Valid()
    ensures var t := NumberText(n) + x;
      ReadValue(t) == match ReadNumber(t) case None => None case Some((m, end)) => Some((Num(m), end))
  {
    hide ReadNumber, MagnitudeText;
    var t := NumberText(n) + x;
    if n.digits != [] {
      MagnitudeStart(n.digits, n.point);
    }
    assert t[0] == NumberText(n)[0];
    assert IsDecimal(t[0]) || t[0] == MINUS;
    PrefixHead(Ascii("null"), t);
    PrefixHead(Ascii("true"), t);
    PrefixHead(Ascii("false"), t);
    PrefixHead(Ascii("[]"), t);
    PrefixHead(Ascii("{}"), t);
  }

  lemma WordReadsBack(v: Json, x: Text)
    requires v.Null? || v.Bool?
    ensures ReadValue(CanonicalText(v).value + x) == Some((v, x))
  {
    var w := CanonicalText(v).value;
    assert w == if v.Null? then Ascii("null") else if v.flag then Ascii("true") else Ascii("false");
    assert (w + x)[..|w|] == w && (w + x)[|w|..] == x;
    assert v.Bool? ==> (w + x)[0] != Ascii("null")[0];
    assert v.Bool? && !v.flag ==> (w + x)[0] != Ascii("true")[0];
  }

  // ---------- the text after a list's first element ----------

  lemma Unwrap(open: CodeUnit, body: Text, close: CodeUnit, x: Text)
    ensures ([open] + body + [close]) + x == [open] + (body + ([close] + x))
  {
    assert ([open] + body + [close]) + x == [open] + (body + ([close] + x));
  }

  lemma SplitField(name: Text, first: Text, more: bool, tail: Text, close: Text)
    ensures (name + ([COLON] + (first + if more then [COMMA] + tail else []))) + close
         == name + ([COLON] + (first + if more then [COMMA] + (tail + close) else close))
  {
    SplitList(first, more, tail, close);
    var list := first + if more then [COMMA] + tail else [];
    assert (name + ([COLON] + list)) + close == name + ([COLON] + (list + close));
  }

  /** A list text and what closes it, split after the first element. */
  lemma SplitList(first: Text, more: bool, tail: Text, close: Text)
    ensures (first + if more then [COMMA] + tail else []) + close
         == first + if more then [COMMA] + (tail + close) else close
  {
    if more {
      assert (first + ([COMMA] + tail)) + close == first + ([COMMA] + (tail + close));
    } else {
      assert (first + []) + close == first + close;
    }
  }

  lemma ItemsStep(items: seq<Json>, whole: Json, x: Text)
    requires forall i :: 0 <= i < |items| ==> items[i] < whole
    requires items != [] && ItemsText(items, whole).Success?
    ensures CanonicalText(items[0]).Success? && ItemsText(items[1..], whole).Success?
    ensures ItemsText(items, whole).value + ([RIGHT_BRACKET] + x)
         == CanonicalText(items[0]).value + ItemsRest(items, whole, x)
    ensures Ends(ItemsRest(items, whole, x))
  {
    SplitList(CanonicalText(items[0]).value, |items| > 1, ItemsText(items[1..], whole).value, [RIGHT_BRACKET] + x);
  }

  /** What follows the first item of an array in the text. */
  function ItemsRest(items: seq<Json>, whole: Json, x: Text): Text
    requires forall i :: 0 <= i < |items| ==> items[i] < whole
    requires items != [] && ItemsText(items, whole).Success?
  {
    if |items| > 1 then [COMMA] + (ItemsText(items[1..], whole).value + ([RIGHT_BRACKET] + x))
    else [RIGHT_BRACKET] + x
  }

  lemma FieldsStep(fields: seq<Field>, whole: Json, x: Text)
    requires forall f :: f in fields ==> f.value < whole
    requires fields != [] && FieldsText(fields, whole).Success?
    ensures CanonicalText(fields[0].value).Success? && FieldsText(fields[1..], whole).Success?
    ensures FieldsText(fields, whole).value + ([RIGHT_BRACE] + x)
         == Quoted(fields[0].name) + ([COLON] + (CanonicalText(fields[0].value).value + FieldsRest(fields, whole, x)))
    ensures Ends(FieldsRest(fields, whole, x))
  {
    SplitField(Quoted(fields[0].name), CanonicalText(fields[0].value).value, |fields| > 1,
               FieldsText(fields[1..], whole).value, [RIGHT_BRACE] + x);
  }

  /** What follows the first field of an object in the text. */
  function FieldsRest(fields: seq<Field>, whole: Json, x: Text): Text
    requires forall f :: f in fields ==> f.value < whole
    requires fields != [] && FieldsText(fields, whole).Success?
  {
    if |fields| > 1 then [COMMA] + (FieldsText(fields[1..], whole).value + ([RIGHT_BRACE] + x))
    else [RIGHT_BRACE] + x
  }

  // ---------- the round trip ----------

  /** The text of a value reads back as the value with its keys in order, at the place where the text ends. */
  lemma {:induction false} ValueReadsBack(v: Json, x: Text)
    requires WellFormed(v) && CanonicalText(v).Success? && Ends(x)
    ensures ReadValue(CanonicalText(v).value + x) == Some((Canonical(v), x))
    decreases v, 1, 0
  {
    CanonicalParts(v);
    if v.Num? {
      EndsStopsNumber(x);
      NumberDispatch(v.number, x);
      NumberReadsBack(v.number, x);
    } else if v.Str? {
      QuotedReadsBack(v.text, x);
      StringDispatch(v.text, x);
    } else if v.Arr? {
      ArrayReadsBack(v, x);
    } else if v.Obj? {
      ObjectReadsBack(v, x);
    } else {
      WordReadsBack(v, x);
    }
  }

  lemma StringDispatch(s: Text, x: Text)
    ensures (Quoted(s) + x)[1..] == Escaped(s) + [QUOTE] + x
    ensures ReadValue(Quoted(s) + x)
         == match ReadChars(Escaped(s) + [QUOTE] + x) case None => None case Some((r, end)) => Some((Str(r), end))
  {
    hide ReadChars, Escaped;
    var t := Quoted(s) + x;
    assert t[0] == QUOTE && t[1..] == Escaped(s) + [QUOTE] + x;
    PrefixHead(Ascii("null"), t);
    PrefixHead(Ascii("true"), t);
    PrefixHead(Ascii("false"), t);
  }

  /** A text that begins with a bracket or brace, followed by anything but the closing one, is read as a list. */
  lemma ListDispatch(open: CodeUnit, body: Text)
    requires open == LEFT_BRACKET || open == LEFT_BRACE
    requires body != [] && body[0] != RIGHT_BRACKET && body[0] != RIGHT_BRACE
    ensures open == LEFT_BRACKET ==>
              ReadValue([open] + body) == match ReadItems(body) case None => None case Some((items, end)) => Some((Arr(items), end))
    ensures open == LEFT_BRACE ==>
              ReadValue([open] + body) == match ReadFields(body) case None => None case Some((fields, end)) => Some((Obj(fields), end))
  {
    hide ReadItems, ReadFields;
    var t := [open] + body;
    assert t[0] == open && t[1] == body[0] && t[1..] == body;
    PrefixHead(Ascii("null"), t);
    PrefixHead(Ascii("true"), t);
    PrefixHead(Ascii("false"), t);
    PrefixHead(Ascii("[]"), t);
    PrefixHead(Ascii("{}"), t);
  }

  lemma EmptyListsReadBack(x: Text)
    ensures ReadValue([LEFT_BRACKET] + ([RIGHT_BRACKET] + x)) == Some((Arr([]), x))
    ensures ReadValue([LEFT_BRACE] + ([RIGHT_BRACE] + x)) == Some((Obj([]), x))
  {
    var t, u := [LEFT_BRACKET] + ([RIGHT_BRACKET] + x), [LEFT_BRACE] + ([RIGHT_BRACE] + x);
    assert t[..2] == Ascii("[]") && t[2..] == x && u[..2] == Ascii("{}") && u[2..] == x;
    assert t[0] == LEFT_BRACKET && u[0] == LEFT_BRACE;
    PrefixHead(Ascii("null"), t);
    PrefixHead(Ascii("true"), t);
    PrefixHead(Ascii("false"), t);
    PrefixHead(Ascii("null"), u);
    PrefixHead(Ascii("true"), u);
    PrefixHead(Ascii("false"), u);
    PrefixHead(Ascii("[]"), u);
  }

  lemma {:induction false} ArrayReadsBack(v: Json, x: Text)
    requires v.Arr? && WellFormed(v) && CanonicalText(v).Success?
    ensures ReadValue(CanonicalText(v).value + x) == Some((Arr(CanonicalItems(v.items)), x))
    decreases v, 0, |v.items| + 1
  {
    var body := ItemsText(v.items, v).value;
    Unwrap(LEFT_BRACKET, body, RIGHT_BRACKET, x);
    if v.items == [] {
      EmptyListsReadBack(x);
      assert body + ([RIGHT_BRACKET] + x) == [RIGHT_BRACKET] + x;
    } else {
      ItemsStep(v.items, v, x);
      FirstUnit(v.items[0]);
      ListDispatch(LEFT_BRACKET, body + ([RIGHT_BRACKET] + x));
      ItemsReadBack(v.items, v, x);
    }
  }

  lemma {:induction false} ItemsReadBack(items: seq<Json>, whole: Json, x: Text)
    requires items != [] && forall i :: 0 <= i < |items| ==> items[i] < whole && WellFormed(items[i])
    requires ItemsText(items, whole).Success?
    ensures ReadItems(ItemsText(items, whole).value + ([RIGHT_BRACKET] + x)) == Some((CanonicalItems(items), x))
    decreases whole, 0, |items|
  {
    hide ReadValue, CanonicalText, WellFormed;
    var rest := ItemsRest(items, whole, x);
    ItemsStep(items, whole, x);
    ValueReadsBack(items[0], rest);
    if |items| == 1 {
      assert rest[1..] == x;
      assert CanonicalItems(items) == [Canonical(items[0])];
    } else {
      assert rest[1..] == ItemsText(items[1..], whole).value + ([RIGHT_BRACKET] + x);
      ItemsReadBack(items[1..], whole, x);
      assert CanonicalItems(items) == [Canonical(items[0])] + CanonicalItems(items[1..]);
    }
  }

  lemma {:induction false} ObjectReadsBack(v: Json, x: Text)
    requires v.Obj? && WellFormed(v) && CanonicalText(v).Success?
    ensures ReadValue(CanonicalText(v).value + x) == Some((Obj(CanonicalFields(SortedByName(v.fields))), x))
    decreases v, 0, |v.fields| + 1
  {
    SortKeeps(v.fields);
    var fs := SortedByName(v.fields);
    var body := FieldsText(fs, v).value;
    Unwrap(LEFT_BRACE, body, RIGHT_BRACE, x);
    if fs == [] {
      EmptyListsReadBack(x);
      assert body + ([RIGHT_BRACE] + x) == [RIGHT_BRACE] + x;
    } else {
      FieldsStep(fs, v, x);
      assert (body + ([RIGHT_BRACE] + x))[0] == QUOTE;
      ListDispatch(LEFT_BRACE, body + ([RIGHT_BRACE] + x));
      FieldsReadBack(fs, v, x);
    }
  }

  lemma NameReadsBack(name: Text, value: Text)
    ensures var t := Quoted(name) + ([COLON] + value);
      t[0] == QUOTE && ReadChars(t[1..]) == Some((name, [COLON] + value)) && ([COLON] + value)[1..] == value
  {
    var t := Quoted(name) + ([COLON] + value);
    assert t[1..] == Escaped(name) + [QUOTE] + ([COLON] + value);
    QuotedReadsBack(name, [COLON] + value);
  }

  lemma ReadFieldsStep(t: Text, name: Text, colon: Text, v: Json, rest: Text)
    requires StartsQuoted(t) && ReadChars(t[1..]) == Some((name, colon)) && Starts(colon, ':')
    requires ReadValue(colon[1..]) == Some((v, rest))
    ensures Starts(rest, '}') ==> ReadFields(t) == Some(([Field(name, v)], rest[1..]))
    ensures Starts(rest, ',') && ReadFields(rest[1..]).Some? ==>
              var (fs, end) := ReadFields(rest[1..]).value; ReadFields(t) == Some(([Field(name, v)] + fs, end))
  {
    hide ReadChars, ReadValue;
  }

  lemma {:induction false} FieldsReadBack(fields: seq<Field>, whole: Json, x: Text)
    requires fields != [] && forall f :: f in fields ==> f.value < whole && WellFormed(f.value)
    requires FieldsText(fields, whole).Success?
    ensures ReadFields(FieldsText(fields, whole).value + ([RIGHT_BRACE] + x)) == Some((CanonicalFields(fields), x))
    decreases whole, 0, |fields|
  {
    hide ReadValue, ReadChars, ReadFields, CanonicalText, WellFormed, Escaped, FieldsText;
    var t, rest := FieldsText(fields, whole).value + ([RIGHT_BRACE] + x), FieldsRest(fields, whole, x);
    FieldsStep(fields, whole, x);
    var value := CanonicalText(fields[0].value).value + rest;
    NameReadsBack(fields[0].name, value);
    ValueReadsBack(fields[0].value, rest);
    ReadFieldsStep(t, fields[0].name, [COLON] + value, Canonical(fields[0].value), rest);
    if |fields| == 1 {
      assert rest[1..] == x;
      assert CanonicalFields(fields) == [Field(fields[0].name, Canonical(fields[0].value))];
    } else {
      assert rest[1..] == FieldsText(fields[1..], whole).value + ([RIGHT_BRACE] + x);
      FieldsReadBack(fields[1..], whole, x);
      assert CanonicalFields(fields) == [Field(fields[0].name, Canonical(fields[0].value))] + CanonicalFields(fields[1..]);
    }
  }

  // ---------- key order ----------

  /** The order of section 3.2.3 of RFC 8785: a proper prefix comes first, else the smaller unit at the first difference. */
  ghost predicate Precedes(s: Text, t: Text) {
    exists k :: SplitAt(s, t, k)
  }

  predicate SplitAt(s: Text, t: Text, k: int) {
    0 <= k <= |s| && k < |t| && s[..k] == t[..k] && (k == |s| || s[k] < t[k])
  }

  lemma SplitHead(s: Text, t: Text, k: int)
    requires SplitAt(s, t, k)
    ensures k > 0 ==> s != [] && s[0] == t[0]
  {
    if k > 0 {
      assert s[..k][0] == s[0] && t[..k][0] == t[0];
    }
  }

  lemma {:induction false} BeforeExactly(s: Text, t: Text)
    ensures Before(s, t) <==> Precedes(s, t)
  {
    if s != [] && t != [] && s[0] == t[0] {
      BeforeExactly(s[1..], t[1..]);
      assert s == [s[0]] + s[1..] && t == [t[0]] + t[1..];
      if Precedes(s[1..], t[1..]) {
        var k :| SplitAt(s[1..], t[1..], k);
        assert s[..k + 1] == [s[0]] + s[1..][..k] && t[..k + 1] == [t[0]] + t[1..][..k];
        assert SplitAt(s, t, k + 1);
      }
      if Precedes(s, t) {
        var k :| SplitAt(s, t, k);
        assert k > 0;
        assert s[1..][..k - 1] == s[..k][1..] && t[1..][..k - 1] == t[..k][1..];
        assert SplitAt(s[1..], t[1..], k - 1);
      }
    } else if t != [] {
      assert s[..0] == t[..0];
      assert SplitAt(s, t, 0) <==> s == [] || s[0] < t[0];
      forall k | SplitAt(s, t, k) ensures k > 0 ==> s != [] && s[0] == t[0] {
        SplitHead(s, t, k);
      }
    }
  }

  /** In every object of the value, at every depth, each name precedes those after it. */
  ghost predicate KeysInOrder(v: Json) {
    match v
    case Arr(items) => forall x :: x in items ==> KeysInOrder(x)
    case Obj(fields) =>
      && (forall i, j :: 0 <= i < j < |fields| ==> Precedes(fields[i].name, fields[j].name))
      && forall f :: f in fields ==> KeysInOrder(f.value)
    case _ => true
  }

  lemma {:induction false} CanonicalIsSame(v: Json)
    requires WellFormed(v)
    ensures Same(v, Canonical(v)) && KeysInOrder(Canonical(v))
    decreases v
  {
    CanonicalParts(v);
    if v.Arr? {
      forall i | 0 <= i < |v.items|
        ensures Same(v.items[i], Canonical(v.items[i])) && KeysInOrder(Canonical(v.items[i]))
      {
        CanonicalIsSame(v.items[i]);
      }
    } else if v.Obj? {
      forall f | f in v.fields
        ensures Same(f.value, Canonical(f.value)) && KeysInOrder(Canonical(f.value))
      {
        CanonicalIsSame(f.value);
      }
      CanonicalFieldsAreSame(v);
    }
  }

  lemma CanonicalFieldsAreSame(v: Json)
    requires v.Obj? && WellFormed(v)
    requires forall f :: f in v.fields ==> Same(f.value, Canonical(f.value)) && KeysInOrder(Canonical(f.value))
    ensures Same(v, Canonical(v)) && KeysInOrder(Canonical(v))
  {
    hide WellFormed, Before, Precedes;
    SortKeeps(v.fields);
    assert DistinctNames(v.fields) by { Names(v); }
    SortAscending(v.fields);
    CanonicalParts(v);
    var fs := SortedByName(v.fields);
    var gs := CanonicalFields(fs);
    assert forall i :: 0 <= i < |fs| ==> fs[i] in v.fields;
    AllHaveSame(v.fields, fs, gs, gs);
    forall i, j | 0 <= i < j < |gs| ensures Precedes(gs[i].name, gs[j].name) {
      BeforeExactly(fs[i].name, fs[j].name);
    }
    forall j | 0 <= j < |gs| ensures HasName(gs[j].name, v.fields) {
      var k :| 0 <= k < |v.fields| && v.fields[k] == fs[j];
      IsNamesake(gs[j].name, v.fields, k);
    }
  }

  lemma Names(v: Json)
    requires v.Obj? && WellFormed(v)
    ensures DistinctNames(v.fields)
  {
  }

  /** Values that read alike are the same up to key order. */
  lemma {:induction false} CanonicalDecides(a: Json, b: Json)
    requires WellFormed(a) && WellFormed(b) && Canonical(a) == Canonical(b)
    ensures Same(a, b)
    decreases a
  {
    CanonicalParts(a);
    CanonicalParts(b);
    if a.Arr? {
      forall i | 0 <= i < |a.items| ensures Same(a.items[i], b.items[i]) {
        assert CanonicalItems(a.items)[i] == CanonicalItems(b.items)[i];
        CanonicalDecides(a.items[i], b.items[i]);
      }
    } else if a.Obj? {
      hide Same, Canonical, Before;
      SortKeeps(a.fields);
      SortKeeps(b.fields);
      var fs, gs := SortedByName(a.fields), SortedByName(b.fields);
      assert |CanonicalFields(fs)| == |CanonicalFields(gs)|;
      forall i | 0 <= i < |fs| ensures fs[i].name == gs[i].name && Same(fs[i].value, gs[i].value) {
        assert CanonicalFields(fs)[i] == CanonicalFields(gs)[i] && fs[i] in a.fields && gs[i] in b.fields;
        CanonicalDecides(fs[i].value, gs[i].value);
      }
      SameBySorted(a, fs, b, gs);
    }
  }

  lemma SameBySorted(a: Json, fs: seq<Field>, b: Json, gs: seq<Field>)
    requires a.Obj? && b.Obj? && |fs| == |gs|
    requires (forall f :: f in fs <==> f in a.fields) && (forall g :: g in gs <==> g in b.fields)
    requires forall i :: 0 <= i < |fs| ==> fs[i].name == gs[i].name && Same(fs[i].value, gs[i].value)
    ensures Same(a, b)
  {
    AllHaveSame(a.fields, fs, b.fields, gs);
    hide HasSame, HasName;
    forall j | 0 <= j < |b.fields| ensures HasName(b.fields[j].name, a.fields) {
      assert b.fields[j] in gs;
      var k :| 0 <= k < |gs| && gs[k] == b.fields[j];
      assert fs[k] in a.fields;
      var i :| 0 <= i < |a.fields| && a.fields[i] == fs[k];
      IsNamesake(b.fields[j].name, a.fields, i);
    }
  }

  // ---------- the theorems ----------

  /** What is written is a JSON text of the value: it reads back as the value itself up to key order, with all keys in order. */
  lemma CanonicalTextReadsBack(v: Json) returns (w: Json)
    requires WellFormed(v) && Serializable(v)
    ensures CanonicalText(v).Success? && ReadJson(CanonicalText(v).value) == Some(w)
    ensures Same(v, w) && KeysInOrder(w)
  {
    hide WellFormed, Serializable, Same, KeysInOrder, ReadValue;
    WrittenExactlyWhenSerializable(v);
    w := Canonical(v);
    ValueReadsBack(v, []);
    CanonicalIsSame(v);
    assert CanonicalText(v).value + [] == CanonicalText(v).value;
  }

  /** The text of a value stands for the value up to key order, and for nothing else. */
  lemma CanonicalTextInjective(a: Json, b: Json)
    requires WellFormed(a) && WellFormed(b) && Serializable(a)
    ensures CanonicalText(a) == CanonicalText(b) <==> Same(a, b)
  {
    hide WellFormed, Serializable, Same, ReadValue;
    WrittenExactlyWhenSerializable(a);
    if CanonicalText(a) == CanonicalText(b) {
      ValueReadsBack(a, []);
      ValueReadsBack(b, []);
      CanonicalDecides(a, b);
    }
    if Same(a, b) {
      SameValueSameText(a, b);
    }
  }

  /** Two finite numbers are written alike exactly when they are the same number. */
  lemma NumberTextInjective(a: Number, b: Number)
    requires a.Valid() && b.Valid()
    ensures NumberText(a) == NumberText(b) <==> SameNumber(a, b)
  {
    hide ReadNumber, MagnitudeText;
    NumberReadsBack(a, []);
    NumberReadsBack(b, []);
  }

  // ---------- which of the texts that read alike is written ----------

  lemma EscapedAfter(u: CodeUnit, rest: Text)
    ensures |Escaped([u] + rest)| <= 6 + |Escaped(rest)|
    ensures !IsHighSurrogate(u) ==> |Escaped([u] + rest)| == |Token([u])| + |Escaped(rest)|
  {
    var s := [u] + rest;
    assert s[1..] == rest;
    if StartsWithPair(s) {
      assert s[2..] == rest[1..];
    }
  }

  lemma CharIsNoShorter(t: Text, rest: Text)
    requires t != [] && ReadChar(t).Some?
    ensures |Escaped(ReadChar(t).value.0 + rest)| <= ReadChar(t).value.1 + |Escaped(rest)|
  {
    hide UnitOf, Hex4;
    var (c, width) := ReadChar(t).value;
    if |c| == 1 {
      EscapedAfter(c[0], rest);
      assert c == [c[0]];
    } else {
      assert (c + rest)[2..] == rest;
    }
  }

  /** No other way to write a string within its quotes is shorter. */
  lemma {:induction false} EscapedIsShortest(t: Text, s: Text, x: Text)
    requires ReadChars(t) == Some((s, x))
    ensures |Escaped(s)| + 1 + |x| <= |t|
    decreases |t|
  {
    hide Escaped, ReadChar;
    if t[0] != QUOTATION_MARK {
      var (c, width) := ReadChar(t).value;
      var (rest, end) := ReadChars(t[width..]).value;
      EscapedIsShortest(t[width..], rest, x);
      CharIsNoShorter(t, rest);
    } else {
      assert |Escaped([])| == 0 by { NothingEscaped(); }
    }
  }

  lemma NothingEscaped()
    ensures Escaped([]) == []
  {
  }

  /** Escapes by number use small letters. */
  lemma EscapesAreLowerCase(u: CodeUnit)
    ensures forall h :: h in Hex4(u) ==> '0' as int <= h <= '9' as int || 'a' as int <= h <= 'f' as int
  {
  }

  function FormLength(k: nat, n: int): int {
    if n > 21 || n <= -6 then (if k == 1 then 1 else k + 1) + 2 + |NatText(if n < 1 then 1 - n else n - 1)|
    else if n <= 0 then 2 - n + k else if n < k then k + 1 else n
  }

  lemma MagnitudeForm(d: seq<Digit>, n: int)
    requires d != []
    ensures var t := MagnitudeText(d, n);
      ('e' as int in t <==> n > 21 || n <= -6) && |t| == FormLength(|d|, n)
  {
    hide NatText;
    if n > 21 || n <= -6 {
      assert ExponentText(n - 1)[0] in ExponentText(n - 1);
    } else {
      hide ExponentText;
    }
  }

  /** When a number's text has an exponent, and how long it is. */
  lemma NumberTextForm(v: Number)
    requires v.Valid() && v.digits != []
    ensures 'e' as int in NumberText(v) <==> v.point > 21 || v.point <= -6
    ensures |NumberText(v)| == (if v.negative then 1 else 0) + FormLength(|v.digits|, v.point)
  {
    hide MagnitudeText, FormLength;
    MagnitudeForm(v.digits, v.point);
  }
}
