/** `decodeURIComponent` over UTF-16 code units: percent-encoded UTF-8 octets, as in section 2.1 of RFC 3986. */
module PercentDecoding {
  import opened Wrappers
  import opened JsonText

  const PERCENT: CodeUnit := 0x25

  function HexValue(u: CodeUnit): (r: Option<int>)
    ensures r.Some? ==> 0 <= r.value < 16
  {
    if 0x30 <= u <= 0x39 then Some(u - 0x30)
    else if 0x41 <= u <= 0x46 then Some(u - 0x37)
    else if 0x61 <= u <= 0x66 then Some(u - 0x57)
    else None
  }

  /** The octet a leading `%XX` stands for. */
  function Octet(s: Text): (r: Option<int>)
    ensures r.Some? ==> |s| >= 3 && 0 <= r.value < 256
  {
    if |s| < 3 || s[0] != PERCENT then None
    else match (HexValue(s[1]), HexValue(s[2]))
      case (Some(h), Some(l)) => Some(16 * h + l)
      case _ => None
  }

  /** How many octets a leading octet announces, or 0 when none can start with it. */
  function Announced(b: int): nat {
    if 0 <= b < 0x80 then 1
    else if 0xC0 <= b < 0xE0 then 2
    else if 0xE0 <= b < 0xF0 then 3
    else if 0xF0 <= b < 0xF8 then 4
    else 0
  }

  /** The value of `n` continuation octets that follow `high`. */
  function Continued(high: int, s: Text, n: nat): (r: Option<int>)
    requires high >= 0
    ensures r.Some? ==> |s| >= 3 * n && r.value >= 0
    decreases n
  {
    if n == 0 then Some(high)
    else match Octet(s)
      case Some(b) => if 0x80 <= b < 0xC0 then Continued(64 * high + b - 0x80, s[3..], n - 1) else None
      case None => None
  }

  /** Neither overlong, nor a surrogate, nor beyond the last code point. */
  predicate WellFormedPoint(v: int, n: nat) {
    match n
    case 1 => 0 <= v < 0x80
    case 2 => 0x80 <= v < 0x800
    case 3 => 0x800 <= v < 0x10000 && !(0xD800 <= v < 0xE000)
    case 4 => 0x10000 <= v < 0x110000
    case _ => false
  }

  /** The value and width of the code point that a leading group of octets encodes. */
  function Point(s: Text): (r: Option<(int, nat)>)
    ensures r.Some? ==> WellFormedPoint(r.value.0, r.value.1) && |s| >= 3 * r.value.1 >= 3
  {
    match Octet(s)
    case None => None
    case Some(b) =>
      var n := Announced(b);
      if n == 0 then None
      else
        var high := if n == 1 then b else if n == 2 then b - 0xC0 else if n == 3 then b - 0xE0 else b - 0xF0;
        match Continued(high, s[3..], n - 1)
        case Some(v) => if WellFormedPoint(v, n) then Some((v, n)) else None
        case None => None
  }

  function Utf16(v: int): Text
    requires 0 <= v < 0x110000
  {
    if v < 0x10000 then [v] else [0xD800 + (v - 0x10000) / 0x400, 0xDC00 + (v - 0x10000) % 0x400]
  }

  /** The decoded text, or None where the original throws. */
  function Decode(s: Text): Option<Text> {
    if s == [] then Some([])
    else if s[0] != PERCENT then
      match Decode(s[1..])
      case Some(rest) => Some([s[0]] + rest)
      case None => None
    else match Point(s)
      case None => None
      case Some((v, n)) =>
        match Decode(s[3 * n..])
        case Some(rest) => Some(Utf16(v) + rest)
        case None => None
  }

  /** Text without a percent sign stands for itself. */
  lemma {:induction false} DecodePlain(s: Text)
    requires PERCENT !in s
    ensures Decode(s) == Some(s)
  {
    if s != [] {
      DecodePlain(s[1..]);
      assert s == [s[0]] + s[1..];
    }
  }

  // ---------- decoding undoes encoding ----------

  /** A Unicode scalar value: a code point that is not a surrogate. */
  type ScalarValue = v: int | 0 <= v < 0x110000 && !(0xD800 <= v < 0xE000)

  function UpperHex(d: int): CodeUnit
    requires 0 <= d < 16
  {
    if d < 10 then 0x30 + d else 0x37 + d
  }

  function Escape(b: int): (r: Text)
    requires 0 <= b < 256
    ensures |r| == 3 && r[0] == PERCENT
  {
    [PERCENT, UpperHex(b / 16), UpperHex(b % 16)]
  }

  /** The UTF-8 octets of a code point, percent-encoded. */
  function Encode(v: ScalarValue): (r: Text)
    ensures |r| >= 3
  {
    if v < 0x80 then Escape(v)
    else if v < 0x800 then Escape(0xC0 + v / 64) + Escape(0x80 + v % 64)
    else if v < 0x10000 then Escape(0xE0 + v / 4096) + Escape(0x80 + v / 64 % 64) + Escape(0x80 + v % 64)
    else Escape(0xF0 + v / 262144) + Escape(0x80 + v / 4096 % 64) + Escape(0x80 + v / 64 % 64) + Escape(0x80 + v % 64)
  }

  lemma OctetOfEscape(b: int, rest: Text)
    requires 0 <= b < 256
    ensures Octet(Escape(b) + rest) == Some(b)
    ensures (Escape(b) + rest)[3..] == rest
  {
  }

  lemma ContinuedStep(high: int, b: int, rest: Text, n: nat)
    requires high >= 0 && 0 <= b < 64
    ensures Continued(high, Escape(0x80 + b) + rest, n + 1) == Continued(64 * high + b, rest, n)
  {
    OctetOfEscape(0x80 + b, rest);
  }

  lemma TwoOctets(h: int, d: int, rest: Text)
    requires 2 <= h < 32 && 0 <= d < 64
    ensures Point(Escape(0xC0 + h) + (Escape(0x80 + d) + rest)) == Some((64 * h + d, 2))
  {
    hide Escape, Octet;
    OctetOfEscape(0xC0 + h, Escape(0x80 + d) + rest);
    ContinuedStep(h, d, rest, 0);
  }

  lemma ThreeOctets(h: int, c: int, d: int, rest: Text)
    requires 0 <= h < 16 && 0 <= c < 64 && 0 <= d < 64 && WellFormedPoint(64 * (64 * h + c) + d, 3)
    ensures Point(Escape(0xE0 + h) + (Escape(0x80 + c) + (Escape(0x80 + d) + rest))) == Some((64 * (64 * h + c) + d, 3))
  {
    hide Escape, Octet;
    OctetOfEscape(0xE0 + h, Escape(0x80 + c) + (Escape(0x80 + d) + rest));
    ContinuedStep(h, c, Escape(0x80 + d) + rest, 1);
    ContinuedStep(64 * h + c, d, rest, 0);
  }

  lemma FourOctets(h: int, b: int, c: int, d: int, rest: Text)
    requires 0 <= h < 8 && 0 <= b < 64 && 0 <= c < 64 && 0 <= d < 64
    requires WellFormedPoint(64 * (64 * (64 * h + b) + c) + d, 4)
    ensures Point(Escape(0xF0 + h) + (Escape(0x80 + b) + (Escape(0x80 + c) + (Escape(0x80 + d) + rest))))
         == Some((64 * (64 * (64 * h + b) + c) + d, 4))
  {
    hide Escape, Octet;
    OctetOfEscape(0xF0 + h, Escape(0x80 + b) + (Escape(0x80 + c) + (Escape(0x80 + d) + rest)));
    ContinuedStep(h, b, Escape(0x80 + c) + (Escape(0x80 + d) + rest), 2);
    ContinuedStep(64 * h + b, c, Escape(0x80 + d) + rest, 1);
    ContinuedStep(64 * (64 * h + b) + c, d, rest, 0);
  }

  lemma Digits(v: int)
    requires v >= 0
    ensures v == 64 * (v / 64) + v % 64
    ensures v / 4096 == v / 64 / 64 && v / 262144 == v / 64 / 64 / 64
    ensures v / 64 == 64 * (v / 4096) + v / 64 % 64
    ensures v / 4096 == 64 * (v / 262144) + v / 4096 % 64
  {
  }

  /** Every Unicode scalar value decodes from its encoding, whatever follows. */
  lemma PointOfEncoded(v: ScalarValue, rest: Text)
    ensures |Encode(v)| % 3 == 0 && Encode(v)[0] == PERCENT
    ensures Point(Encode(v) + rest) == Some((v, |Encode(v)| / 3))
  {
    hide Escape, Octet, Continued, Point;
    Digits(v);
    var c, d := Escape(0x80 + v / 64 % 64), Escape(0x80 + v % 64);
    if v < 0x80 {
      OneOctet(v, rest);
    } else if v < 0x800 {
      TwoOctets(v / 64, v % 64, rest);
      Regroup2(Escape(0xC0 + v / 64), d, rest);
    } else if v < 0x10000 {
      ThreeOctets(v / 4096, v / 64 % 64, v % 64, rest);
      Regroup3(Escape(0xE0 + v / 4096), c, d, rest);
    } else {
      FourOctets(v / 262144, v / 4096 % 64, v / 64 % 64, v % 64, rest);
      Regroup4(Escape(0xF0 + v / 262144), Escape(0x80 + v / 4096 % 64), c, d, rest);
    }
  }

  lemma OneOctet(v: int, rest: Text)
    requires 0 <= v < 0x80
    ensures Point(Escape(v) + rest) == Some((v, 1))
  {
    hide Escape, Octet;
    OctetOfEscape(v, rest);
  }

  lemma Regroup2(a: Text, b: Text, e: Text)
    ensures (a + b) + e == a + (b + e)
  {
  }

  lemma Regroup3(a: Text, b: Text, c: Text, e: Text)
    ensures (a + b + c) + e == a + (b + (c + e))
  {
  }

  lemma Regroup4(a: Text, b: Text, c: Text, d: Text, e: Text)
    ensures (a + b + c + d) + e == a + (b + (c + (d + e)))
  {
  }

  /** The percent-encoding of a whole text. */
  function EncodeAll(points: seq<ScalarValue>): Text {
    if points == [] then [] else Encode(points[0]) + EncodeAll(points[1..])
  }

  function Utf16All(points: seq<ScalarValue>): Text {
    if points == [] then [] else Utf16(points[0]) + Utf16All(points[1..])
  }

  /** Decoding undoes the percent-encoding of any text. */
  lemma {:induction false} DecodeEncoded(points: seq<ScalarValue>)
    ensures Decode(EncodeAll(points)) == Some(Utf16All(points))
  {
    if points != [] {
      hide Encode, Point;
      var v, rest := points[0], EncodeAll(points[1..]);
      var s := Encode(v) + rest;
      DecodeEncoded(points[1..]);
      PointOfEncoded(v, rest);
      assert s[0] == PERCENT && s[|Encode(v)|..] == rest;
    }
  }

  // ---------- and accepts nothing else ----------

  /** Small hexadecimal letters as capital ones. */
  function Fold(u: CodeUnit): CodeUnit {
    if 'a' as int <= u <= 'f' as int then u - 0x20 else u
  }

  function Folded(s: Text): (r: Text)
    ensures |r| == |s| && forall i :: 0 <= i < |r| ==> r[i] == Fold(s[i])
  {
    if s == [] then [] else [Fold(s[0])] + Folded(s[1..])
  }

  lemma FoldedParts(s: Text, n: nat)
    requires n <= |s|
    ensures Folded(s)[..n] == Folded(s[..n]) && Folded(s)[n..] == Folded(s[n..])
  {
    hide Folded, Fold;
    assert forall i :: 0 <= i < n ==> Folded(s[..n])[i] == Fold(s[i]);
    assert forall i :: 0 <= i < |s| - n ==> Folded(s[n..])[i] == Fold(s[n + i]);
  }

  lemma OctetExactly(s: Text, b: int)
    requires 0 <= b < 256
    ensures Octet(s) == Some(b) <==> |s| >= 3 && Folded(s[..3]) == Escape(b)
  {
    if |s| >= 3 {
      assert Folded(s[..3]) == [Fold(s[0]), Fold(s[1]), Fold(s[2])];
      HexExactly(s[1], b / 16);
      HexExactly(s[2], b % 16);
      hide HexValue, Fold, UpperHex;
      assert Escape(b) == [PERCENT, UpperHex(b / 16), UpperHex(b % 16)];
      assert Fold(s[0]) == PERCENT <==> s[0] == PERCENT by { FoldPercent(s[0]); }
    }
  }

  lemma FoldPercent(u: CodeUnit)
    ensures Fold(u) == PERCENT <==> u == PERCENT
  {
  }

  lemma HexExactly(u: CodeUnit, d: int)
    requires 0 <= d < 16
    ensures HexValue(u) == Some(d) <==> Fold(u) == UpperHex(d)
  {
  }

  lemma FirstContinuation(high: int, s: Text, n: nat) returns (next: int)
    requires high >= 0 && n > 0 && Continued(high, s, n).Some?
    ensures next >= 0 && Continued(next, s[3..], n - 1) == Continued(high, s, n)
    ensures next / 64 == high && Folded(s[..3]) == Escape(0x80 + next % 64)
  {
    var b := Octet(s).value;
    next := 64 * high + b - 0x80;
    OctetExactly(s, b);
    assert next % 64 == b - 0x80;
  }

  /** The octets that follow, told from the value they add up to. */
  lemma OneContinuation(high: int, s: Text)
    requires high >= 0 && Continued(high, s, 1).Some?
    ensures var v := Continued(high, s, 1).value; v / 64 == high && Folded(s[..3]) == Escape(0x80 + v % 64)
  {
    var next := FirstContinuation(high, s, 1);
  }

  lemma TwoContinuations(high: int, s: Text)
    requires high >= 0 && Continued(high, s, 2).Some?
    ensures var v := Continued(high, s, 2).value;
      v / 4096 == high && Folded(s[..6]) == Escape(0x80 + v / 64 % 64) + Escape(0x80 + v % 64)
  {
    hide Escape, Continued, Folded, Fold;
    var next := FirstContinuation(high, s, 2);
    OneContinuation(next, s[3..]);
    Digits(Continued(high, s, 2).value);
    assert s[..6] == s[..3] + s[3..][..3];
    FoldedJoin(s[..3], s[3..][..3]);
  }

  lemma ThreeContinuations(high: int, s: Text)
    requires high >= 0 && Continued(high, s, 3).Some?
    ensures var v := Continued(high, s, 3).value;
      && v / 262144 == high
      && Folded(s[..9]) == Escape(0x80 + v / 4096 % 64) + (Escape(0x80 + v / 64 % 64) + Escape(0x80 + v % 64))
  {
    hide Escape, Continued, Folded, Fold;
    var next := FirstContinuation(high, s, 3);
    TwoContinuations(next, s[3..]);
    Digits(Continued(high, s, 3).value);
    assert s[..9] == s[..3] + s[3..][..6];
    FoldedJoin(s[..3], s[3..][..6]);
  }

  /** Only the encoding of a scalar value decodes to one, whatever the case of its digits. */
  lemma PointIsEncoded(s: Text)
    requires Point(s).Some?
    ensures var (v, n) := Point(s).value;
      && 0 <= v < 0x110000 && !(0xD800 <= v < 0xE000) && 3 * n <= |s|
      && Folded(s[..3 * n]) == Encode(v)
  {
    hide Escape, Continued, Octet, Folded;
    var (v, n) := Point(s).value;
    var b := Octet(s).value;
    OctetExactly(s, b);
    assert s[..3 * n] == s[..3] + s[3..][..3 * (n - 1)];
    FoldedJoin(s[..3], s[3..][..3 * (n - 1)]);
    if n == 1 {
      assert s[..3] + [] == s[..3] && Continued(b, s[3..], 0) == Some(b) by { NoContinuation(b, s[3..]); }
    } else if n == 2 {
      OneContinuation(b - 0xC0, s[3..]);
    } else if n == 3 {
      TwoContinuations(b - 0xE0, s[3..]);
      Regroup2(Escape(0xE0 + v / 4096), Escape(0x80 + v / 64 % 64), Escape(0x80 + v % 64));
    } else {
      ThreeContinuations(b - 0xF0, s[3..]);
      Regroup3(Escape(0xF0 + v / 262144), Escape(0x80 + v / 4096 % 64), Escape(0x80 + v / 64 % 64), Escape(0x80 + v % 64));
      Regroup2(Escape(0xF0 + v / 262144), Escape(0x80 + v / 4096 % 64), Escape(0x80 + v / 64 % 64) + Escape(0x80 + v % 64));
    }
  }

  lemma NoContinuation(high: int, s: Text)
    requires high >= 0
    ensures Continued(high, s, 0) == Some(high)
  {
  }

  // ---------- the exact language ----------

  lemma OctetFolds(s: Text, t: Text)
    requires Folded(s) == Folded(t)
    ensures Octet(s) == Octet(t)
  {
    hide HexValue, Fold;
    if |s| >= 3 {
      assert Folded(s)[0] == Folded(t)[0] && Folded(s)[1] == Folded(t)[1] && Folded(s)[2] == Folded(t)[2];
      FoldPercent(s[0]);
      FoldPercent(t[0]);
      HexFolds(s[1], t[1]);
      HexFolds(s[2], t[2]);
    }
  }

  lemma HexFolds(u: CodeUnit, v: CodeUnit)
    requires Fold(u) == Fold(v)
    ensures HexValue(u) == HexValue(v)
  {
  }

  lemma {:induction false} ContinuedFolds(high: int, s: Text, t: Text, n: nat)
    requires high >= 0 && Folded(s) == Folded(t)
    ensures Continued(high, s, n) == Continued(high, t, n)
    decreases n
  {
    hide Octet, Fold;
    OctetFolds(s, t);
    if n > 0 && Octet(s).Some? && 0x80 <= Octet(s).value < 0xC0 {
      FoldedParts(s, 3);
      FoldedParts(t, 3);
      ContinuedFolds(64 * high + Octet(s).value - 0x80, s[3..], t[3..], n - 1);
    }
  }

  lemma PointFolds(s: Text, t: Text)
    requires Folded(s) == Folded(t)
    ensures Point(s) == Point(t)
  {
    hide Octet, Fold, Continued;
    OctetFolds(s, t);
    if Octet(s).Some? && Announced(Octet(s).value) > 0 {
      var b := Octet(s).value;
      var n := Announced(b);
      var high := if n == 1 then b else if n == 2 then b - 0xC0 else if n == 3 then b - 0xE0 else b - 0xF0;
      FoldedParts(s, 3);
      FoldedParts(t, 3);
      ContinuedFolds(high, s[3..], t[3..], n - 1);
    }
  }

  /** The text begins with the encoding of `v`, in digits of either case. */
  predicate BeginsWith(s: Text, v: ScalarValue) {
    |Encode(v)| <= |s| && Folded(s[..|Encode(v)|]) == Encode(v)
  }

  lemma PointExactly(s: Text, v: ScalarValue)
    ensures Point(s).Some? && Point(s).value.0 == v <==> BeginsWith(s, v)
    ensures BeginsWith(s, v) ==> Point(s) == Some((v, |Encode(v)| / 3))
  {
    hide Encode, Point, Fold;
    if Point(s).Some? && Point(s).value.0 == v {
      PointIsEncoded(s);
    }
    if BeginsWith(s, v) {
      var n := |Encode(v)|;
      var t := Encode(v) + s[n..];
      PointOfEncoded(v, s[n..]);
      assert s == s[..n] + s[n..];
      FoldedJoin(s[..n], s[n..]);
      FoldedJoin(Encode(v), s[n..]);
      EncodedIsFolded(v);
      PointFolds(s, t);
    }
  }

  lemma EncodedIsFolded(v: ScalarValue)
    ensures Folded(Encode(v)) == Encode(v)
  {
    var t := Encode(v);
    assert forall i :: 0 <= i < |t| ==> Fold(t[i]) == t[i];
  }

  /** A text is what `s` decodes to: piece by piece, a unit other than a percent sign or the encoding of a scalar value. */
  ghost predicate Decodes(s: Text, r: Text)
    decreases |s|, 1
  {
    if s == [] then r == []
    else if s[0] != '%' as int then r != [] && r[0] == s[0] && Decodes(s[1..], r[1..])
    else exists v: ScalarValue :: DecodesFirst(s, r, v)
  }

  ghost predicate DecodesFirst(s: Text, r: Text, v: ScalarValue)
    decreases |s|, 0
  {
    BeginsWith(s, v) && Utf16(v) <= r && Decodes(s[|Encode(v)|..], r[|Utf16(v)|..])
  }

  /** Decoding accepts exactly the texts made of such pieces, and gives exactly what they stand for. */
  lemma {:induction false} DecodesExactly(s: Text, r: Text)
    ensures Decode(s) == Some(r) <==> Decodes(s, r)
    decreases |s|, 1
  {
    if s != [] && s[0] != PERCENT {
      hide Point, Encode, BeginsWith, Utf16, DecodesFirst;
      if r != [] && r[0] == s[0] {
        DecodesExactly(s[1..], r[1..]);
        assert r == [s[0]] + r[1..];
      }
    } else if s != [] {
      hide Point, Encode, BeginsWith, Utf16, DecodesFirst, Decode;
      if Decode(s) == Some(r) {
        var v := DecodedFirst(s, r);
      }
      if v: ScalarValue :| DecodesFirst(s, r, v) {
        FirstDecoded(s, r, v);
      }
    }
  }

  lemma {:induction false} DecodedFirst(s: Text, r: Text) returns (v: ScalarValue)
    requires s != [] && s[0] == PERCENT && Decode(s) == Some(r)
    ensures DecodesFirst(s, r, v)
    decreases |s|, 0
  {
    PointIsEncoded(s);
    v := Point(s).value.0;
    PointExactly(s, v);
    hide Encode, BeginsWith, Utf16, Point, Decodes;
    var rest := Decode(s[|Encode(v)|..]).value;
    assert r[|Utf16(v)|..] == rest;
    DecodesExactly(s[|Encode(v)|..], rest);
  }

  lemma {:induction false} FirstDecoded(s: Text, r: Text, v: ScalarValue)
    requires s != [] && s[0] == PERCENT && DecodesFirst(s, r, v)
    ensures Decode(s) == Some(r)
    decreases |s|, 0
  {
    PointExactly(s, v);
    PointOfEncoded(v, []);
    hide Encode, Utf16, Point, Decodes, Folded;
    DecodesExactly(s[|Encode(v)|..], r[|Utf16(v)|..]);
    assert r == Utf16(v) + r[|Utf16(v)|..];
  }

  lemma FoldedJoin(a: Text, b: Text)
    ensures Folded(a + b) == Folded(a) + Folded(b)
  {
    hide Folded, Fold;
  }
}
