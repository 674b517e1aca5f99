/** What `JSON.stringify` writes for strings and numbers, over UTF-16 code units. */
module JsonText {

  type CodeUnit = u: int | 0 <= u < 0x10000
  type Text = seq<CodeUnit>

  const QUOTE: CodeUnit := 0x22
  const PLUS: CodeUnit := 0x2B
  const COMMA: CodeUnit := 0x2C
  const MINUS: CodeUnit := 0x2D
  const DOT: CodeUnit := 0x2E
  const ZERO: CodeUnit := 0x30
  const COLON: CodeUnit := 0x3A
  const LEFT_BRACKET: CodeUnit := 0x5B
  const BACKSLASH: CodeUnit := 0x5C
  const RIGHT_BRACKET: CodeUnit := 0x5D
  const LETTER_E: CodeUnit := 0x65
  const LETTER_U: CodeUnit := 0x75
  const LEFT_BRACE: CodeUnit := 0x7B
  const RIGHT_BRACE: CodeUnit := 0x7D

  /** The code units of an ASCII text. */
  function Ascii(s: string): (t: Text)
    requires forall i :: 0 <= i < |s| ==> s[i] < 128 as char
    ensures |t| == |s| && forall i :: 0 <= i < |t| ==> t[i] == s[i] as int
  {
    seq(|s|, i requires 0 <= i < |s| => s[i] as int)
  }

  // ---------- white space ----------

  /** The white space that `trim` removes. */
  predicate IsSpace(u: CodeUnit) {
    || 0x09 <= u <= 0x0D || u == 0x20 || u == 0xA0 || u == 0x1680 || 0x2000 <= u <= 0x200A
    || u == 0x2028 || u == 0x2029 || u == 0x202F || u == 0x205F || u == 0x3000 || u == 0xFEFF
  }

  /** White space and line ends of ECMA-262, sections 12.2 and 12.3, unit by unit. */
  lemma SpacesExactly(u: CodeUnit)
    ensures IsSpace(u) <==>
            u in [0x09, 0x0A, 0x0B, 0x0C, 0x0D, 0x20, 0xA0, 0x1680, 0x2000, 0x2001, 0x2002, 0x2003, 0x2004, 0x2005, 0x2006,
                  0x2007, 0x2008, 0x2009, 0x200A, 0x2028, 0x2029, 0x202F, 0x205F, 0x3000, 0xFEFF]
  {
  }

  /** Nothing is left of the text when it is trimmed. */
  predicate IsBlank(t: Text) {
    forall i :: 0 <= i < |t| ==> IsSpace(t[i])
  }

  // ---------- strings ----------

  predicate IsHighSurrogate(u: CodeUnit) { 0xD800 <= u < 0xDC00 }

  predicate IsLowSurrogate(u: CodeUnit) { 0xDC00 <= u < 0xE000 }

  predicate StartsWithPair(s: Text) {
    |s| >= 2 && IsHighSurrogate(s[0]) && IsLowSurrogate(s[1])
  }

  function HexDigit(d: int): CodeUnit
    requires 0 <= d < 16
  {
    if d < 10 then 0x30 + d else 0x57 + d
  }

  function Hex4(u: CodeUnit): (h: Text)
    ensures |h| == 4
  {
    [HexDigit(u / 4096), HexDigit(u / 256 % 16), HexDigit(u / 16 % 16), HexDigit(u % 16)]
  }

  /** The second unit of a two-unit escape, or 0 when the unit has none. */
  function ShortEscape(u: CodeUnit): CodeUnit {
    if u == QUOTE then QUOTE
    else if u == BACKSLASH then BACKSLASH
    else if u == 0x08 then 0x62
    else if u == 0x0C then 0x66
    else if u == 0x0A then 0x6E
    else if u == 0x0D then 0x72
    else if u == 0x09 then 0x74
    else 0
  }

  /** How many units of `s` the first written token stands for: a surrogate pair or one unit. */
  function TokenWidth(s: Text): nat
    requires s != []
  {
    if StartsWithPair(s) then 2 else 1
  }

  /** The first token written for `s`; a lone surrogate is written as an escape. */
  function Token(s: Text): Text
    requires s != []
  {
    if StartsWithPair(s) then [s[0], s[1]]
    else if ShortEscape(s[0]) != 0 then [BACKSLASH, ShortEscape(s[0])]
    else if s[0] < 0x20 || IsHighSurrogate(s[0]) || IsLowSurrogate(s[0]) then [BACKSLASH, LETTER_U] + Hex4(s[0])
    else [s[0]]
  }

  function Escaped(s: Text): Text {
    if s == [] then [] else Token(s) + Escaped(s[TokenWidth(s)..])
  }

  function Quoted(s: Text): Text {
    [QUOTE] + Escaped(s) + [QUOTE]
  }

  // ---------- numbers ----------

  type Digit = d: int | 0 <= d < 10

  /**
   * A finite number by its shortest decimal: 0.d1d2...dk times ten to `point`. No digits at all is zero,
   * negative or not; otherwise neither the first nor the last digit is 0.
   */
  datatype Number = Number(negative: bool, digits: seq<Digit>, point: int) {
    predicate Valid() {
      digits != [] ==> digits[0] != 0 && digits[|digits| - 1] != 0
    }
  }

  /** Equal as numbers: 0 and -0 are the same number. */
  predicate SameNumber(a: Number, b: Number) {
    a == b || (a.digits == [] && b.digits == [])
  }

  function DigitText(digits: seq<Digit>): (t: Text)
    ensures |t| == |digits|
    ensures forall i :: 0 <= i < |t| ==> t[i] == ZERO + digits[i]
  {
    seq(|digits|, i requires 0 <= i < |digits| => ZERO + digits[i])
  }

  function Zeros(n: nat): (z: Text)
    ensures |z| == n && forall i :: 0 <= i < n ==> z[i] == ZERO
  {
    seq(n, _ => ZERO)
  }

  function NatText(n: nat): (t: Text)
    ensures t != [] && forall i :: 0 <= i < |t| ==> ZERO <= t[i] < ZERO + 10
  {
    if n < 10 then [ZERO + n] else NatText(n / 10) + [ZERO + n % 10]
  }

  function ExponentText(e: int): Text {
    [LETTER_E, if e < 0 then MINUS else PLUS] + NatText(if e < 0 then -e else e)
  }

  function PointText(d: seq<Digit>, n: nat): Text
    requires n <= |d|
  {
    DigitText(d[..n]) + [DOT] + DigitText(d[n..])
  }

  /** Number::toString on a positive number, by the five forms of section 6.1.6.1.20 of ECMA-262. */
  function MagnitudeText(digits: seq<Digit>, n: int): (t: Text)
    requires digits != []
  {
    var k := |digits|;
    if k <= n <= 21 then DigitText(digits) + Zeros(n - k)
    else if 0 < n <= 21 then PointText(digits, n)
    else if -6 < n <= 0 then [ZERO, DOT] + Zeros(-n) + DigitText(digits)
    else if k == 1 then DigitText(digits) + ExponentText(n - 1)
    else PointText(digits, 1) + ExponentText(n - 1)
  }

  function NumberText(v: Number): Text {
    if v.digits == [] then [ZERO]
    else (if v.negative then [MINUS] else []) + MagnitudeText(v.digits, v.point)
  }
}
