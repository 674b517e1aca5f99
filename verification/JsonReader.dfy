/**
 * A reader for JSON texts: the grammar of RFC 8259 without insignificant white space, over UTF-16 code units. It is
 * written from the grammar alone and knows nothing of the serializer.
 */
module JsonReader {
  import opened Wrappers
  import opened JsonText
  import opened CanonicalJson

  const QUOTATION_MARK: CodeUnit := 0x22

  predicate StartsQuoted(t: Text) {
    t != [] && t[0] == QUOTATION_MARK
  }

  predicate Starts(t: Text, c: char) {
    t != [] && t[0] == c as int
  }

  // ---------- strings (section 7) ----------

  /** The value of a hexadecimal digit of either case. */
  function HexOf(u: CodeUnit): Option<int> {
    if '0' as int <= u <= '9' as int then Some(u - '0' as int)
    else if 'a' as int <= u <= 'f' as int then Some(u - 'a' as int + 10)
    else if 'A' as int <= u <= 'F' as int then Some(u - 'A' as int + 10)
    else None
  }

  /** The unit that four hexadecimal digits stand for. */
  function UnitOf(t: Text): Option<CodeUnit>
    requires |t| >= 4
  {
    match (HexOf(t[0]), HexOf(t[1]), HexOf(t[2]), HexOf(t[3]))
    case (Some(a), Some(b), Some(c), Some(d)) =>
      if 0 <= a < 16 && 0 <= b < 16 && 0 <= c < 16 && 0 <= d < 16 then Some(4096 * a + 256 * b + 16 * c + d) else None
    case _ => None
  }

  /** What the letter after a reverse solidus stands for. */
  function Unescaped(u: CodeUnit): Option<CodeUnit> {
    if u == QUOTATION_MARK then Some(0x22)
    else if u == '\\' as int then Some(0x5C)
    else if u == '/' as int then Some(0x2F)
    else if u == 'b' as int then Some(0x08)
    else if u == 'f' as int then Some(0x0C)
    else if u == 'n' as int then Some(0x0A)
    else if u == 'r' as int then Some(0x0D)
    else if u == 't' as int then Some(0x09)
    else None
  }

  /** One character of a string: what it stands for, and how many units it takes. Bare surrogates come in pairs. */
  function ReadChar(t: Text): (r: Option<(Text, nat)>)
    requires t != []
    ensures r.Some? ==> 1 <= r.value.1 <= |t| && 1 <= |r.value.0| <= 2
  {
    if t[0] == '\\' as int then
      if |t| < 2 then None
      else if t[1] == 'u' as int then
        if |t| < 6 then None
        else match UnitOf(t[2..6])
          case None => None
          case Some(u) => Some(([u], 6))
      else match Unescaped(t[1])
        case None => None
        case Some(u) => Some(([u], 2))
    else if t[0] < 0x20 || t[0] == QUOTATION_MARK || 0xDC00 <= t[0] < 0xE000 then None
    else if 0xD800 <= t[0] < 0xDC00 then
      if |t| >= 2 && 0xDC00 <= t[1] < 0xE000 then Some((t[..2], 2)) else None
    else Some((t[..1], 1))
  }

  /** The rest of a string, up to its closing quote, and what follows it. */
  function ReadChars(t: Text): (r: Option<(Text, Text)>)
    ensures r.Some? ==> |r.value.1| < |t|
    decreases |t|
  {
    if t == [] then None
    else if t[0] == QUOTATION_MARK then Some(([], t[1..]))
    else match ReadChar(t)
      case None => None
      case Some((s, width)) =>
        match ReadChars(t[width..])
        case None => None
        case Some((rest, end)) => Some((s + rest, end))
  }

  // ---------- numbers (section 6) ----------

  predicate IsDecimal(u: CodeUnit) { '0' as int <= u <= '9' as int }

  /** How many digits a text begins with. */
  function DigitRun(t: Text): (n: nat)
    ensures n <= |t| && (forall i :: 0 <= i < n ==> IsDecimal(t[i])) && (n < |t| ==> !IsDecimal(t[n]))
  {
    if t == [] || !IsDecimal(t[0]) then 0 else 1 + DigitRun(t[1..])
  }

  function DigitsOf(t: Text): (d: seq<Digit>)
    requires forall i :: 0 <= i < |t| ==> IsDecimal(t[i])
    ensures |d| == |t| && forall i :: 0 <= i < |d| ==> d[i] == t[i] - '0' as int
  {
    if t == [] then []
    else
      assert IsDecimal(t[0]);
      var first: Digit := t[0] - '0' as int;
      [first] + DigitsOf(t[1..])
  }

  function Natural(d: seq<Digit>): nat {
    if d == [] then 0 else 10 * Natural(d[..|d| - 1]) + d[|d| - 1]
  }

  /** The digits after the decimal point, if there is one. */
  function ReadFraction(t: Text): (r: Option<(seq<Digit>, Text)>)
    ensures r.Some? ==> |r.value.1| <= |t|
  {
    if !Starts(t, '.') then Some(([], t))
    else
      var n := DigitRun(t[1..]);
      if n == 0 then None else Some((DigitsOf(t[1..][..n]), t[1..][n..]))
  }

  /** The exponent, if there is one. */
  function ReadExponent(t: Text): (r: Option<(int, Text)>)
    ensures r.Some? ==> |r.value.1| <= |t|
  {
    if !Starts(t, 'e') && !Starts(t, 'E') then Some((0, t))
    else
      var signed := t[1..];
      var unsigned := if Starts(signed, '-') || Starts(signed, '+') then signed[1..] else signed;
      var n := DigitRun(unsigned);
      if n == 0 then None
      else
        var e: int := Natural(DigitsOf(unsigned[..n]));
        Some((if Starts(signed, '-') then -e else e, unsigned[n..]))
  }

  /** 0.d1d2... times ten to `point`, without zeros at either end of the digits. */
  function Unpadded(negative: bool, d: seq<Digit>, point: int): Number {
    if d == [] then Number(false, [], 0)
    else if d[0] == 0 then Unpadded(negative, d[1..], point - 1)
    else if d[|d| - 1] == 0 then Unpadded(negative, d[..|d| - 1], point)
    else Number(negative, d, point)
  }

  function ReadNumber(t: Text): (r: Option<(Number, Text)>)
    ensures r.Some? ==> |r.value.1| < |t|
  {
    var unsigned := if Starts(t, '-') then t[1..] else t;
    var n := DigitRun(unsigned);
    if n == 0 || (n > 1 && Starts(unsigned, '0')) then None
    else match ReadFraction(unsigned[n..])
      case None => None
      case Some((fraction, rest)) =>
        match ReadExponent(rest)
        case None => None
        case Some((e, end)) => Some((Unpadded(Starts(t, '-'), DigitsOf(unsigned[..n]) + fraction, n + e), end))
  }

  // ---------- values (section 3) ----------

  /** The first value of a text, and what follows it. */
  function ReadValue(t: Text): (r: Option<(Json, Text)>)
    ensures r.Some? ==> |r.value.1| < |t|
    decreases |t|, 0
  {
    if Ascii("null") <= t then Some((Null, t[4..]))
    else if Ascii("true") <= t then Some((Bool(true), t[4..]))
    else if Ascii("false") <= t then Some((Bool(false), t[5..]))
    else if StartsQuoted(t) then
      match ReadChars(t[1..])
      case None => None
      case Some((s, end)) => Some((Str(s), end))
    else if Ascii("[]") <= t then Some((Arr([]), t[2..]))
    else if Starts(t, '[') then
      match ReadItems(t[1..])
      case None => None
      case Some((items, end)) => Some((Arr(items), end))
    else if Ascii("{}") <= t then Some((Obj([]), t[2..]))
    else if Starts(t, '{') then
      match ReadFields(t[1..])
      case None => None
      case Some((fields, end)) => Some((Obj(fields), end))
    else
      match ReadNumber(t)
      case None => None
      case Some((n, end)) => Some((Num(n), end))
  }

  /** The rest of an array, up to its closing bracket. */
  function ReadItems(t: Text): (r: Option<(seq<Json>, Text)>)
    ensures r.Some? ==> |r.value.1| < |t|
    decreases |t|, 1
  {
    match ReadValue(t)
    case None => None
    case Some((v, rest)) =>
      if Starts(rest, ']') then Some(([v], rest[1..]))
      else if Starts(rest, ',') then
        match ReadItems(rest[1..])
        case None => None
        case Some((vs, end)) => Some(([v] + vs, end))
      else None
  }

  /** The rest of an object, up to its closing brace. */
  function ReadFields(t: Text): (r: Option<(seq<Field>, Text)>)
    ensures r.Some? ==> |r.value.1| < |t|
    decreases |t|, 1
  {
    if !StartsQuoted(t) then None
    else match ReadChars(t[1..])
      case None => None
      case Some((name, colon)) =>
        if !Starts(colon, ':') then None
        else match ReadValue(colon[1..])
          case None => None
          case Some((v, rest)) =>
            if Starts(rest, '}') then Some(([Field(name, v)], rest[1..]))
            else if Starts(rest, ',') then
              match ReadFields(rest[1..])
              case None => None
              case Some((fs, end)) => Some(([Field(name, v)] + fs, end))
            else None
  }

  /** The one value a whole text stands for. */
  function ReadJson(t: Text): Option<Json> {
    match ReadValue(t)
    case Some((v, end)) => if end == [] then Some(v) else None
    case None => None
  }
}
