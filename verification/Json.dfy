/** JSON values, the compact printer of `json.dumps` and the parser of `json.loads`, on text. */
module Json {
  import opened Basics

  const QUOTE := 0x22
  const BACKSLASH := 0x5C
  const COMMA := 0x2C
  const COLON := 0x3A
  const LBRACE := 0x7B
  const RBRACE := 0x7D
  const LBRACKET := 0x5B
  const RBRACKET := 0x5D
  const MINUS := 0x2D
  const ZERO := 0x30

  // ---- numbers ------------------------------------------------------------

  predicate IsDigit(c: CodePoint) {
    0x30 <= c <= 0x39
  }

  /** The characters that may continue a number token: digits, the point, the exponent letter and the signs. */
  predicate IsNumberChar(c: CodePoint) {
    IsDigit(c) || c == 0x2E || c == 0x65 || c == 0x45 || c == 0x2B || c == MINUS
  }

  /** Where the run of digits that starts at `i` ends. */
  function DigitEnd(s: Text, i: nat): (e: nat)
    requires i <= |s|
    ensures i <= e <= |s|
    ensures forall k :: i <= k < e ==> IsDigit(s[k])
    ensures e < |s| ==> !IsDigit(s[e])
    decreases |s| - i
  {
    if i < |s| && IsDigit(s[i]) then DigitEnd(s, i + 1) else i
  }

  function SignEnd(s: Text): (e: nat)
    ensures e <= |s| && e <= 1
  {
    if s != [] && s[0] == MINUS then 1 else 0
  }

  function IntEnd(s: Text): (e: Option<nat>)
    ensures e.Some? ==> SignEnd(s) < e.value <= |s|
  {
    var i := SignEnd(s);
    if i < |s| && s[i] == ZERO then Some(i + 1)
    else if i < |s| && IsDigit(s[i]) then Some(DigitEnd(s, i))
    else None
  }

  function FractionEnd(s: Text, i: nat): (e: nat)
    requires i <= |s|
    ensures i <= e <= |s|
  {
    if i < |s| && s[i] == 0x2E && DigitEnd(s, i + 1) > i + 1 then DigitEnd(s, i + 1) else i
  }

  function ExponentDigits(s: Text, i: nat): (e: nat)
    requires i < |s|
    ensures i + 1 <= e <= |s|
  {
    if i + 1 < |s| && (s[i + 1] == 0x2B || s[i + 1] == MINUS) then i + 2 else i + 1
  }

  function ExponentEnd(s: Text, i: nat): (e: nat)
    requires i <= |s|
    ensures i <= e <= |s|
  {
    if i < |s| && (s[i] == 0x65 || s[i] == 0x45) && DigitEnd(s, ExponentDigits(s, i)) > ExponentDigits(s, i)
    then DigitEnd(s, ExponentDigits(s, i)) else i
  }

  /** The longest number token at the start of `s`: its length, and whether it has a fraction or an exponent. */
  function ScanNumber(s: Text): (r: Option<(nat, bool)>)
    ensures r.Some? ==> 1 <= r.value.0 <= |s|
  {
    match IntEnd(s)
    case None => None
    case Some(i) => var e := ExponentEnd(s, FractionEnd(s, i)); Some((e, e > i))
  }

  predicate IsFloatToken(t: Text) {
    ScanNumber(t) == Some((|t|, true))
  }

  lemma {:induction false} ZeroFloatToken()
    ensures IsFloatToken([0x30, 0x2E, 0x30])
  {
    var t: Text := [0x30, 0x2E, 0x30];
    assert DigitEnd(t, 2) == 3;
  }

  /** The text `repr` gives a finite float; the float itself is identified with it. */
  type FloatToken = t: Text | IsFloatToken(t) witness (ZeroFloatToken(); [0x30, 0x2E, 0x30])

  datatype PyFloat = Finite(token: FloatToken) | NaN | PosInf | NegInf

  function PrintNat(n: nat): (t: Text)
    ensures |t| > 0
    ensures forall i :: 0 <= i < |t| ==> IsDigit(t[i])
    ensures n > 0 ==> t[0] != ZERO
    ensures n == 0 ==> t == [ZERO]
  {
    if n < 10 then [ZERO + n] else PrintNat(n / 10) + [ZERO + n % 10]
  }

  function PrintInt(n: int): Text {
    if n < 0 then [MINUS] + PrintNat(-n) else PrintNat(n)
  }

  /** The value of a run of decimal digits. */
  function NatOf(t: Text): int
    requires forall i :: 0 <= i < |t| ==> IsDigit(t[i])
  {
    if t == [] then 0 else NatOf(t[..|t| - 1]) * 10 + (t[|t| - 1] - ZERO)
  }

  /** The value of an integer token, a minus sign allowed. */
  function IntOf(t: Text): int
    requires forall i :: SignEnd(t) <= i < |t| ==> IsDigit(t[i])
  {
    if SignEnd(t) == 1 then -NatOf(t[1..]) else NatOf(t)
  }

  // ---- values -------------------------------------------------------------

  datatype Json =
    | JNull
    | JBool(b: bool)
    | JInt(n: int)
    | JFloat(f: PyFloat)
    | JStr(s: Text)
    | JArr(items: seq<Json>)
    | JObj(members: seq<(Text, Json)>)

  /** A dictionary holds each key once, at every level. */
  ghost predicate WellFormed(j: Json) {
    match j
    case JArr(items) => forall i :: 0 <= i < |items| ==> WellFormed(items[i])
    case JObj(members) =>
      UniqueKeys(members) && forall i :: 0 <= i < |members| ==> WellFormed(members[i].1)
    case _ => true
  }

  // ---- printer ------------------------------------------------------------

  const NULL_TEXT := Lit("null")
  const TRUE_TEXT := Lit("true")
  const FALSE_TEXT := Lit("false")
  const NAN_TEXT := Lit("NaN")
  const INF_TEXT := Lit("Infinity")
  const NEG_INF_TEXT := Lit("-Infinity")

  function HexDigit(d: int): CodePoint
    requires 0 <= d < 16
  {
    if d < 10 then ZERO + d else 0x61 + (d - 10)
  }

  /** How the printer writes one character inside a string: section 7 of RFC 8259, no ASCII-only escapes. */
  function EscapePoint(c: CodePoint): (t: Text)
    ensures |t| > 0
    ensures c >= 0x20 && c != QUOTE && c != BACKSLASH ==> t == [c]
    ensures forall i :: 0 <= i < |t| ==> t[i] >= 0x20
    ensures t[0] != QUOTE
  {
    if c == QUOTE then [BACKSLASH, QUOTE]
    else if c == BACKSLASH then [BACKSLASH, BACKSLASH]
    else if c == 0x08 then [BACKSLASH, 0x62]
    else if c == 0x0C then [BACKSLASH, 0x66]
    else if c == 0x0A then [BACKSLASH, 0x6E]
    else if c == 0x0D then [BACKSLASH, 0x72]
    else if c == 0x09 then [BACKSLASH, 0x74]
    else if c < 0x20 then [BACKSLASH, 0x75, ZERO, ZERO, HexDigit(c / 16), HexDigit(c % 16)]
    else [c]
  }

  function Escape(t: Text): Text {
    if t == [] then [] else EscapePoint(t[0]) + Escape(t[1..])
  }

  function PrintString(t: Text): Text {
    [QUOTE] + Escape(t) + [QUOTE]
  }

  function PrintFloat(f: PyFloat): Text {
    match f
    case Finite(token) => token
    case NaN => NAN_TEXT
    case PosInf => INF_TEXT
    case NegInf => NEG_INF_TEXT
  }

  /** `json.dumps(j, ensure_ascii=False, separators=(",", ":"))`. */
  function Print(j: Json): Text
    decreases j, 1
  {
    match j
    case JNull => NULL_TEXT
    case JBool(b) => if b then TRUE_TEXT else FALSE_TEXT
    case JInt(n) => PrintInt(n)
    case JFloat(f) => PrintFloat(f)
    case JStr(s) => PrintString(s)
    case JArr(items) => [LBRACKET] + PrintItems(items) + [RBRACKET]
    case JObj(members) => [LBRACE] + PrintMembers(members) + [RBRACE]
  }

  function PrintItems(items: seq<Json>): Text
    decreases items, 0
  {
    if items == [] then []
    else if |items| == 1 then Print(items[0])
    else Print(items[0]) + [COMMA] + PrintItems(items[1..])
  }

  function PrintMember(member: (Text, Json)): Text
    decreases member, 2
  {
    PrintString(member.0) + [COLON] + Print(member.1)
  }

  function PrintMembers(members: seq<(Text, Json)>): Text
    decreases members, 0
  {
    if members == [] then []
    else if |members| == 1 then PrintMember(members[0])
    else PrintMember(members[0]) + [COMMA] + PrintMembers(members[1..])
  }

  // ---- parser -------------------------------------------------------------

  predicate IsSpace(c: CodePoint) {
    c == 0x20 || c == 0x09 || c == 0x0A || c == 0x0D
  }

  function SkipSpace(s: Text): (r: Text)
    ensures |r| <= |s|
    ensures s != [] && !IsSpace(s[0]) ==> r == s
  {
    if s != [] && IsSpace(s[0]) then SkipSpace(s[1..]) else s
  }

  function HexValue(c: CodePoint): (r: Option<int>)
    ensures r.Some? ==> 0 <= r.value < 16
  {
    if IsDigit(c) then Some(c - ZERO)
    else if 0x61 <= c <= 0x66 then Some(c - 0x61 + 10)
    else if 0x41 <= c <= 0x46 then Some(c - 0x41 + 10)
    else None
  }

  function Hex4(s: Text): (r: Option<int>)
    ensures r.Some? ==> |s| >= 4 && 0 <= r.value < 0x10000
  {
    if |s| < 4 then None
    else match (HexValue(s[0]), HexValue(s[1]), HexValue(s[2]), HexValue(s[3]))
      case (Some(a), Some(b), Some(c), Some(d)) => Some(((a * 16 + b) * 16 + c) * 16 + d)
      case _ => None
  }

  /** The character written by the escape that follows a backslash, and the number of characters it takes. */
  function Unescape(s: Text): (r: Option<(CodePoint, nat)>)
    ensures r.Some? ==> 1 <= r.value.1 <= |s|
  {
    if s == [] then None
    else if s[0] == QUOTE || s[0] == BACKSLASH || s[0] == 0x2F then Some((s[0], 1))
    else if s[0] == 0x62 then Some((0x08, 1))
    else if s[0] == 0x66 then Some((0x0C, 1))
    else if s[0] == 0x6E then Some((0x0A, 1))
    else if s[0] == 0x72 then Some((0x0D, 1))
    else if s[0] == 0x74 then Some((0x09, 1))
    else if s[0] == 0x75 then UnescapeHex(s)
    else None
  }

  /** `u` and four hexadecimal digits; a high surrogate joins the low surrogate escaped right after it. */
  function UnescapeHex(s: Text): (r: Option<(CodePoint, nat)>)
    requires s != []
    ensures r.Some? ==> 1 <= r.value.1 <= |s|
  {
    match Hex4(s[1..])
    case None => None
    case Some(u) =>
      if 0xD800 <= u <= 0xDBFF && |s| >= 11 && s[5] == BACKSLASH && s[6] == 0x75
         && Hex4(s[7..]).Some? && 0xDC00 <= Hex4(s[7..]).value <= 0xDFFF
      then Some((0x10000 + (u - 0xD800) * 0x400 + (Hex4(s[7..]).value - 0xDC00), 11))
      else Some((u, 5))
  }

  /** The string whose opening quote has been read, and what follows its closing quote. */
  function ParseString(s: Text): (r: Option<(Text, Text)>)
    ensures r.Some? ==> |r.value.1| < |s|
    decreases |s|
  {
    if s == [] then None
    else if s[0] == QUOTE then Some(([], s[1..]))
    else if s[0] == BACKSLASH then
      match Unescape(s[1..])
      case None => None
      case Some((c, n)) =>
        (match ParseString(s[1 + n..])
         case None => None
         case Some((t, rest)) => Some(([c] + t, rest)))
    else if s[0] < 0x20 then None
    else
      match ParseString(s[1..])
      case None => None
      case Some((t, rest)) => Some(([s[0]] + t, rest))
  }

  lemma {:induction false} IntTokenDigits(s: Text)
    requires ScanNumber(s).Some? && !ScanNumber(s).value.1
    ensures var t := s[..ScanNumber(s).value.0];
            SignEnd(t) == SignEnd(s) && forall i :: SignEnd(t) <= i < |t| ==> IsDigit(t[i])
  {
  }

  lemma {:induction false} DigitEndAgrees(s: Text, s': Text, i: nat, n: nat)
    requires i <= n <= |s| && n <= |s'| && s[..n] == s'[..n] && DigitEnd(s, i) <= n
    requires n == |s'| || !IsDigit(s'[n])
    ensures DigitEnd(s', i) == DigitEnd(s, i)
    decreases n - i
  {
    assert forall k :: 0 <= k < n ==> s[k] == s[..n][k] == s'[k];
    if i < n && IsDigit(s[i]) {
      DigitEndAgrees(s, s', i + 1, n);
    }
  }

  /** `s'` repeats the first `n` characters of `s` and carries no number character right after them. */
  ghost predicate SameToken(s: Text, s': Text, n: nat) {
    && n <= |s| && n <= |s'|
    && (forall k :: 0 <= k < n ==> s[k] == s'[k])
    && (n == |s'| || !IsNumberChar(s'[n]))
  }

  lemma {:induction false} IntEndAgrees(s: Text, s': Text, n: nat)
    requires SameToken(s, s', n) && IntEnd(s).Some? && IntEnd(s).value <= n
    ensures IntEnd(s') == IntEnd(s)
  {
    if s[SignEnd(s)] != ZERO {
      assert s[..n] == s'[..n];
      DigitEndAgrees(s, s', SignEnd(s), n);
    }
  }

  lemma {:induction false} FractionEndAgrees(s: Text, s': Text, i: nat, n: nat)
    requires SameToken(s, s', n) && i <= n && FractionEnd(s, i) <= n
    requires i < n ==> s[i] == 0x2E ==> FractionEnd(s, i) > i
    ensures FractionEnd(s', i) == FractionEnd(s, i)
  {
    if FractionEnd(s, i) > i {
      assert s[..n] == s'[..n];
      DigitEndAgrees(s, s', i + 1, n);
    }
  }

  lemma {:induction false} ExponentEndAgrees(s: Text, s': Text, i: nat, n: nat)
    requires SameToken(s, s', n) && i <= n && ExponentEnd(s, i) == n
    ensures ExponentEnd(s', i) == n
  {
    if n > i {
      assert s[..n] == s'[..n];
      DigitEndAgrees(s, s', ExponentDigits(s, i), n);
    }
  }

  /** A number token depends on nothing past its end, as long as no number character follows there. */
  lemma {:induction false} ScanAgrees(s: Text, s': Text)
    requires ScanNumber(s).Some? && SameToken(s, s', ScanNumber(s).value.0)
    ensures ScanNumber(s') == ScanNumber(s)
  {
    var n := ScanNumber(s).value.0;
    var i := IntEnd(s).value;
    IntEndAgrees(s, s', n);
    FractionEndAgrees(s, s', i, n);
    ExponentEndAgrees(s, s', FractionEnd(s, i), n);
  }

  lemma {:induction false} FloatTokenPrefix(s: Text)
    requires ScanNumber(s).Some? && ScanNumber(s).value.1
    ensures IsFloatToken(s[..ScanNumber(s).value.0])
  {
    ScanAgrees(s, s[..ScanNumber(s).value.0]);
  }

  function ParseNumber(s: Text): (r: Option<(Json, Text)>)
    ensures r.Some? ==> |r.value.1| < |s|
  {
    match ScanNumber(s)
    case None => None
    case Some((n, isFloat)) =>
      if isFloat then (FloatTokenPrefix(s); Some((JFloat(Finite(s[..n])), s[n..])))
      else (IntTokenDigits(s); Some((JInt(IntOf(s[..n])), s[n..])))
  }

  /** A dictionary built by inserting the pairs in order: a later duplicate replaces the value. */
  function BuildDict(members: seq<(Text, Json)>): (r: seq<(Text, Json)>)
    ensures UniqueKeys(r)
  {
    if members == [] then []
    else
      var last := members[|members| - 1];
      DictSet(BuildDict(members[..|members| - 1]), last.0, last.1)
  }

  /** One value at the start of `s`, and what follows it. */
  function ParseValue(s: Text): (r: Option<(Json, Text)>)
    ensures r.Some? ==> |r.value.1| < |s|
    decreases |s|, 0
  {
    if s == [] then None
    else if s[0] == QUOTE then
      match ParseString(s[1..])
      case None => None
      case Some((t, rest)) => Some((JStr(t), rest))
    else if s[0] == LBRACE then
      var u := SkipSpace(s[1..]);
      if u != [] && u[0] == RBRACE then Some((JObj([]), u[1..]))
      else
        match ParseMembers(u)
        case None => None
        case Some((members, rest)) => Some((JObj(BuildDict(members)), rest))
    else if s[0] == LBRACKET then
      var u := SkipSpace(s[1..]);
      if u != [] && u[0] == RBRACKET then Some((JArr([]), u[1..]))
      else
        match ParseItems(u)
        case None => None
        case Some((items, rest)) => Some((JArr(items), rest))
    else if NULL_TEXT <= s then Some((JNull, s[4..]))
    else if TRUE_TEXT <= s then Some((JBool(true), s[4..]))
    else if FALSE_TEXT <= s then Some((JBool(false), s[5..]))
    else if NAN_TEXT <= s then Some((JFloat(NaN), s[3..]))
    else if INF_TEXT <= s then Some((JFloat(PosInf), s[8..]))
    else if NEG_INF_TEXT <= s then Some((JFloat(NegInf), s[9..]))
    else ParseNumber(s)
  }

  /** The items of an array up to and including its closing bracket. */
  function ParseItems(s: Text): (r: Option<(seq<Json>, Text)>)
    ensures r.Some? ==> |r.value.1| < |s|
    decreases |s|, 1
  {
    match ParseValue(s)
    case None => None
    case Some((v, afterValue)) =>
      var u := SkipSpace(afterValue);
      if u == [] then None
      else if u[0] == RBRACKET then Some(([v], u[1..]))
      else if u[0] == COMMA then
        match ParseItems(SkipSpace(u[1..]))
        case None => None
        case Some((vs, rest)) => Some(([v] + vs, rest))
      else None
  }

  /** The pairs of an object up to and including its closing brace. */
  function ParseMembers(s: Text): (r: Option<(seq<(Text, Json)>, Text)>)
    ensures r.Some? ==> |r.value.1| < |s|
    decreases |s|, 1
  {
    match ParseMember(s)
    case None => None
    case Some((m, afterValue)) =>
      var u := SkipSpace(afterValue);
      if u == [] then None
      else if u[0] == RBRACE then Some(([m], u[1..]))
      else if u[0] == COMMA then
        match ParseMembers(SkipSpace(u[1..]))
        case None => None
        case Some((ms, rest)) => Some(([m] + ms, rest))
      else None
  }

  function ParseMember(s: Text): (r: Option<((Text, Json), Text)>)
    ensures r.Some? ==> |r.value.1| < |s|
    decreases |s|, 0
  {
    if s == [] || s[0] != QUOTE then None
    else
      match ParseString(s[1..])
      case None => None
      case Some((key, afterKey)) =>
        var u := SkipSpace(afterKey);
        if u == [] || u[0] != COLON then None
        else
          match ParseValue(SkipSpace(u[1..]))
          case None => None
          case Some((v, rest)) => Some(((key, v), rest))
  }

  /** `json.loads(s)`; None stands for ValueError. */
  function Loads(s: Text): Option<Json> {
    match ParseValue(SkipSpace(s))
    case None => None
    case Some((v, rest)) => if SkipSpace(rest) == [] then Some(v) else None
  }
}
