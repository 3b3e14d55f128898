/** JSON texts as syntax trees, after the grammar of RFC 8259 and the three float words that Python adds to it: the
    parser accepts exactly the texts of this grammar and gives each the meaning of its tree. */
module JsonGrammar {
  import opened Basics
  import opened Json
  import JsonRoundTrip

  // ---- white space ----------------------------------------------------------

  /** Section 2 of RFC 8259: space, tab, line feed, carriage return. */
  predicate Blank(t: Text) {
    forall i :: 0 <= i < |t| ==> t[i] == 0x20 || t[i] == 0x09 || t[i] == 0x0A || t[i] == 0x0D
  }

  // ---- strings ----------------------------------------------------------------

  type Sixteen = n: int | 0 <= n < 16

  datatype Nibble = Nibble(value: Sixteen, upper: bool)

  datatype Quad = Quad(a: Nibble, b: Nibble, c: Nibble, d: Nibble)

  /** What stands for one character of a string: itself, a two-character escape, the escape of a code unit, or the
      escapes of a surrogate pair. */
  datatype Unit =
    | Plain(c: CodePoint)
    | Short(letter: CodePoint, c: CodePoint)
    | Hex(u: Quad)
    | Pair(high: Quad, low: Quad)

  function NibbleChar(n: Nibble): CodePoint {
    if n.value < 10 then 0x30 + n.value else (if n.upper then 0x41 else 0x61) + n.value - 10
  }

  function QuadText(q: Quad): (t: Text) {
    [NibbleChar(q.a), NibbleChar(q.b), NibbleChar(q.c), NibbleChar(q.d)]
  }

  function QuadValue(q: Quad): (v: int)
    ensures 0 <= v < 0x10000
  {
    q.a.value * 0x1000 + q.b.value * 0x100 + q.c.value * 0x10 + q.d.value
  }

  predicate IsHigh(q: Quad) {
    0xD800 <= QuadValue(q) <= 0xDBFF
  }

  predicate IsLow(q: Quad) {
    0xDC00 <= QuadValue(q) <= 0xDFFF
  }

  /** The two-character escapes: the character after the backslash, and what it stands for. */
  predicate IsShort(letter: CodePoint, c: CodePoint) {
    || (letter == c && (c == 0x22 || c == 0x5C || c == 0x2F))
    || (letter == 0x62 && c == 0x08) || (letter == 0x66 && c == 0x0C) || (letter == 0x6E && c == 0x0A)
    || (letter == 0x72 && c == 0x0D) || (letter == 0x74 && c == 0x09)
  }

  predicate UnitOk(u: Unit) {
    match u
    case Plain(c) => c >= 0x20 && c != 0x22 && c != 0x5C
    case Short(letter, c) => IsShort(letter, c)
    case Hex(_) => true
    case Pair(high, low) => IsHigh(high) && IsLow(low)
  }

  /** The escapes of a high and a low surrogate side by side are one character, so they may not be read as two. */
  predicate Joins(u: Unit, v: Unit) {
    u.Hex? && IsHigh(u.u) && v.Hex? && IsLow(v.u)
  }

  predicate UnitsOk(us: seq<Unit>) {
    us == [] || (UnitOk(us[0]) && UnitsOk(us[1..]) && (|us| >= 2 ==> !Joins(us[0], us[1])))
  }

  function UnitText(u: Unit): (t: Text)
    ensures t != []
  {
    match u
    case Plain(c) => [c]
    case Short(letter, _) => [0x5C, letter]
    case Hex(q) => [0x5C, 0x75] + QuadText(q)
    case Pair(high, low) => [0x5C, 0x75] + QuadText(high) + [0x5C, 0x75] + QuadText(low)
  }

  function UnitMeaning(u: Unit): CodePoint
    requires UnitOk(u)
  {
    match u
    case Plain(c) => c
    case Short(_, c) => c
    case Hex(q) => QuadValue(q)
    case Pair(high, low) => 0x10000 + (QuadValue(high) - 0xD800) * 0x400 + (QuadValue(low) - 0xDC00)
  }

  /** The characters of a string, followed by `rest`. */
  function UnitsThen(us: seq<Unit>, rest: Text): (t: Text) {
    if us == [] then rest else UnitText(us[0]) + UnitsThen(us[1..], rest)
  }

  function UnitsMeaning(us: seq<Unit>): (t: Text)
    requires UnitsOk(us)
  {
    if us == [] then [] else [UnitMeaning(us[0])] + UnitsMeaning(us[1..])
  }

  // ---- numbers ------------------------------------------------------------------

  datatype Exponent = Exponent(letter: CodePoint, sign: Text, digits: Text)

  /** Section 6 of RFC 8259. */
  datatype Number = Number(minus: bool, digits: Text, fraction: Option<Text>, exponent: Option<Exponent>)

  predicate Decimal(t: Text) {
    t != [] && forall i :: 0 <= i < |t| ==> 0x30 <= t[i] <= 0x39
  }

  predicate NumberOk(n: Number) {
    && Decimal(n.digits) && (n.digits[0] == 0x30 ==> |n.digits| == 1)
    && (n.fraction.Some? ==> Decimal(n.fraction.value))
    && (n.exponent.Some? ==> ExponentOk(n.exponent.value))
  }

  predicate ExponentOk(e: Exponent) {
    && (e.letter == 0x65 || e.letter == 0x45)
    && (e.sign == [] || e.sign == [0x2B] || e.sign == [0x2D])
    && Decimal(e.digits)
  }

  function SignText(n: Number): (t: Text) {
    if n.minus then [0x2D] else []
  }

  function FractionText(n: Number): (t: Text) {
    if n.fraction.Some? then [0x2E] + n.fraction.value else []
  }

  function ExponentText(n: Number): (t: Text) {
    if n.exponent.Some? then [n.exponent.value.letter] + n.exponent.value.sign + n.exponent.value.digits else []
  }

  function NumberText(n: Number): (t: Text) {
    SignText(n) + n.digits + FractionText(n) + ExponentText(n)
  }

  /** A fraction or an exponent makes it a float. */
  predicate IsFloat(n: Number) {
    n.fraction.Some? || n.exponent.Some?
  }

  function NumberMeaning(n: Number): Json
    requires NumberOk(n)
  {
    if IsFloat(n) then (TokenOf(n); JFloat(Finite(NumberText(n))))
    else JInt(if n.minus then -NatOf(n.digits) else NatOf(n.digits))
  }

  // ---- values ---------------------------------------------------------------------

  datatype Word = NullWord | TrueWord | FalseWord | NaNWord | InfinityWord | MinusInfinityWord

  datatype Tree =
    | Atom(word: Word)
    | Num(number: Number)
    | Quoted(units: seq<Unit>)
    | EmptyBrackets(gap: Text)
    | Bracketed(items: Items)
    | EmptyBraces(gap: Text)
    | Braced(members: Members)

  /** The items of an array, white space around each, commas between them. */
  datatype Items =
    | LastItem(before: Text, item: Tree, after: Text)
    | MoreItems(before: Text, item: Tree, after: Text, more: Items)

  datatype Key = Key(before: Text, name: seq<Unit>, after: Text)

  /** The members of an object: key, colon and value, white space around each, commas between them. */
  datatype Members =
    | LastMember(key: Key, before: Text, value: Tree, after: Text)
    | MoreMembers(key: Key, before: Text, value: Tree, after: Text, more: Members)

  predicate TreeOk(tree: Tree) {
    match tree
    case Atom(_) => true
    case Num(n) => NumberOk(n)
    case Quoted(us) => UnitsOk(us)
    case EmptyBrackets(gap) => Blank(gap)
    case Bracketed(items) => ItemsOk(items)
    case EmptyBraces(gap) => Blank(gap)
    case Braced(members) => MembersOk(members)
  }

  predicate ItemsOk(items: Items) {
    && Blank(items.before) && TreeOk(items.item) && Blank(items.after)
    && (items.MoreItems? ==> ItemsOk(items.more))
  }

  predicate KeyOk(key: Key) {
    Blank(key.before) && UnitsOk(key.name) && Blank(key.after)
  }

  predicate MembersOk(members: Members) {
    && KeyOk(members.key) && Blank(members.before) && TreeOk(members.value) && Blank(members.after)
    && (members.MoreMembers? ==> MembersOk(members.more))
  }

  function WordText(w: Word): (t: Text) {
    match w
    case NullWord => Lit("null")
    case TrueWord => Lit("true")
    case FalseWord => Lit("false")
    case NaNWord => Lit("NaN")
    case InfinityWord => Lit("Infinity")
    case MinusInfinityWord => Lit("-Infinity")
  }

  /** The text of a tree, followed by `rest`. */
  function Then(tree: Tree, rest: Text): (t: Text) {
    match tree
    case Atom(w) => WordText(w) + rest
    case Num(n) => NumberText(n) + rest
    case Quoted(us) => [0x22] + UnitsThen(us, [0x22] + rest)
    case EmptyBrackets(gap) => [0x5B] + (gap + ([0x5D] + rest))
    case Bracketed(items) => [0x5B] + ItemsThen(items, [0x5D] + rest)
    case EmptyBraces(gap) => [0x7B] + (gap + ([0x7D] + rest))
    case Braced(members) => [0x7B] + MembersThen(members, [0x7D] + rest)
  }

  function ItemsThen(items: Items, rest: Text): (t: Text) {
    match items
    case LastItem(before, item, after) => before + Then(item, after + rest)
    case MoreItems(before, item, after, more) => before + Then(item, after + ([0x2C] + ItemsThen(more, rest)))
  }

  function KeyThen(key: Key, rest: Text): (t: Text) {
    key.before + ([0x22] + UnitsThen(key.name, [0x22] + (key.after + ([0x3A] + rest))))
  }

  function MembersThen(members: Members, rest: Text): (t: Text) {
    match members
    case LastMember(key, before, value, after) => KeyThen(key, before + Then(value, after + rest))
    case MoreMembers(key, before, value, after, more) =>
      KeyThen(key, before + Then(value, after + ([0x2C] + MembersThen(more, rest))))
  }

  function WordMeaning(w: Word): Json {
    match w
    case NullWord => JNull
    case TrueWord => JBool(true)
    case FalseWord => JBool(false)
    case NaNWord => JFloat(NaN)
    case InfinityWord => JFloat(PosInf)
    case MinusInfinityWord => JFloat(NegInf)
  }

  function Meaning(tree: Tree): Json
    requires TreeOk(tree)
  {
    match tree
    case Atom(w) => WordMeaning(w)
    case Num(n) => NumberMeaning(n)
    case Quoted(us) => JStr(UnitsMeaning(us))
    case EmptyBrackets(_) => JArr([])
    case Bracketed(items) => JArr(ItemsMeaning(items))
    case EmptyBraces(_) => JObj([])
    case Braced(members) => JObj(BuildDict(MembersMeaning(members)))
  }

  function ItemsMeaning(items: Items): seq<Json>
    requires ItemsOk(items)
  {
    [Meaning(items.item)] + if items.MoreItems? then ItemsMeaning(items.more) else []
  }

  function MembersMeaning(members: Members): seq<(Text, Json)>
    requires MembersOk(members)
  {
    [(UnitsMeaning(members.key.name), Meaning(members.value))]
    + if members.MoreMembers? then MembersMeaning(members.more) else []
  }

  /** The whole of `s` is a tree and white space around it. */
  ghost predicate Spells(s: Text, before: Text, tree: Tree, after: Text) {
    Blank(before) && TreeOk(tree) && Blank(after) && s == before + Then(tree, after)
  }

  /** `s` is a JSON text of the value `j`. */
  ghost predicate IsText(s: Text, j: Json) {
    exists before, tree, after :: Spells(s, before, tree, after) && Meaning(tree) == j
  }

  /** `d` is the dictionary of the pairs: each key once, in the order in which the keys first appear, with the value of
      the last pair of that key. */
  ghost predicate DictOf(pairs: seq<(Text, Json)>, d: seq<(Text, Json)>) {
    && UniqueKeys(d)
    && (forall i :: 0 <= i < |pairs| ==> HasKey(d, pairs[i].0))
    && (forall i :: 0 <= i < |d| ==> LastOfKey(pairs, d[i]))
    && forall i, j :: 0 <= i < j < |d| ==> FirstBefore(pairs, d[i].0, d[j].0)
  }

  ghost predicate LastOfKey(pairs: seq<(Text, Json)>, p: (Text, Json)) {
    exists k :: 0 <= k < |pairs| && pairs[k] == p && forall l :: k < l < |pairs| ==> pairs[l].0 != p.0
  }

  ghost predicate FirstBefore(pairs: seq<(Text, Json)>, a: Text, b: Text) {
    exists k :: 0 <= k < |pairs| && pairs[k].0 == a && forall l :: 0 <= l <= k ==> pairs[l].0 != b
  }

  // ---- numbers: the scanner takes exactly the token ---------------------------------

  /** `rest` does not continue a number. */
  predicate Apart(rest: Text) {
    rest == [] || !IsNumberChar(rest[0])
  }

  lemma {:induction false} DigitRun(a: Text, d: Text, rest: Text)
    requires forall i :: 0 <= i < |d| ==> IsDigit(d[i])
    requires rest == [] || !IsDigit(rest[0])
    ensures DigitEnd(a + d + rest, |a|) == |a| + |d|
  {
    var s := a + d + rest;
    assert forall k :: |a| <= k < |a| + |d| ==> s[k] == d[k - |a|];
    assert rest != [] ==> s[|a| + |d|] == rest[0];
  }

  lemma {:induction false} SpelledInt(n: Number, rest: Text)
    requires NumberOk(n) && (rest == [] || !IsDigit(rest[0]))
    ensures IntEnd(SignText(n) + n.digits + rest) == Some(|SignText(n)| + |n.digits|)
    ensures SignEnd(SignText(n) + n.digits + rest) == |SignText(n)|
  {
    var s := SignText(n) + n.digits + rest;
    assert s[|SignText(n)|] == n.digits[0];
    DigitRun(SignText(n), n.digits, rest);
  }

  lemma {:induction false} SpelledFraction(head: Text, n: Number, rest: Text)
    requires NumberOk(n) && (rest == [] || (!IsDigit(rest[0]) && rest[0] != 0x2E))
    ensures FractionEnd(head + FractionText(n) + rest, |head|) == |head| + |FractionText(n)|
  {
    hide DigitEnd, Decimal, ExponentOk;
    if n.fraction.Some? {
      FractionRun(head, n.fraction.value, rest);
    } else {
      assert head + [] + rest == head + rest;
      assert rest != [] ==> (head + rest)[|head|] == rest[0];
    }
  }

  lemma {:induction false} FractionRun(head: Text, d: Text, rest: Text)
    requires Decimal(d) && (rest == [] || !IsDigit(rest[0]))
    ensures FractionEnd(head + ([0x2E] + d) + rest, |head|) == |head| + 1 + |d|
  {
    DigitRun(head + [0x2E], d, rest);
    hide DigitEnd;
    assert head + ([0x2E] + d) + rest == head + [0x2E] + d + rest;
  }

  lemma {:induction false} SpelledExponent(head: Text, n: Number, rest: Text)
    requires NumberOk(n) && Apart(rest)
    ensures ExponentEnd(head + ExponentText(n) + rest, |head|) == |head| + |ExponentText(n)|
  {
    hide DigitEnd, Decimal, ExponentOk, IsNumberChar;
    if n.exponent.Some? {
      ExponentRun(head, n.exponent.value, rest);
    } else {
      assert head + [] + rest == head + rest;
      assert rest != [] ==> (head + rest)[|head|] == rest[0];
      NoExponent(rest);
    }
  }

  lemma {:induction false} NoExponent(rest: Text)
    requires Apart(rest)
    ensures rest == [] || (rest[0] != 0x65 && rest[0] != 0x45)
  {
  }

  lemma {:induction false} ExponentRun(head: Text, e: Exponent, rest: Text)
    requires ExponentOk(e) && Apart(rest)
    ensures var t := [e.letter] + e.sign + e.digits; ExponentEnd(head + t + rest, |head|) == |head| + |t|
  {
    var before := head + [e.letter] + e.sign;
    var s := head + ([e.letter] + e.sign + e.digits) + rest;
    assert s == before + e.digits + rest;
    DigitRun(before, e.digits, rest);
    hide DigitEnd;
    assert s[|head|] == e.letter && s[|head| + 1] == (e.sign + e.digits)[0];
  }

  lemma {:induction false} SpelledNumber(n: Number, rest: Text)
    requires NumberOk(n) && Apart(rest)
    ensures ScanNumber(NumberText(n) + rest) == Some((|NumberText(n)|, IsFloat(n)))
  {
    hide IntEnd, FractionEnd, ExponentEnd, ScanNumber, NumberOk, Apart;
    var s := NumberText(n) + rest;
    var sign, f, e := SignText(n), FractionText(n), ExponentText(n);
    Regroup(sign, n.digits, f, e, rest);
    ExponentStarts(n, rest);
    SpelledInt(n, f + (e + rest));
    SpelledFraction(sign + n.digits, n, e + rest);
    SpelledExponent(sign + n.digits + f, n, rest);
    ScanIs(s, |sign + n.digits|, |sign + n.digits + f|, |NumberText(n)|);
  }

  lemma {:induction false} Regroup(a: Text, b: Text, c: Text, d: Text, rest: Text)
    ensures a + b + c + d + rest == a + b + (c + (d + rest))
    ensures a + b + c + d + rest == a + b + c + (d + rest)
  {
  }

  lemma {:induction false} ScanIs(s: Text, i: nat, f: nat, e: nat)
    requires IntEnd(s) == Some(i) && FractionEnd(s, i) == f && ExponentEnd(s, f) == e
    ensures ScanNumber(s) == Some((e, e > i))
  {
    hide IntEnd, FractionEnd, ExponentEnd;
  }

  /** What may follow the digits of a number: no digit; and what may follow its fraction: no point either. */
  lemma {:induction false} ExponentStarts(n: Number, rest: Text)
    requires NumberOk(n) && Apart(rest)
    ensures var t := ExponentText(n) + rest; t == [] || (!IsDigit(t[0]) && t[0] != 0x2E)
    ensures var t := FractionText(n) + (ExponentText(n) + rest); t == [] || !IsDigit(t[0])
    ensures n.fraction.Some? <==> FractionText(n) != []
    ensures n.exponent.Some? <==> ExponentText(n) != []
  {
    assert n.exponent.Some? ==> (ExponentText(n) + rest)[0] == n.exponent.value.letter;
    assert n.exponent.None? ==> ExponentText(n) + rest == rest;
    assert n.fraction.Some? ==> (FractionText(n) + (ExponentText(n) + rest))[0] == 0x2E;
    assert n.fraction.None? ==> FractionText(n) + (ExponentText(n) + rest) == ExponentText(n) + rest;
  }

  lemma {:induction false} TokenOf(n: Number)
    requires NumberOk(n) && IsFloat(n)
    ensures IsFloatToken(NumberText(n))
  {
    SpelledNumber(n, []);
    assert NumberText(n) + [] == NumberText(n);
    hide ScanNumber, NumberText;
  }

  lemma {:induction false} NumberParsed(n: Number, rest: Text)
    requires NumberOk(n) && Apart(rest)
    ensures ParseValue(NumberText(n) + rest) == Some((NumberMeaning(n), rest))
  {
    var t := NumberText(n);
    var s := t + rest;
    SpelledNumber(n, rest);
    assert s[..|t|] == t && s[|t|..] == rest;
    hide ScanNumber, ParseValue, DigitEnd;
    JsonRoundTrip.NumberIsParsed(s);
    if !IsFloat(n) {
      NumberMeans(n);
    }
  }

  lemma {:induction false} DecimalRun(s: Text, i: nat)
    requires i < |s| && DigitEnd(s, i) > i
    ensures Decimal(s[i..DigitEnd(s, i)])
  {
  }

  lemma {:induction false} ScannedInt(s: Text) returns (minus: bool, digits: Text)
    requires IntEnd(s).Some?
    ensures Decimal(digits) && (digits[0] == 0x30 ==> |digits| == 1)
    ensures s[..IntEnd(s).value] == (if minus then [0x2D] else []) + digits
  {
    minus := SignEnd(s) == 1;
    digits := s[SignEnd(s)..IntEnd(s).value];
  }

  lemma {:induction false} ScannedFraction(s: Text, i: nat) returns (fraction: Option<Text>)
    requires i <= |s|
    ensures fraction.Some? ==> Decimal(fraction.value)
    ensures s[i..FractionEnd(s, i)] == if fraction.Some? then [0x2E] + fraction.value else []
    ensures fraction.Some? <==> FractionEnd(s, i) > i
  {
    if FractionEnd(s, i) == i {
      fraction := None;
    } else {
      DecimalRun(s, i + 1);
      fraction := Some(s[i + 1..FractionEnd(s, i)]);
      assert s[i..FractionEnd(s, i)] == [s[i]] + fraction.value;
    }
  }

  lemma {:induction false} ScannedExponent(s: Text, i: nat) returns (exponent: Option<Exponent>)
    requires i <= |s|
    ensures exponent.Some? ==> ExponentOk(exponent.value)
    ensures s[i..ExponentEnd(s, i)] ==
            if exponent.Some? then [exponent.value.letter] + exponent.value.sign + exponent.value.digits else []
    ensures exponent.Some? <==> ExponentEnd(s, i) > i
  {
    if ExponentEnd(s, i) == i {
      exponent := None;
    } else {
      var d := ExponentDigits(s, i);
      DecimalRun(s, d);
      exponent := Some(Exponent(s[i], s[i + 1..d], s[d..ExponentEnd(s, i)]));
      assert s[i..ExponentEnd(s, i)] == [s[i]] + s[i + 1..d] + s[d..ExponentEnd(s, i)];
    }
  }

  lemma {:induction false} ScannedNumber(s: Text) returns (n: Number)
    requires ScanNumber(s).Some?
    ensures NumberOk(n) && NumberText(n) == s[..ScanNumber(s).value.0] && IsFloat(n) == ScanNumber(s).value.1
  {
    hide IntEnd, FractionEnd, ExponentEnd, ExponentOk, DigitEnd, ExponentDigits, SignEnd;
    var i := IntEnd(s).value;
    var f := FractionEnd(s, i);
    var e := ExponentEnd(s, f);
    var minus, digits := ScannedInt(s);
    var fraction := ScannedFraction(s, i);
    var exponent := ScannedExponent(s, f);
    n := Number(minus, digits, fraction, exponent);
    hide Decimal;
    Sliced(s, i, f, e);
  }

  lemma {:induction false} Sliced(s: Text, i: nat, f: nat, e: nat)
    requires i <= f <= e <= |s|
    ensures s[..e] == s[..i] + s[i..f] + s[f..e]
  {
  }

  lemma {:induction false} NumberMeans(n: Number)
    requires NumberOk(n) && !IsFloat(n)
    ensures SignEnd(NumberText(n)) == |SignText(n)| && NumberText(n)[|SignText(n)|..] == n.digits
  {
    assert NumberText(n) == SignText(n) + n.digits;
  }

  lemma {:induction false} NumberRead(s: Text) returns (n: Number)
    requires ParseNumber(s).Some?
    ensures NumberOk(n) && s == NumberText(n) + ParseNumber(s).value.1
    ensures NumberMeaning(n) == ParseNumber(s).value.0
  {
    hide NumberOk, NumberText, NatOf, DigitEnd, IntEnd, FractionEnd, ExponentEnd;
    n := ScannedNumber(s);
    var k := ScanNumber(s).value.0;
    hide ScanNumber;
    assert s == s[..k] + s[k..];
    if !IsFloat(n) {
      NumberMeans(n);
    }
  }

  // ---- strings: escapes are read as what they stand for -------------------------------

  lemma {:induction false} NibbleValue(n: Nibble)
    ensures HexValue(NibbleChar(n)) == Some(n.value)
  {
  }

  lemma {:induction false} QuadParsed(q: Quad, rest: Text)
    ensures Hex4(QuadText(q) + rest) == Some(QuadValue(q))
  {
    var s := QuadText(q) + rest;
    NibbleValue(q.a);
    NibbleValue(q.b);
    NibbleValue(q.c);
    NibbleValue(q.d);
    hide HexValue, NibbleChar;
    assert s[0] == NibbleChar(q.a) && s[1] == NibbleChar(q.b) && s[2] == NibbleChar(q.c) && s[3] == NibbleChar(q.d);
  }

  lemma {:induction false} NibbleRead(c: CodePoint) returns (n: Nibble)
    requires HexValue(c).Some?
    ensures NibbleChar(n) == c && n.value == HexValue(c).value
  {
    n := Nibble(HexValue(c).value, c < 0x61);
  }

  lemma {:induction false} QuadRead(s: Text) returns (q: Quad)
    requires Hex4(s).Some?
    ensures QuadText(q) == s[..4] && QuadValue(q) == Hex4(s).value
  {
    var a := NibbleRead(s[0]);
    var b := NibbleRead(s[1]);
    var c := NibbleRead(s[2]);
    var d := NibbleRead(s[3]);
    hide HexValue, NibbleChar;
    q := Quad(a, b, c, d);
  }

  /** The text starts with the escape of a low surrogate. */
  predicate StartsLow(s: Text) {
    && |s| >= 6 && s[0] == 0x5C && s[1] == 0x75
    && Hex4(s[2..]).Some? && 0xDC00 <= Hex4(s[2..]).value <= 0xDFFF
  }

  lemma {:induction false} LowStarts(us: seq<Unit>, rest: Text)
    requires UnitsOk(us)
    ensures StartsLow(UnitsThen(us, [0x22] + rest)) <==> us != [] && us[0].Hex? && IsLow(us[0].u)
  {
    hide Hex4, QuadText, StartsLow, UnitOk, IsLow, IsHigh;
    if us == [] {
      OtherStarts(0x22, rest);
    } else {
      var tail := UnitsThen(us[1..], [0x22] + rest);
      match us[0]
      case Hex(q) => EscapeStarts(q, tail);
      case Pair(high, low) =>
        var more := [0x5C, 0x75] + QuadText(low) + tail;
        HighIsNotLow(us[0]);
        EscapeStarts(high, more);
        assert UnitText(us[0]) + tail == [0x5C, 0x75] + QuadText(high) + more;
      case _ => PlainStarts(us[0], tail);
    }
  }

  lemma {:induction false} OtherStarts(c: CodePoint, rest: Text)
    requires c != 0x5C
    ensures !StartsLow([c] + rest)
  {
  }

  lemma {:induction false} PlainStarts(u: Unit, tail: Text)
    requires UnitOk(u) && (u.Plain? || u.Short?)
    ensures !StartsLow(UnitText(u) + tail)
  {
    hide Hex4;
    assert u.Short? ==> (UnitText(u) + tail)[1] == u.letter;
  }

  lemma {:induction false} HighIsNotLow(u: Unit)
    requires UnitOk(u) && u.Pair?
    ensures !IsLow(u.high)
  {
    hide QuadValue;
  }

  lemma {:induction false} EscapeStarts(q: Quad, more: Text)
    ensures StartsLow([0x5C, 0x75] + QuadText(q) + more) <==> IsLow(q)
  {
    QuadLength(q);
    QuadParsed(q, more);
    hide Hex4, QuadText, QuadValue;
    assert ([0x5C, 0x75] + QuadText(q) + more)[2..] == QuadText(q) + more;
  }

  lemma {:induction false} QuadLength(q: Quad)
    ensures |QuadText(q)| == 4
  {
  }

  lemma {:induction false} HexUnescaped(s: Text, q: Quad, tail: Text)
    requires s == [0x75] + QuadText(q) + tail
    ensures !(IsHigh(q) && StartsLow(tail)) ==> UnescapeHex(s) == Some((QuadValue(q), 5))
    ensures IsHigh(q) && StartsLow(tail) ==>
              UnescapeHex(s) == Some((0x10000 + (QuadValue(q) - 0xD800) * 0x400 + (Hex4(tail[2..]).value - 0xDC00), 11))
  {
    QuadLength(q);
    QuadParsed(q, tail);
    hide Hex4, QuadText, QuadValue;
    assert s[1..] == QuadText(q) + tail;
    assert s[5..] == tail;
    if |s| >= 11 {
      assert s[7..] == tail[2..] && s[5] == tail[0] && s[6] == tail[1];
    }
  }

  lemma {:induction false} UnitUnescaped(u: Unit, tail: Text)
    requires UnitOk(u) && !u.Plain? && (u.Hex? && IsHigh(u.u) ==> !StartsLow(tail))
    ensures UnitText(u)[0] == 0x5C && Unescape(UnitText(u)[1..] + tail) == Some((UnitMeaning(u), |UnitText(u)| - 1))
  {
    hide Hex4, QuadText, QuadValue, UnescapeHex, StartsLow;
    var s := UnitText(u)[1..] + tail;
    match u
    case Short(letter, c) => assert s[0] == letter;
    case Hex(q) =>
      QuadLength(q);
      assert s == [0x75] + QuadText(q) + tail;
      HexUnescaped(s, q, tail);
    case Pair(high, low) =>
      QuadLength(high);
      QuadLength(low);
      var more := [0x5C, 0x75] + QuadText(low) + tail;
      assert s == [0x75] + QuadText(high) + more;
      PairStarts(low, tail);
      HexUnescaped(s, high, more);
  }

  lemma {:induction false} PairStarts(low: Quad, tail: Text)
    requires IsLow(low)
    ensures var more := [0x5C, 0x75] + QuadText(low) + tail;
            StartsLow(more) && Hex4(more[2..]) == Some(QuadValue(low))
  {
    QuadLength(low);
    QuadParsed(low, tail);
    hide Hex4, QuadText, QuadValue;
    assert ([0x5C, 0x75] + QuadText(low) + tail)[2..] == QuadText(low) + tail;
  }

  lemma {:induction false} UnitParsed(u: Unit, tail: Text)
    requires UnitOk(u) && (u.Hex? && IsHigh(u.u) ==> !StartsLow(tail)) && ParseString(tail).Some?
    ensures ParseString(UnitText(u) + tail) ==
            Some(([UnitMeaning(u)] + ParseString(tail).value.0, ParseString(tail).value.1))
  {
    if u.Plain? {
      assert (UnitText(u) + tail)[1..] == tail;
    } else {
      hide StartsLow, UnitText, UnitMeaning, ParseString, UnitOk, IsHigh;
      UnitUnescaped(u, tail);
      JsonRoundTrip.EscapeParsed(UnitMeaning(u), UnitText(u), tail);
    }
  }

  lemma {:induction false} UnitsParsed(us: seq<Unit>, rest: Text)
    requires UnitsOk(us)
    ensures ParseString(UnitsThen(us, [0x22] + rest)) == Some((UnitsMeaning(us), rest))
  {
    if us == [] {
      assert ([0x22] + rest)[1..] == rest;
    } else {
      hide ParseString, StartsLow, UnitText, UnitMeaning, UnitOk, IsHigh, IsLow;
      UnitsParsed(us[1..], rest);
      LowStarts(us[1..], rest);
      UnitParsed(us[0], UnitsThen(us[1..], [0x22] + rest));
    }
  }

  /** What was unescaped, as a unit; a high surrogate stays alone only if no low one follows. */
  lemma {:induction false} UnitRead(s: Text) returns (u: Unit)
    requires Unescape(s).Some?
    ensures UnitOk(u) && UnitMeaning(u) == Unescape(s).value.0
    ensures UnitText(u) == [0x5C] + s[..Unescape(s).value.1]
    ensures u.Hex? && IsHigh(u.u) ==> !StartsLow(s[Unescape(s).value.1..])
  {
    if s[0] != 0x75 {
      u := Short(s[0], Unescape(s).value.0);
    } else {
      u := HexRead(s);
    }
  }

  lemma {:induction false} HexRead(s: Text) returns (u: Unit)
    requires s != [] && s[0] == 0x75 && UnescapeHex(s).Some?
    ensures UnitOk(u) && UnitMeaning(u) == UnescapeHex(s).value.0
    ensures UnitText(u) == [0x5C] + s[..UnescapeHex(s).value.1]
    ensures u.Hex? && IsHigh(u.u) ==> !StartsLow(s[UnescapeHex(s).value.1..])
  {
    var q := QuadRead(s[1..]);
    QuadLength(q);
    var tail := s[5..];
    assert s[1..5] == s[1..][..4];
    assert s == [0x75] + QuadText(q) + tail;
    HexUnescaped(s, q, tail);
    hide Hex4, QuadText, QuadValue, UnescapeHex;
    if IsHigh(q) && StartsLow(tail) {
      var low := QuadRead(tail[2..]);
      QuadLength(low);
      u := Pair(q, low);
      assert s[..11] == [0x75] + QuadText(q) + [0x5C, 0x75] + QuadText(low);
    } else {
      u := Hex(q);
      assert s[..5] == [0x75] + QuadText(q);
    }
  }

  lemma {:induction false} ConsUnit(u: Unit, us: seq<Unit>, s: Text, rest: Text)
    requires UnitOk(u) && UnitsOk(us) && s == UnitsThen(us, [0x22] + rest)
    requires u.Hex? && IsHigh(u.u) ==> !StartsLow(s)
    ensures UnitsOk([u] + us) && UnitsThen([u] + us, [0x22] + rest) == UnitText(u) + s
    ensures UnitsMeaning([u] + us) == [UnitMeaning(u)] + UnitsMeaning(us)
  {
    hide StartsLow, UnitText, UnitMeaning, UnitOk, IsHigh, IsLow;
    LowStarts(us, rest);
    assert ([u] + us)[1..] == us;
  }

  lemma {:induction false} UnitsRead(s: Text) returns (us: seq<Unit>)
    requires ParseString(s).Some?
    ensures UnitsOk(us) && s == UnitsThen(us, [0x22] + ParseString(s).value.1)
    ensures UnitsMeaning(us) == ParseString(s).value.0
    decreases |s|
  {
    hide Unescape, StartsLow, UnitText, UnitMeaning, UnitOk, IsHigh, UnitsOk, UnitsThen, UnitsMeaning;
    var rest := ParseString(s).value.1;
    if s[0] == QUOTE {
      us := [];
      NoUnits(rest);
      assert s == [0x22] + s[1..];
    } else {
      var u, n := UnitAt(s);
      var more := UnitsRead(s[n..]);
      us := [u] + more;
      ConsUnit(u, more, s[n..], rest);
      assert s == s[..n] + s[n..];
    }
  }

  lemma {:induction false} NoUnits(rest: Text)
    ensures UnitsOk([]) && UnitsThen([], [0x22] + rest) == [0x22] + rest && UnitsMeaning([]) == []
  {
  }

  /** The first unit of a string that is not at its end. */
  lemma {:induction false} UnitAt(s: Text) returns (u: Unit, n: nat)
    requires ParseString(s).Some? && s[0] != QUOTE
    ensures 1 <= n <= |s| && UnitOk(u) && UnitText(u) == s[..n]
    ensures u.Hex? && IsHigh(u.u) ==> !StartsLow(s[n..])
    ensures ParseString(s[n..]).Some? && ParseString(s[n..]).value.1 == ParseString(s).value.1
    ensures ParseString(s).value.0 == [UnitMeaning(u)] + ParseString(s[n..]).value.0
  {
    hide Unescape, StartsLow, IsHigh;
    if s[0] == BACKSLASH {
      hide UnitText, UnitMeaning, UnitOk;
      u := UnitRead(s[1..]);
      n := 1 + Unescape(s[1..]).value.1;
      assert s[1..][n - 1..] == s[n..];
      assert s[..n] == [0x5C] + s[1..][..n - 1];
    } else {
      u, n := Plain(s[0]), 1;
    }
  }

  // ---- white space is skipped ----------------------------------------------------------

  ghost predicate Solid(s: Text) {
    s == [] || !IsSpace(s[0])
  }

  lemma {:induction false} GapSkipped(gap: Text, s: Text)
    requires Blank(gap) && Solid(s)
    ensures SkipSpace(gap + s) == s
  {
    if gap == [] {
      assert gap + s == s;
    } else {
      GapSkipped(gap[1..], s);
      assert (gap + s)[1..] == gap[1..] + s;
    }
  }

  lemma {:induction false} GapRead(s: Text) returns (gap: Text)
    ensures Blank(gap) && s == gap + SkipSpace(s) && Solid(SkipSpace(s))
  {
    if s != [] && IsSpace(s[0]) {
      var more := GapRead(s[1..]);
      gap := [s[0]] + more;
      assert s == [s[0]] + s[1..];
    } else {
      gap := [];
    }
  }

  // ---- every text of the grammar is read as its meaning -----------------------------------

  lemma {:induction false} TreeStarts(tree: Tree, rest: Text)
    requires TreeOk(tree)
    ensures var t := Then(tree, rest);
            t != [] && t[0] > 0x20 && t[0] != COMMA && t[0] != RBRACKET && t[0] != RBRACE
  {
    hide UnitsThen, ItemsThen, MembersThen, UnitsOk, ItemsOk, MembersOk, FractionText, ExponentText;
    match tree
    case Num(n) => assert NumberText(n)[0] == (SignText(n) + n.digits)[0];
    case _ =>
  }

  lemma {:induction false} WordParsed(w: Word, rest: Text)
    ensures ParseValue(WordText(w) + rest) == Some((WordMeaning(w), rest))
  {
    JsonRoundTrip.KeywordRoundTrip(WordMeaning(w), rest);
    hide ParseValue, Lit;
  }

  /** A number must be followed by something that does not continue it. */
  predicate Ends(tree: Tree, rest: Text) {
    tree.Num? ==> Apart(rest)
  }

  lemma {:induction false} TreeParsed(tree: Tree, rest: Text)
    requires TreeOk(tree) && Ends(tree, rest)
    ensures ParseValue(Then(tree, rest)) == Some((Meaning(tree), rest))
    decreases tree, 0
  {
    hide ParseValue, UnitsOk, NumberMeaning, NumberText, UnitsMeaning, UnitsThen, WordText, WordMeaning, ItemsThen,
         MembersThen, ItemsOk, MembersOk, ItemsMeaning, MembersMeaning, ParseItems, ParseMembers, NumberOk, Blank;
    match tree
    case Atom(w) => WordParsed(w, rest);
    case Num(n) => NumberParsed(n, rest);
    case Quoted(us) => QuotedParsed(us, rest);
    case EmptyBrackets(gap) => EmptyParsed(LBRACKET, gap, rest);
    case EmptyBraces(gap) => EmptyParsed(LBRACE, gap, rest);
    case Bracketed(items) =>
      ItemsParsed(items, rest);
      ItemsStart(items, [0x5D] + rest);
      ContainerParsed(LBRACKET, ItemsThen(items, [0x5D] + rest));
    case Braced(members) =>
      MembersParsed(members, rest);
      MembersStart(members, [0x7D] + rest);
      ContainerParsed(LBRACE, MembersThen(members, [0x7D] + rest));
  }

  lemma {:induction false} QuotedParsed(us: seq<Unit>, rest: Text)
    requires UnitsOk(us)
    ensures ParseValue([0x22] + UnitsThen(us, [0x22] + rest)) == Some((JStr(UnitsMeaning(us)), rest))
  {
    hide UnitsOk, UnitsThen, UnitsMeaning, ParseString;
    UnitsParsed(us, rest);
    assert ([0x22] + UnitsThen(us, [0x22] + rest))[1..] == UnitsThen(us, [0x22] + rest);
  }

  lemma {:induction false} EmptyParsed(open: CodePoint, gap: Text, rest: Text)
    requires Blank(gap)
    ensures open == LBRACKET ==> ParseValue([0x5B] + (gap + ([0x5D] + rest))) == Some((JArr([]), rest))
    ensures open == LBRACE ==> ParseValue([0x7B] + (gap + ([0x7D] + rest))) == Some((JObj([]), rest))
  {
    if open == LBRACKET {
      GapSkipped(gap, [0x5D] + rest);
      assert ([0x5D] + rest)[1..] == rest;
      ContainerParsed(open, gap + ([0x5D] + rest));
    } else {
      GapSkipped(gap, [0x7D] + rest);
      assert ([0x7D] + rest)[1..] == rest;
      ContainerParsed(open, gap + ([0x7D] + rest));
    }
  }

  /** What follows the opening bracket or brace decides how the container is read. */
  lemma {:induction false} ContainerParsed(open: CodePoint, body: Text)
    ensures var u := SkipSpace(body);
            u != [] && open == LBRACKET ==>
              && (u[0] == RBRACKET ==> ParseValue([open] + body) == Some((JArr([]), u[1..])))
              && (u[0] != RBRACKET && ParseItems(u).Some? ==>
                    ParseValue([open] + body) == Some((JArr(ParseItems(u).value.0), ParseItems(u).value.1)))
    ensures var u := SkipSpace(body);
            u != [] && open == LBRACE ==>
              && (u[0] == RBRACE ==> ParseValue([open] + body) == Some((JObj([]), u[1..])))
              && (u[0] != RBRACE && ParseMembers(u).Some? ==>
                    ParseValue([open] + body) ==
                    Some((JObj(BuildDict(ParseMembers(u).value.0)), ParseMembers(u).value.1)))
  {
    hide ParseItems, ParseMembers, SkipSpace, BuildDict;
    assert ([open] + body)[1..] == body;
  }

  lemma {:induction false} ItemsStart(items: Items, rest: Text)
    requires ItemsOk(items)
    ensures var u := SkipSpace(ItemsThen(items, rest)); u != [] && u[0] != RBRACKET
  {
    hide Then, TreeOk, Blank;
    var tail := items.after + if items.MoreItems? then [0x2C] + ItemsThen(items.more, rest) else rest;
    TreeStarts(items.item, tail);
    GapSkipped(items.before, Then(items.item, tail));
  }

  lemma {:induction false} MembersStart(members: Members, rest: Text)
    requires MembersOk(members)
    ensures var u := SkipSpace(MembersThen(members, rest)); u != [] && u[0] != RBRACE
  {
    hide Then, TreeOk, Blank;
    var tail := members.after + if members.MoreMembers? then [0x2C] + MembersThen(members.more, rest) else rest;
    KeyStarts(members.key, members.before + Then(members.value, tail));
  }

  lemma {:induction false} KeyStarts(key: Key, rest: Text)
    requires KeyOk(key)
    ensures var u := SkipSpace(KeyThen(key, rest));
            && u == [0x22] + UnitsThen(key.name, [0x22] + (key.after + ([0x3A] + rest)))
            && u != [] && u[0] == QUOTE
  {
    hide UnitsThen, UnitsOk, Blank;
    GapSkipped(key.before, [0x22] + UnitsThen(key.name, [0x22] + (key.after + ([0x3A] + rest))));
  }

  lemma {:induction false} GapApart(gap: Text, mark: CodePoint, rest: Text)
    requires Blank(gap) && (mark == COMMA || mark == RBRACKET || mark == RBRACE)
    ensures Apart(gap + ([mark] + rest)) && SkipSpace(gap + ([mark] + rest)) == [mark] + rest
    ensures ([mark] + rest)[1..] == rest
  {
    GapSkipped(gap, [mark] + rest);
    assert gap != [] ==> (gap + ([mark] + rest))[0] == gap[0];
    assert gap == [] ==> (gap + ([mark] + rest))[0] == mark;
  }

  lemma {:induction false} ItemsParsed(items: Items, rest: Text)
    requires ItemsOk(items)
    ensures ParseItems(SkipSpace(ItemsThen(items, [0x5D] + rest))) == Some((ItemsMeaning(items), rest))
    decreases items, 1
  {
    hide Then, TreeOk, Blank, ParseValue, Meaning, Apart, SkipSpace;
    var after := if items.MoreItems? then [COMMA] + ItemsThen(items.more, [0x5D] + rest) else [RBRACKET] + rest;
    var tail := items.after + after;
    GapApart(items.after, if items.MoreItems? then COMMA else RBRACKET, after[1..]);
    assert after == [after[0]] + after[1..];
    TreeStarts(items.item, tail);
    GapSkipped(items.before, Then(items.item, tail));
    TreeParsed(items.item, tail);
    var u := Then(items.item, tail);
    assert SkipSpace(ItemsThen(items, [0x5D] + rest)) == u;
    if items.MoreItems? {
      ItemsParsed(items.more, rest);
      assert after[1..] == ItemsThen(items.more, [0x5D] + rest);
    } else {
      assert after[1..] == rest && ItemsMeaning(items) == [Meaning(items.item)];
    }
  }

  lemma {:induction false} MemberParsed(key: Key, before: Text, value: Tree, tail: Text)
    requires KeyOk(key) && Blank(before) && TreeOk(value)
    requires ParseValue(Then(value, tail)) == Some((Meaning(value), tail))
    ensures ParseMember(SkipSpace(KeyThen(key, before + Then(value, tail)))) ==
            Some(((UnitsMeaning(key.name), Meaning(value)), tail))
  {
    hide Then, TreeOk, Blank, ParseValue, Meaning, SkipSpace, UnitsThen, UnitsOk, UnitsMeaning, ParseString, KeyThen;
    var v := before + Then(value, tail);
    var afterKey := key.after + ([0x3A] + v);
    KeyStarts(key, v);
    var u := SkipSpace(KeyThen(key, v));
    assert u[1..] == UnitsThen(key.name, [0x22] + afterKey);
    UnitsParsed(key.name, afterKey);
    GapSkipped(key.after, [0x3A] + v);
    assert ([0x3A] + v)[1..] == v;
    TreeStarts(value, tail);
    GapSkipped(before, Then(value, tail));
  }

  lemma {:induction false} MembersParsed(members: Members, rest: Text)
    requires MembersOk(members)
    ensures ParseMembers(SkipSpace(MembersThen(members, [0x7D] + rest))) == Some((MembersMeaning(members), rest))
    decreases members, 1
  {
    hide Then, TreeOk, Blank, ParseValue, ParseMember, Meaning, Apart, SkipSpace, KeyThen, UnitsMeaning,
         UnitsOk;
    var after := if members.MoreMembers? then [COMMA] + MembersThen(members.more, [0x7D] + rest) else [RBRACE] + rest;
    var tail := members.after + after;
    GapApart(members.after, if members.MoreMembers? then COMMA else RBRACE, after[1..]);
    assert after == [after[0]] + after[1..];
    TreeParsed(members.value, tail);
    MemberParsed(members.key, members.before, members.value, tail);
    if members.MoreMembers? {
      MembersParsed(members.more, rest);
      assert after[1..] == MembersThen(members.more, [0x7D] + rest);
    } else {
      assert after[1..] == rest;
      assert MembersMeaning(members) == [(UnitsMeaning(members.key.name), Meaning(members.value))];
    }
  }

  // ---- whatever is read is a text of the grammar --------------------------------------------

  lemma {:induction false} TreeRead(s: Text) returns (tree: Tree)
    requires ParseValue(s).Some?
    ensures TreeOk(tree) && s == Then(tree, ParseValue(s).value.1) && Meaning(tree) == ParseValue(s).value.0
    decreases |s|, 0
  {
    hide TreeOk, Then, Meaning, ParseItems, ParseMembers, ParseString, ParseNumber, SkipSpace, BuildDict, Blank;
    var rest := ParseValue(s).value.1;
    if s[0] == QUOTE {
      var us := UnitsRead(s[1..]);
      tree := Quoted(us);
      QuotedIs(s, us, rest);
    } else if s[0] == LBRACKET {
      var gap := GapRead(s[1..]);
      var u := SkipSpace(s[1..]);
      if u[0] == RBRACKET {
        tree := EmptyBrackets(gap);
        EmptyIs(s, gap, u, rest);
      } else {
        var items := ItemsRead(gap, u);
        tree := Bracketed(items);
        ArrayIs(s, items, rest);
      }
    } else if s[0] == LBRACE {
      var gap := GapRead(s[1..]);
      var u := SkipSpace(s[1..]);
      if u[0] == RBRACE {
        tree := EmptyBraces(gap);
        EmptyIs(s, gap, u, rest);
      } else {
        var members := MembersRead(gap, u);
        tree := Braced(members);
        ObjectIs(s, members, rest);
      }
    } else {
      tree := AtomRead(s);
    }
  }

  lemma {:induction false} QuotedIs(s: Text, us: seq<Unit>, rest: Text)
    requires s != [] && s[0] == QUOTE && UnitsOk(us) && s[1..] == UnitsThen(us, [0x22] + rest)
    ensures TreeOk(Quoted(us)) && s == Then(Quoted(us), rest) && Meaning(Quoted(us)) == JStr(UnitsMeaning(us))
  {
    hide UnitsOk, UnitsThen, UnitsMeaning;
    assert s == [s[0]] + s[1..];
  }

  lemma {:induction false} EmptyIs(s: Text, gap: Text, u: Text, rest: Text)
    requires s != [] && s[1..] == gap + u && Blank(gap) && u != [] && u[1..] == rest
    ensures s[0] == LBRACKET && u[0] == RBRACKET ==>
              TreeOk(EmptyBrackets(gap)) && s == Then(EmptyBrackets(gap), rest)
              && Meaning(EmptyBrackets(gap)) == JArr([])
    ensures s[0] == LBRACE && u[0] == RBRACE ==>
              TreeOk(EmptyBraces(gap)) && s == Then(EmptyBraces(gap), rest) && Meaning(EmptyBraces(gap)) == JObj([])
  {
    hide Blank;
    assert s == [s[0]] + s[1..] && u == [u[0]] + u[1..];
  }

  lemma {:induction false} ArrayIs(s: Text, items: Items, rest: Text)
    requires s != [] && s[0] == LBRACKET && ItemsOk(items) && s[1..] == ItemsThen(items, [0x5D] + rest)
    ensures TreeOk(Bracketed(items)) && s == Then(Bracketed(items), rest)
    ensures Meaning(Bracketed(items)) == JArr(ItemsMeaning(items))
  {
    hide ItemsOk, ItemsThen, ItemsMeaning;
    assert s == [s[0]] + s[1..];
  }

  lemma {:induction false} ObjectIs(s: Text, members: Members, rest: Text)
    requires s != [] && s[0] == LBRACE && MembersOk(members) && s[1..] == MembersThen(members, [0x7D] + rest)
    ensures TreeOk(Braced(members)) && s == Then(Braced(members), rest)
    ensures Meaning(Braced(members)) == JObj(BuildDict(MembersMeaning(members)))
  {
    hide MembersOk, MembersThen, MembersMeaning, BuildDict;
    assert s == [s[0]] + s[1..];
  }

  /** The words, and otherwise a number. */
  lemma {:induction false} AtomRead(s: Text) returns (tree: Tree)
    requires ParseValue(s).Some? && s[0] != QUOTE && s[0] != LBRACE && s[0] != LBRACKET
    ensures TreeOk(tree) && s == Then(tree, ParseValue(s).value.1) && Meaning(tree) == ParseValue(s).value.0
  {
    hide ParseNumber, Lit, NumberText, NumberMeaning, NumberOk;
    if NULL_TEXT <= s { tree := Atom(NullWord); }
    else if TRUE_TEXT <= s { tree := Atom(TrueWord); }
    else if FALSE_TEXT <= s { tree := Atom(FalseWord); }
    else if NAN_TEXT <= s { tree := Atom(NaNWord); }
    else if INF_TEXT <= s { tree := Atom(InfinityWord); }
    else if NEG_INF_TEXT <= s { tree := Atom(MinusInfinityWord); }
    else {
      var n := NumberRead(s);
      tree := Num(n);
    }
  }

  lemma {:induction false} ItemsRead(before: Text, s: Text) returns (items: Items)
    requires Blank(before) && ParseItems(s).Some?
    ensures ItemsOk(items) && before + s == ItemsThen(items, [0x5D] + ParseItems(s).value.1)
    ensures ItemsMeaning(items) == ParseItems(s).value.0
    decreases |s|, 1
  {
    hide ParseValue, SkipSpace, Blank, Then, Meaning, TreeOk;
    var item := TreeRead(s);
    var tail := ParseValue(s).value.1;
    var after := GapRead(tail);
    var u := SkipSpace(tail);
    assert u == [u[0]] + u[1..];
    if u[0] == RBRACKET {
      items := LastItem(before, item, after);
    } else {
      var gap := GapRead(u[1..]);
      var more := ItemsRead(gap, SkipSpace(u[1..]));
      items := MoreItems(before, item, after, more);
    }
  }

  lemma {:induction false} MemberRead(before: Text, s: Text) returns (key: Key, gap: Text, value: Tree)
    requires Blank(before) && ParseMember(s).Some?
    ensures KeyOk(key) && Blank(gap) && TreeOk(value)
    ensures before + s == KeyThen(key, gap + Then(value, ParseMember(s).value.1))
    ensures (UnitsMeaning(key.name), Meaning(value)) == ParseMember(s).value.0
    decreases |s|, 0
  {
    hide ParseValue, ParseString, SkipSpace, Blank, Then, Meaning, TreeOk, UnitsThen, UnitsMeaning, UnitsOk;
    var name := UnitsRead(s[1..]);
    var tail := ParseString(s[1..]).value.1;
    var after := GapRead(tail);
    var u := SkipSpace(tail);
    key := Key(before, name, after);
    gap := GapRead(u[1..]);
    value := TreeRead(SkipSpace(u[1..]));
    assert s == [s[0]] + s[1..];
    assert u == [u[0]] + u[1..];
  }

  lemma {:induction false} MembersRead(before: Text, s: Text) returns (members: Members)
    requires Blank(before) && ParseMembers(s).Some?
    ensures MembersOk(members) && before + s == MembersThen(members, [0x7D] + ParseMembers(s).value.1)
    ensures MembersMeaning(members) == ParseMembers(s).value.0
    decreases |s|, 1
  {
    hide ParseMember, SkipSpace, Blank, Then, Meaning, TreeOk, KeyOk, KeyThen, UnitsMeaning;
    var key, gap, value := MemberRead(before, s);
    var tail := ParseMember(s).value.1;
    var after := GapRead(tail);
    var u := SkipSpace(tail);
    assert u == [u[0]] + u[1..];
    if u[0] == RBRACE {
      members := LastMember(key, gap, value, after);
    } else {
      var space := GapRead(u[1..]);
      var more := MembersRead(space, SkipSpace(u[1..]));
      members := MoreMembers(key, gap, value, after, more);
    }
  }

  // ---- the parser and the grammar agree --------------------------------------------------------

  /** White space, a tree and whatever follows: what is left decides. */
  lemma {:induction false} LoadsOf(before: Text, tree: Tree, rest: Text)
    requires Blank(before) && TreeOk(tree) && Ends(tree, rest)
    ensures Loads(before + Then(tree, rest)) == if Blank(rest) then Some(Meaning(tree)) else None
  {
    hide ParseValue, TreeOk, Meaning, SkipSpace, Then;
    TreeStarts(tree, rest);
    GapSkipped(before, Then(tree, rest));
    TreeParsed(tree, rest);
    var gap := GapRead(rest);
    if Blank(rest) {
      GapSkipped(rest, []);
      assert rest + [] == rest;
    } else {
      assert gap + [] == gap;
    }
  }

  lemma {:induction false} BlankEnds(tree: Tree, after: Text)
    requires Blank(after)
    ensures Ends(tree, after)
  {
  }

  /** The parser accepts exactly the JSON texts and gives each the value of its tree. */
  lemma {:induction false} LoadsExactly(s: Text, j: Json)
    ensures Loads(s) == Some(j) <==> IsText(s, j)
  {
    hide ParseValue, TreeOk, Meaning, SkipSpace, Then, Loads, Blank;
    if Loads(s) == Some(j) {
      var before, tree, after := TextRead(s);
      assert Spells(s, before, tree, after);
    }
    if IsText(s, j) {
      var before, tree, after :| Spells(s, before, tree, after) && Meaning(tree) == j;
      BlankEnds(tree, after);
      LoadsOf(before, tree, after);
    }
  }

  lemma {:induction false} TextRead(s: Text) returns (before: Text, tree: Tree, after: Text)
    requires Loads(s).Some?
    ensures Spells(s, before, tree, after) && Meaning(tree) == Loads(s).value
  {
    hide ParseValue, TreeOk, Meaning, SkipSpace, Then, Blank;
    before := GapRead(s);
    tree := TreeRead(SkipSpace(s));
    after := ParseValue(SkipSpace(s)).value.1;
    var gap := GapRead(after);
    assert gap + [] == gap;
  }

  /** Reading a text in two ways gives one value. */
  lemma {:induction false} OneMeaning(s: Text, j: Json, k: Json)
    requires IsText(s, j) && IsText(s, k)
    ensures j == k
  {
    hide IsText, Loads;
    LoadsExactly(s, j);
    LoadsExactly(s, k);
  }

  /** The meaning of an object's members is the dictionary of its pairs. */
  lemma {:induction false} BuildsDict(pairs: seq<(Text, Json)>)
    ensures DictOf(pairs, BuildDict(pairs))
  {
    if pairs != [] {
      var n := |pairs| - 1;
      var before, last := pairs[..n], pairs[n];
      BuildsDict(before);
      DictMore(before, BuildDict(before), last);
      assert pairs == before + [last];
    }
  }

  lemma {:induction false} LastStays(pairs: seq<(Text, Json)>, p: (Text, Json), last: (Text, Json))
    requires LastOfKey(pairs, p) && last.0 != p.0
    ensures LastOfKey(pairs + [last], p)
  {
    var k :| 0 <= k < |pairs| && pairs[k] == p && forall l :: k < l < |pairs| ==> pairs[l].0 != p.0;
    assert (pairs + [last])[k] == p;
  }

  lemma {:induction false} LastIsLast(pairs: seq<(Text, Json)>, last: (Text, Json))
    ensures LastOfKey(pairs + [last], last)
  {
    assert (pairs + [last])[|pairs|] == last;
  }

  lemma {:induction false} FirstStays(pairs: seq<(Text, Json)>, a: Text, b: Text, last: (Text, Json))
    requires FirstBefore(pairs, a, b)
    ensures FirstBefore(pairs + [last], a, b)
  {
    var k :| 0 <= k < |pairs| && pairs[k].0 == a && forall l :: 0 <= l <= k ==> pairs[l].0 != b;
    assert (pairs + [last])[k].0 == a;
  }

  lemma {:induction false} NewComesLater(pairs: seq<(Text, Json)>, p: (Text, Json), last: (Text, Json))
    requires LastOfKey(pairs, p) && forall i :: 0 <= i < |pairs| ==> pairs[i].0 != last.0
    ensures FirstBefore(pairs + [last], p.0, last.0)
  {
    var k :| 0 <= k < |pairs| && pairs[k] == p;
    assert (pairs + [last])[k].0 == p.0;
  }

  lemma {:induction false} KeyAt(d: seq<(Text, Json)>, i: nat)
    requires i < |d|
    ensures HasKey(d, d[i].0)
  {
  }

  lemma {:induction false} DictMore(pairs: seq<(Text, Json)>, d: seq<(Text, Json)>, last: (Text, Json))
    requires DictOf(pairs, d)
    ensures DictOf(pairs + [last], DictSet(d, last.0, last.1))
  {
    hide LastOfKey, FirstBefore, IndexOf;
    var all, e := pairs + [last], DictSet(d, last.0, last.1);
    var at := if HasKey(d, last.0) then IndexOf(d, last.0).value else |d|;
    assert forall i :: 0 <= i < |d| ==> e[i].0 == d[i].0;
    assert e[at] == last;
    LastIsLast(pairs, last);
    forall i | 0 <= i < |all| ensures HasKey(e, all[i].0) {
      if i < |pairs| {
        assert HasKey(d, pairs[i].0);
        KeyAt(e, IndexOf(d, pairs[i].0).value);
      } else {
        KeyAt(e, at);
      }
    }
    forall i | 0 <= i < |e| ensures LastOfKey(all, e[i]) {
      if i != at {
        LastStays(pairs, d[i], last);
      }
    }
    forall i, j | 0 <= i < j < |e| ensures FirstBefore(all, e[i].0, e[j].0) {
      if j < |d| {
        FirstStays(pairs, d[i].0, d[j].0, last);
      } else {
        forall k | 0 <= k < |pairs| ensures pairs[k].0 != last.0 {
          assert HasKey(d, pairs[k].0);
        }
        NewComesLater(pairs, d[i], last);
      }
    }
  }
}
