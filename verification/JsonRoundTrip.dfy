/** Parsing undoes printing for every JSON value, and printed text holds no control character. */
module JsonRoundTrip {
  import opened Basics
  import opened Json

  /** What may follow a value inside an array or object, or at the end of the text. */
  ghost predicate Delimited(rest: Text) {
    rest == [] || rest[0] == COMMA || rest[0] == RBRACE || rest[0] == RBRACKET
  }

  // ---- numbers ------------------------------------------------------------

  lemma {:induction false} NatRoundTrip(n: nat)
    ensures NatOf(PrintNat(n)) == n
  {
    if n >= 10 {
      NatRoundTrip(n / 10);
      var t := PrintNat(n);
      assert t[..|t| - 1] == PrintNat(n / 10);
    } else {
      var t := PrintNat(n);
      assert t[..0] == [];
      assert NatOf(t) == NatOf(t[..0]) * 10 + (t[0] - ZERO);
    }
  }

  lemma {:induction false} IntTokenScans(n: int)
    ensures ScanNumber(PrintInt(n)) == Some((|PrintInt(n)|, false))
    ensures forall i :: SignEnd(PrintInt(n)) <= i < |PrintInt(n)| ==> IsDigit(PrintInt(n)[i])
    ensures IntOf(PrintInt(n)) == n
  {
    var t := PrintInt(n);
    if n < 0 {
      NatRoundTrip(-n);
      assert t[1..] == PrintNat(-n);
      assert t[1] == PrintNat(-n)[0];
    } else {
      NatRoundTrip(n);
    }
    assert DigitEnd(t, SignEnd(t)) == |t|;
    assert IntEnd(t) == Some(|t|);
  }

  /** No keyword, string or container starts where a number token does. */
  lemma {:induction false} NumberIsParsed(s: Text)
    requires ScanNumber(s).Some?
    ensures ParseValue(s) == ParseNumber(s)
  {
    assert s[0] == MINUS || IsDigit(s[0]);
    NotPrefix(NULL_TEXT, s, 0);
    NotPrefix(TRUE_TEXT, s, 0);
    NotPrefix(FALSE_TEXT, s, 0);
    NotPrefix(NAN_TEXT, s, 0);
    NotPrefix(INF_TEXT, s, 0);
    NotPrefix(NEG_INF_TEXT, s, SignEnd(s));
  }

  lemma {:induction false} NotPrefix(p: Text, s: Text, i: nat)
    requires i < |p| && i < |s| && p[i] != s[i]
    ensures !(p <= s)
  {
  }

  lemma {:induction false} TokenRoundTrip(t: Text, rest: Text)
    requires ScanNumber(t).Some? && ScanNumber(t).value.0 == |t| && Delimited(rest)
    ensures ParseValue(t + rest) == ParseNumber(t + rest)
    ensures ScanNumber(t + rest) == ScanNumber(t) && (t + rest)[..|t|] == t && (t + rest)[|t|..] == rest
  {
    ScanAgrees(t, t + rest);
    NumberIsParsed(t + rest);
  }

  lemma {:induction false} FloatTokenChars(t: FloatToken)
    ensures t != [] && (t[0] == MINUS || IsDigit(t[0]))
    ensures forall i :: 0 <= i < |t| ==> IsNumberChar(t[i])
  {
    var i := IntEnd(t).value;
    var f := FractionEnd(t, i);
    forall k | 0 <= k < |t| ensures IsNumberChar(t[k]) {
      if k < i {
      } else if k < f {
      } else {
      }
    }
  }

  // ---- strings ------------------------------------------------------------

  /** One step of the string parser, past an escape sequence. */
  lemma {:induction false} EscapeParsed(c: CodePoint, e: Text, u: Text)
    requires e != [] && e[0] == BACKSLASH && ParseString(u).Some?
    requires Unescape(e[1..] + u) == Some((c, |e| - 1))
    ensures ParseString(e + u) == Some(([c] + ParseString(u).value.0, ParseString(u).value.1))
  {
    hide Unescape;
    assert (e + u)[1..] == e[1..] + u && (e + u)[|e|..] == u;
  }

  lemma {:induction false} ShortEscape(c: CodePoint, u: Text)
    requires EscapePoint(c)[0] == BACKSLASH && |EscapePoint(c)| == 2
    ensures Unescape(EscapePoint(c)[1..] + u) == Some((c, 1))
  {
    hide UnescapeHex;
    assert (EscapePoint(c)[1..] + u)[0] == EscapePoint(c)[1];
  }

  lemma {:induction false} EscapedPointIsParsed(c: CodePoint, u: Text)
    requires ParseString(u).Some?
    ensures ParseString(EscapePoint(c) + u) == Some(([c] + ParseString(u).value.0, ParseString(u).value.1))
  {
    var e := EscapePoint(c);
    if e[0] != BACKSLASH {
      assert (e + u)[1..] == u && (e + u)[0] == c;
    } else if |e| == 2 {
      ShortEscape(c, u);
      EscapeParsed(c, e, u);
    } else {
      HexEscape(c, u);
      assert e[1..] == [0x75, ZERO, ZERO, HexDigit(c / 16), HexDigit(c % 16)];
      EscapeParsed(c, e, u);
    }
  }

  lemma {:induction false} HexEscape(c: CodePoint, u: Text)
    requires 0 <= c < 0x20
    ensures Unescape([0x75, ZERO, ZERO, HexDigit(c / 16), HexDigit(c % 16)] + u) == Some((c, 5))
  {
    var s := [0x75, ZERO, ZERO, HexDigit(c / 16), HexDigit(c % 16)] + u;
    assert s[1..][0] == ZERO && s[1..][1] == ZERO;
    assert s[1..][2] == HexDigit(c / 16) && s[1..][3] == HexDigit(c % 16);
    assert HexValue(HexDigit(c / 16)) == Some(c / 16) && HexValue(HexDigit(c % 16)) == Some(c % 16);
    assert Hex4(s[1..]) == Some(c);
  }

  lemma {:induction false} StringRoundTrip(t: Text, rest: Text)
    ensures ParseString(Escape(t) + [QUOTE] + rest) == Some((t, rest))
  {
    if t == [] {
      assert Escape(t) + [QUOTE] + rest == [QUOTE] + rest;
      assert ([QUOTE] + rest)[1..] == rest;
    } else {
      hide ParseString, EscapePoint;
      var u := Escape(t[1..]) + [QUOTE] + rest;
      StringRoundTrip(t[1..], rest);
      EscapedPointIsParsed(t[0], u);
      assert Escape(t) + [QUOTE] + rest == EscapePoint(t[0]) + u;
      assert [t[0]] + t[1..] == t;
    }
  }

  // ---- values -------------------------------------------------------------

  lemma {:induction false} IntStart(n: int)
    ensures PrintInt(n) != [] && (PrintInt(n)[0] == MINUS || IsDigit(PrintInt(n)[0]))
  {
  }

  /** Printed values are non-empty and start with neither a space nor a closing bracket. */
  lemma {:induction false} PrintStart(j: Json)
    ensures var t := Print(j);
            t != [] && t[0] > 0x20 && t[0] != RBRACKET && t[0] != RBRACE && t[0] != COMMA
  {
    hide Escape, PrintItems, PrintMembers, PrintInt, IsFloatToken;
    match j
    case JInt(n) => IntStart(n);
    case JFloat(f) => if f.Finite? { FloatTokenChars(f.token); }
    case _ =>
  }

  lemma {:induction false} BuildDictUnique(members: seq<(Text, Json)>)
    requires UniqueKeys(members)
    ensures BuildDict(members) == members
  {
    if members != [] {
      var n := |members| - 1;
      BuildDictUnique(members[..n]);
      assert !HasKey(members[..n], members[n].0);
      assert members == members[..n] + [members[n]];
    }
  }

  lemma {:induction false} IntRoundTrip(n: int, rest: Text)
    requires Delimited(rest)
    ensures ParseValue(PrintInt(n) + rest) == Some((JInt(n), rest))
  {
    IntTokenScans(n);
    TokenRoundTrip(PrintInt(n), rest);
  }

  lemma {:induction false} FloatRoundTrip(token: FloatToken, rest: Text)
    requires Delimited(rest)
    ensures ParseValue(token + rest) == Some((JFloat(Finite(token)), rest))
  {
    TokenRoundTrip(token, rest);
  }

  lemma {:induction false} StrRoundTrip(t: Text, rest: Text)
    ensures ParseValue(PrintString(t) + rest) == Some((JStr(t), rest))
  {
    hide ParseString, Escape;
    StringRoundTrip(t, rest);
    assert (PrintString(t) + rest)[1..] == Escape(t) + [QUOTE] + rest;
  }

  lemma {:induction false} AtomRoundTrip(j: Json, rest: Text)
    requires !j.JArr? && !j.JObj? && Delimited(rest)
    ensures ParseValue(Print(j) + rest) == Some((j, rest))
  {
    hide ParseValue, PrintString, PrintInt;
    match j
    case JInt(n) => IntRoundTrip(n, rest);
    case JFloat(Finite(token)) => FloatRoundTrip(token, rest);
    case JStr(t) => StrRoundTrip(t, rest);
    case _ => KeywordRoundTrip(j, rest);
  }

  lemma {:induction false} KeywordRoundTrip(j: Json, rest: Text)
    requires j.JNull? || j.JBool? || (j.JFloat? && !j.f.Finite?)
    ensures ParseValue(Print(j) + rest) == Some((j, rest))
  {
    var p := Print(j);
    var s := p + rest;
    assert s[|p|..] == rest && p <= s;
    assert s[0] == p[0];
    assert NULL_TEXT <= s ==> s[0] == NULL_TEXT[0];
    assert TRUE_TEXT <= s ==> s[0] == TRUE_TEXT[0];
    assert FALSE_TEXT <= s ==> s[0] == FALSE_TEXT[0];
    assert NAN_TEXT <= s ==> s[0] == NAN_TEXT[0] && s[1] == NAN_TEXT[1];
    assert INF_TEXT <= s ==> s[0] == INF_TEXT[0];
    assert NEG_INF_TEXT <= s ==> s[0] == NEG_INF_TEXT[0];
  }

  lemma {:induction false} ParseContainer(s: Text, u: Text)
    requires s == [LBRACKET] + u || s == [LBRACE] + u
    requires u != [] && !IsSpace(u[0])
    ensures s[0] == LBRACKET && u[0] == RBRACKET ==> ParseValue(s) == Some((JArr([]), u[1..]))
    ensures s[0] == LBRACKET && u[0] != RBRACKET && ParseItems(u).Some? ==>
              ParseValue(s) == Some((JArr(ParseItems(u).value.0), ParseItems(u).value.1))
    ensures s[0] == LBRACE && u[0] == RBRACE ==> ParseValue(s) == Some((JObj([]), u[1..]))
    ensures s[0] == LBRACE && u[0] != RBRACE && ParseMembers(u).Some? ==>
              ParseValue(s) == Some((JObj(BuildDict(ParseMembers(u).value.0)), ParseMembers(u).value.1))
  {
    assert s[1..] == u;
  }

  lemma {:induction false} ParseItemsLast(s: Text, v: Json, rest: Text)
    requires ParseValue(s) == Some((v, [RBRACKET] + rest))
    ensures ParseItems(s) == Some(([v], rest))
  {
    assert ([RBRACKET] + rest)[1..] == rest;
  }

  lemma {:induction false} ParseItemsMore(s: Text, v: Json, tail: Text)
    requires ParseValue(s) == Some((v, [COMMA] + tail))
    requires tail != [] && !IsSpace(tail[0]) && ParseItems(tail).Some?
    ensures ParseItems(s) == Some(([v] + ParseItems(tail).value.0, ParseItems(tail).value.1))
  {
    assert ([COMMA] + tail)[1..] == tail;
  }

  lemma {:induction false} ParseMembersLast(s: Text, m: (Text, Json), rest: Text)
    requires ParseMember(s) == Some((m, [RBRACE] + rest))
    ensures ParseMembers(s) == Some(([m], rest))
  {
    assert ([RBRACE] + rest)[1..] == rest;
  }

  lemma {:induction false} ParseMembersMore(head: Text, body: Text, after: Text, m: (Text, Json))
    requires body != [] && !IsSpace(body[0]) && ParseMembers(body + after).Some?
    requires ParseMember(head + ([COMMA] + (body + after))) == Some((m, [COMMA] + (body + after)))
    ensures ParseMembers(head + [COMMA] + body + after) ==
            Some(([m] + ParseMembers(body + after).value.0, ParseMembers(body + after).value.1))
  {
    hide ParseMember;
    var tail := body + after;
    assert ([COMMA] + tail)[1..] == tail;
    assert head + [COMMA] + body + after == head + ([COMMA] + tail);
  }

  lemma {:induction false} Reassociate(a: Text, b: Text, c: Text, d: Text)
    ensures a + b + c + d == a + (b + (c + d)) && a + b + c == a + (b + c)
  {
  }

  lemma {:induction false} ItemsStart(items: seq<Json>)
    requires items != []
    ensures var u := PrintItems(items); u != [] && !IsSpace(u[0]) && u[0] != RBRACKET
  {
    PrintStart(items[0]);
  }

  lemma {:induction false} MembersStart(members: seq<(Text, Json)>)
    requires members != []
    ensures var u := PrintMembers(members); u != [] && u[0] == QUOTE
  {
    assert PrintMember(members[0])[0] == QUOTE;
  }

  /** The parser returns the printed value and leaves exactly what followed it. */
  lemma {:induction false} ValueRoundTrip(j: Json, rest: Text)
    requires WellFormed(j) && Delimited(rest)
    ensures ParseValue(Print(j) + rest) == Some((j, rest))
    decreases j, 1
  {
    hide ParseValue, Print;
    match j
    case JArr(items) => ArrayRoundTrip(items, rest);
    case JObj(members) => ObjectRoundTrip(members, rest);
    case _ => AtomRoundTrip(j, rest);
  }

  lemma {:induction false} ParseArray(body: Text, items: seq<Json>, rest: Text)
    requires items == [] ==> body == []
    requires items != [] ==> body != [] && !IsSpace(body[0]) && body[0] != RBRACKET
    requires items != [] ==> ParseItems(body + ([RBRACKET] + rest)) == Some((items, rest))
    ensures ParseValue([LBRACKET] + body + [RBRACKET] + rest) == Some((JArr(items), rest))
  {
    var after := [RBRACKET] + rest;
    var u := body + after;
    assert [LBRACKET] + body + [RBRACKET] + rest == [LBRACKET] + u;
    if items == [] {
      assert u == after && after[1..] == rest;
    }
    ParseContainer([LBRACKET] + u, u);
  }

  lemma {:induction false} ParseObject(body: Text, members: seq<(Text, Json)>, rest: Text)
    requires UniqueKeys(members)
    requires members == [] ==> body == []
    requires members != [] ==> body != [] && body[0] == QUOTE
    requires members != [] ==> ParseMembers(body + ([RBRACE] + rest)) == Some((members, rest))
    ensures ParseValue([LBRACE] + body + [RBRACE] + rest) == Some((JObj(members), rest))
  {
    var after := [RBRACE] + rest;
    var u := body + after;
    assert [LBRACE] + body + [RBRACE] + rest == [LBRACE] + u;
    if members == [] {
      assert u == after && after[1..] == rest;
    }
    ParseContainer([LBRACE] + u, u);
    BuildDictUnique(members);
  }

  lemma {:induction false} ParseMemberParts(key: Text, value: Text)
    requires value != [] && !IsSpace(value[0]) && ParseValue(value).Some?
    ensures ParseMember(PrintString(key) + ([COLON] + value)) ==
            Some(((key, ParseValue(value).value.0), ParseValue(value).value.1))
  {
    var afterKey := [COLON] + value;
    var s := PrintString(key) + afterKey;
    assert s[0] == QUOTE && s[1..] == Escape(key) + [QUOTE] + afterKey;
    StringRoundTrip(key, afterKey);
    assert afterKey[1..] == value;
  }

  lemma {:induction false} ArrayRoundTrip(items: seq<Json>, rest: Text)
    requires forall i :: 0 <= i < |items| ==> WellFormed(items[i])
    ensures ParseValue(Print(JArr(items)) + rest) == Some((JArr(items), rest))
    decreases items, 1
  {
    hide ParseValue, ParseItems;
    if items != [] {
      ItemsRoundTrip(items, rest);
      ItemsStart(items);
    }
    ParseArray(PrintItems(items), items, rest);
  }

  lemma {:induction false} ObjectRoundTrip(members: seq<(Text, Json)>, rest: Text)
    requires UniqueKeys(members) && forall i :: 0 <= i < |members| ==> WellFormed(members[i].1)
    ensures ParseValue(Print(JObj(members)) + rest) == Some((JObj(members), rest))
    decreases members, 1
  {
    hide ParseValue, ParseMembers;
    if members != [] {
      MembersRoundTrip(members, rest);
      MembersStart(members);
    }
    ParseObject(PrintMembers(members), members, rest);
  }

  lemma {:induction false} ItemsRoundTrip(items: seq<Json>, rest: Text)
    requires items != [] && forall i :: 0 <= i < |items| ==> WellFormed(items[i])
    ensures ParseItems(PrintItems(items) + ([RBRACKET] + rest)) == Some((items, rest))
    decreases items, 0
  {
    hide ParseValue, ParseItems, Print;
    var after := [RBRACKET] + rest;
    if |items| == 1 {
      ValueRoundTrip(items[0], after);
      assert items == [items[0]];
      ParseItemsLast(Print(items[0]) + after, items[0], rest);
    } else {
      var more := items[1..];
      var tail := PrintItems(more) + after;
      ValueRoundTrip(items[0], [COMMA] + tail);
      ItemsStart(more);
      ItemsRoundTrip(more, rest);
      ParseItemsMore(Print(items[0]) + ([COMMA] + tail), items[0], tail);
      Reassociate(Print(items[0]), [COMMA], PrintItems(more), after);
      assert items == [items[0]] + more;
    }
  }

  lemma {:induction false} MemberRoundTrip(m: (Text, Json), rest: Text)
    requires WellFormed(m.1) && Delimited(rest)
    ensures ParseMember(PrintMember(m) + rest) == Some((m, rest))
    decreases m, 2
  {
    hide ParseValue, ParseMember, Print, PrintString;
    PrintStart(m.1);
    ValueRoundTrip(m.1, rest);
    ParseMemberParts(m.0, Print(m.1) + rest);
    Reassociate(PrintString(m.0), [COLON], Print(m.1), rest);
  }

  lemma {:induction false} MembersRoundTrip(members: seq<(Text, Json)>, rest: Text)
    requires members != [] && forall i :: 0 <= i < |members| ==> WellFormed(members[i].1)
    ensures ParseMembers(PrintMembers(members) + ([RBRACE] + rest)) == Some((members, rest))
    decreases members, 0
  {
    hide PrintMember, ParseMember, ParseMembers;
    var after := [RBRACE] + rest;
    if |members| == 1 {
      MemberRoundTrip(members[0], after);
      assert members == [members[0]];
      ParseMembersLast(PrintMember(members[0]) + after, members[0], rest);
    } else {
      var more := members[1..];
      MemberRoundTrip(members[0], [COMMA] + (PrintMembers(more) + after));
      MembersStart(more);
      MembersRoundTrip(more, rest);
      ParseMembersMore(PrintMember(members[0]), PrintMembers(more), after, members[0]);
      assert members == [members[0]] + more;
    }
  }

  /** `json.loads` undoes `json.dumps` on every value whose dictionaries hold each key once. */
  lemma {:induction false} LoadsPrint(j: Json)
    requires WellFormed(j)
    ensures Loads(Print(j)) == Some(j)
  {
    PrintStart(j);
    ValueRoundTrip(j, []);
    assert Print(j) + [] == Print(j);
  }

  // ---- no control characters ----------------------------------------------

  ghost predicate Visible(t: Text) {
    forall i :: 0 <= i < |t| ==> t[i] >= 0x20
  }

  lemma {:induction false} EscapeVisible(t: Text)
    ensures Visible(Escape(t))
  {
    if t != [] {
      EscapeVisible(t[1..]);
    }
  }

  lemma {:induction false} IntVisible(n: int)
    ensures Visible(PrintInt(n))
  {
  }

  /** A printed value never contains a newline, whatever its strings contain. */
  lemma {:induction false} PrintVisible(j: Json)
    ensures Visible(Print(j))
    decreases j, 1
  {
    hide Escape, PrintItems, PrintMembers, PrintInt, IsFloatToken;
    match j
    case JInt(n) => IntVisible(n);
    case JFloat(f) => if f.Finite? { FloatTokenChars(f.token); }
    case JStr(s) => EscapeVisible(s);
    case JArr(items) => ItemsVisible(items);
    case JObj(members) => MembersVisible(members);
    case _ =>
  }

  lemma {:induction false} ItemsVisible(items: seq<Json>)
    ensures Visible(PrintItems(items))
    decreases items, 0
  {
    if items != [] {
      PrintVisible(items[0]);
      ItemsVisible(items[1..]);
    }
  }

  lemma {:induction false} MembersVisible(members: seq<(Text, Json)>)
    ensures Visible(PrintMembers(members))
    decreases members, 0
  {
    if members != [] {
      MemberVisible(members[0]);
      MembersVisible(members[1..]);
    }
  }

  lemma {:induction false} MemberVisible(m: (Text, Json))
    ensures Visible(PrintMember(m))
    decreases m, 2
  {
    EscapeVisible(m.0);
    PrintVisible(m.1);
  }
}
