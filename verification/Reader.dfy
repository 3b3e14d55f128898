/** The JSONL reader: a torn tail is tolerated, any other damage is reported with its position. */
module Reader {
  import opened Basics
  import opened Json
  import opened Framing
  import opened JsonGrammar
  import opened LineCodec

  type Mapping = seq<(Text, Json)>

  /** ReaderError: why the framed line was refused, its line number and its byte offset; never its content. */
  datatype ReadError = ReadError(reason: Verdict, line: nat, offset: nat)

  /** What one iteration gives: the mappings yielded, the error that ended it if any, and `truncated` after it. */
  datatype Reading = Reading(yielded: seq<Mapping>, error: Option<ReadError>, truncated: bool)

  predicate IsGood(line: bytes) {
    line != [] && DecodeLine(Body(line)).Object?
  }

  function MappingOf(line: bytes): Mapping
    requires IsGood(line)
  {
    DecodeLine(Body(line)).mapping
  }

  predicate AllGood(lines: seq<bytes>) {
    forall i :: 0 <= i < |lines| ==> IsGood(lines[i])
  }

  function MappingsOf(lines: seq<bytes>): (m: seq<Mapping>)
    requires AllGood(lines)
    ensures |m| == |lines|
    ensures forall i :: 0 <= i < |lines| ==> m[i] == MappingOf(lines[i])
  {
    seq(|lines|, i requires 0 <= i < |lines| => MappingOf(lines[i]))
  }

  /** The number of leading lines that hold a JSON object. */
  function GoodLines(lines: seq<bytes>): (n: nat)
    ensures n <= |lines|
    ensures AllGood(lines[..n])
    ensures n < |lines| ==> !IsGood(lines[n])
  {
    if lines == [] || !IsGood(lines[0]) then 0
    else
      var n := GoodLines(lines[1..]);
      assert forall i :: 1 <= i < n + 1 ==> lines[i] == lines[1..][..n][i - 1];
      1 + n
  }

  /** What reading means: split on newlines, decode the lines up to the first bad one, never touch the tail. */
  function Read(content: Option<bytes>): Reading {
    match content
    case None => Reading([], None, false)
    case Some(b) =>
      var (lines, tail) := Split(b);
      var n := GoodLines(lines);
      var yielded := MappingsOf(lines[..n]);
      if n < |lines| then
        SplitJoins(b);
        Reading(yielded, Some(ReadError(DecodeLine(Body(lines[n])), n + 1, |Flatten(lines[..n])|)), false)
      else Reading(yielded, None, tail != [])
  }

  lemma {:induction false} GoodPrefix(good: seq<bytes>, lines: seq<bytes>)
    requires AllGood(good)
    ensures GoodLines(good + lines) == |good| + GoodLines(lines)
  {
    hide IsGood;
    if good == [] {
      assert good + lines == lines;
    } else {
      GoodPrefix(good[1..], lines);
      assert (good + lines)[1..] == good[1..] + lines;
    }
  }

  /** A file of good lines and a newline-free tail reads back completely. */
  lemma {:induction false} ReadGood(lines: seq<bytes>, tail: bytes)
    requires AllLines(lines) && AllGood(lines) && NEWLINE !in tail
    ensures Read(Some(Flatten(lines) + tail)) == Reading(MappingsOf(lines), None, tail != [])
  {
    hide Split, IsGood, GoodLines, Flatten;
    SplitOf(lines, tail);
    SplitNewlineFree(tail);
    assert lines + [] == lines;
    GoodPrefix(lines, []);
    assert lines[..|lines|] == lines;
  }

  function Newlines(b: bytes): nat {
    if b == [] then 0 else Newlines(b[..|b| - 1]) + if b[|b| - 1] == NEWLINE then 1 else 0
  }

  lemma {:induction false} NewlinesAppend(a: bytes, b: bytes)
    ensures Newlines(a + b) == Newlines(a) + Newlines(b)
  {
    if b == [] {
      assert a + b == a;
    } else {
      NewlinesAppend(a, b[..|b| - 1]);
      assert (a + b)[..|a + b| - 1] == a + b[..|b| - 1];
    }
  }

  lemma {:induction false} NewlinesNone(b: bytes)
    requires NEWLINE !in b
    ensures Newlines(b) == 0
  {
    if b != [] {
      NewlinesNone(b[..|b| - 1]);
    }
  }

  lemma {:induction false} NewlinesOfLines(lines: seq<bytes>)
    requires AllLines(lines)
    ensures Newlines(Flatten(lines)) == |lines|
  {
    if lines != [] {
      var line := lines[0];
      NewlinesOfLines(lines[1..]);
      NewlinesAppend(line, Flatten(lines[1..]));
      NewlinesNone(line[..|line| - 1]);
    }
  }

  /** The position in an error is that of the first bad framed line, counted on the bytes of the file. */
  lemma {:induction false} ErrorPosition(b: bytes)
    requires Read(Some(b)).error.Some?
    ensures var e := Read(Some(b)).error.value;
            && e.offset < |b| && e.line >= 1
            && Newlines(b[..e.offset]) == e.line - 1 == |Read(Some(b)).yielded|
            && (e.offset > 0 ==> b[e.offset - 1] == NEWLINE)
            && FindNewline(b, e.offset) < |b|
            && e.reason == DecodeLine(b[e.offset..FindNewline(b, e.offset)])
            && !e.reason.Object?
            && !Read(Some(b)).truncated
  {
    hide DecodeLine, Newlines, Split, Flatten;
    var (lines, tail) := Split(b);
    SplitJoins(b);
    BadLineAt(b, lines, GoodLines(lines), tail);
  }

  lemma {:induction false} BadLineAt(b: bytes, lines: seq<bytes>, n: nat, tail: bytes)
    requires b == Flatten(lines) + tail && AllLines(lines) && n < |lines|
    ensures var offset := |Flatten(lines[..n])|;
            && offset < |b| && Newlines(b[..offset]) == n
            && (offset > 0 ==> b[offset - 1] == NEWLINE)
            && FindNewline(b, offset) < |b| && b[offset..FindNewline(b, offset)] == Body(lines[n])
  {
    hide Newlines;
    var before, line := lines[..n], lines[n];
    NewlinesOfLines(before);
    FlattenAppend(before, lines[n..]);
    assert lines == before + lines[n..];
    FlattenCons(line, lines[n + 1..]);
    assert lines[n..] == [line] + lines[n + 1..];
    BadLineBytes(b, Flatten(before), line, Flatten(lines[n + 1..]) + tail);
    LastByte(before);
  }

  lemma {:induction false} LastByte(lines: seq<bytes>)
    requires AllLines(lines)
    ensures Flatten(lines) != [] ==> Flatten(lines)[|Flatten(lines)| - 1] == NEWLINE
  {
    if lines != [] {
      LastByte(lines[1..]);
    }
  }

  lemma {:induction false} BadLineBytes(b: bytes, before: bytes, line: bytes, after: bytes)
    requires b == before + line + after && IsLine(line)
    ensures FindNewline(b, |before|) == |before| + |line| - 1
    ensures b[..|before|] == before && b[|before|..FindNewline(b, |before|)] == Body(line)
  {
    var n := |before| + |line| - 1;
    assert b[n] == NEWLINE;
    assert forall k :: |before| <= k < n ==> b[k] == line[k - |before|] != NEWLINE;
    assert FindNewline(b, |before|) == n;
  }

  /** What binary iteration gives next: a line with its newline, or the unterminated rest. */
  function NextChunk(b: bytes, offset: nat): (raw: bytes)
    requires offset < |b|
    ensures raw != [] && offset + |raw| <= |b| && raw == b[offset..offset + |raw|]
    ensures raw[|raw| - 1] == NEWLINE ==> IsLine(raw)
    ensures raw[|raw| - 1] != NEWLINE ==> NEWLINE !in b[offset..]
  {
    var n := FindNewline(b, offset);
    if n < |b| then b[offset..n + 1] else b[offset..]
  }

  /** The state of an iteration that has consumed the good lines `done` of `b`. */
  ghost predicate Consumed(b: bytes, offset: nat, done: seq<bytes>) {
    offset <= |b| && AllLines(done) && AllGood(done) && Flatten(done) == b[..offset]
  }

  lemma {:induction false} ConsumedAtStart(b: bytes)
    ensures Consumed(b, 0, [])
  {
  }

  lemma {:induction false} ConsumeLine(b: bytes, offset: nat, done: seq<bytes>, line: bytes)
    requires Consumed(b, offset, done) && IsLine(line) && IsGood(line)
    requires offset + |line| <= |b| && line == b[offset..offset + |line|]
    ensures Consumed(b, offset + |line|, done + [line])
  {
    hide IsGood, IsLine;
    FlattenSnoc(done, line);
    assert b[..offset] + line == b[..offset + |line|];
  }

  lemma {:induction false} ReadAtEnd(b: bytes, offset: nat, done: seq<bytes>)
    requires Consumed(b, offset, done) && NEWLINE !in b[offset..]
    ensures Read(Some(b)) == Reading(MappingsOf(done), None, offset < |b|)
  {
    ReadGood(done, b[offset..]);
    assert Flatten(done) + b[offset..] == b;
  }

  lemma {:induction false} ReadAtBadLine(b: bytes, offset: nat, done: seq<bytes>, line: bytes)
    requires Consumed(b, offset, done) && IsLine(line) && !IsGood(line)
    requires offset + |line| <= |b| && line == b[offset..offset + |line|]
    ensures Read(Some(b)) ==
            Reading(MappingsOf(done), Some(ReadError(DecodeLine(Body(line)), |done| + 1, offset)), false)
  {
    hide Split, Flatten, IsLine, DecodeLine;
    var rest := b[offset + |line|..];
    var more := Split(rest).0;
    SplitFirst(line, rest);
    SplitOf(done, line + rest);
    assert b == Flatten(done) + (line + rest);
    GoodPrefix(done, [line] + more);
    assert (done + ([line] + more))[..|done|] == done;
  }

  // ---- what a line has to be ------------------------------------------------

  /** The bytes are the UTF-8 form of this text. */
  ghost predicate IsUtf8(body: bytes, t: Text) {
    Utf8.Encodable(t) && body == Utf8.Encode(t)
  }

  /** The bytes are the UTF-8 form of a JSON text of `j`: of the whole of it, and of nothing else. */
  ghost predicate Holds(body: bytes, j: Json) {
    exists t :: IsUtf8(body, t) && IsText(t, j)
  }

  /** Why a line is refused: it is not UTF-8, or no JSON text, or a JSON text of something that is no object. */
  ghost predicate Damaged(body: bytes, reason: Verdict) {
    match reason
    case Undecodable => forall t :: !IsUtf8(body, t)
    case Corrupt => (exists t :: IsUtf8(body, t)) && forall j :: !Holds(body, j)
    case NonObject => exists j :: Holds(body, j) && !j.JObj?
    case Object(_) => false
  }

  lemma {:induction false} DecodesOneText(body: bytes, t: Text)
    requires IsUtf8(body, t)
    ensures Utf8.Decode(body) == Some(t)
  {
    Utf8.DecodeEncode(t);
  }

  lemma {:induction false} HoldsLoaded(body: bytes, t: Text, j: Json)
    requires IsUtf8(body, t)
    ensures Holds(body, j) <==> Loads(t) == Some(j)
  {
    hide IsText, Loads, IsUtf8;
    LoadsExactly(t, j);
    if Holds(body, j) {
      var u :| IsUtf8(body, u) && IsText(u, j);
      DecodesOneText(body, t);
      DecodesOneText(body, u);
    }
  }

  /** A line is read as an object exactly if it holds the JSON text of that object; any other is refused for what is
      wrong with it. */
  lemma {:induction false} LineExactly(body: bytes)
    ensures forall m :: DecodeLine(body) == Object(m) <==> Holds(body, JObj(m))
    ensures !DecodeLine(body).Object? ==> Damaged(body, DecodeLine(body))
  {
    hide Loads, Holds, IsUtf8;
    if Utf8.Decode(body).None? {
      forall t ensures !IsUtf8(body, t) {
        if IsUtf8(body, t) { DecodesOneText(body, t); }
      }
      forall j ensures !Holds(body, j) {
        HoldsSomeText(body, j);
      }
    } else {
      var t := Utf8.Decode(body).value;
      DecodedIsUtf8(body);
      forall j ensures Holds(body, j) <==> Loads(t) == Some(j) {
        HoldsLoaded(body, t, j);
      }
    }
  }

  lemma {:induction false} DecodedIsUtf8(body: bytes)
    requires Utf8.Decode(body).Some?
    ensures IsUtf8(body, Utf8.Decode(body).value)
  {
    Utf8.EncodeDecode(body);
  }

  lemma {:induction false} HoldsSomeText(body: bytes, j: Json)
    ensures Holds(body, j) ==> exists t :: IsUtf8(body, t)
  {
  }

  /** A line of nothing but white space, the empty one included, is corrupt. */
  lemma {:induction false} BlankLineIsCorrupt(t: Text)
    requires Blank(t)
    ensures DecodeLine(Utf8.Encode(t)) == Corrupt
  {
    Utf8.DecodeEncode(t);
    GapSkipped(t, []);
    assert t + [] == t;
  }

  /** A value with anything but white space after it is corrupt: two records on one line are never read as one. */
  lemma {:induction false} NothingMayFollow(before: Text, tree: Tree, rest: Text)
    requires Blank(before) && TreeOk(tree) && Ends(tree, rest) && !Blank(rest)
    requires Utf8.Encodable(before + Then(tree, rest))
    ensures DecodeLine(Utf8.Encode(before + Then(tree, rest))) == Corrupt
  {
    hide Loads, TreeOk, Then, Blank, Ends;
    Utf8.DecodeEncode(before + Then(tree, rest));
    LoadsOf(before, tree, rest);
  }

  /** What one pass makes of a file, line by line. */
  ghost predicate ReadsTexts(b: bytes, yielded: seq<Mapping>, error: Option<ReadError>) {
    var lines := Split(b).0;
    && |yielded| <= |lines| && AllLines(lines)
    && (forall i :: 0 <= i < |yielded| ==> Holds(Body(lines[i]), JObj(yielded[i])))
    && (error.None? <==> |yielded| == |lines|)
    && (error.Some? ==> Damaged(Body(lines[|yielded|]), error.value.reason))
  }

  lemma {:induction false} ReadExactly(b: bytes)
    ensures ReadsTexts(b, Read(Some(b)).yielded, Read(Some(b)).error)
  {
    hide Holds, Damaged, DecodeLine, Split, Flatten;
    SplitJoins(b);
    var lines := Split(b).0;
    var r := Read(Some(b));
    forall i | 0 <= i < |r.yielded| ensures Holds(Body(lines[i]), JObj(r.yielded[i])) {
      LineExactly(Body(lines[i]));
      assert lines[i] == lines[..|r.yielded|][i];
    }
    if r.error.Some? {
      LineExactly(Body(lines[|r.yielded|]));
    }
  }

  lemma {:induction false} ReadMissing()
    ensures Read(None) == Reading([], None, false)
  {
  }

  class JsonlReader {
    var truncated: bool

    constructor ()
      ensures !truncated
    {
      truncated := false;
    }

    /** One pass over the file content; None is a missing file. */
    method Iterate(content: Option<bytes>) returns (yielded: seq<Mapping>, error: Option<ReadError>)
      modifies this
      ensures Read(content) == Reading(yielded, error, truncated)
      ensures content.Some? ==> ReadsTexts(content.value, yielded, error)
    {
      hide DecodeLine, Read, Consumed, Flatten, FindNewline, NextChunk, ReadsTexts;
      truncated := false;
      yielded, error := [], None;
      if content.None? {
        ReadMissing();
        return;
      }
      var b := content.value;
      ReadExactly(b);
      var offset, lineno := 0, 0;
      ghost var done: seq<bytes> := [];
      ConsumedAtStart(b);
      while offset < |b|
        invariant offset <= |b| && lineno == |done|
        invariant Consumed(b, offset, done) && AllGood(done) && yielded == MappingsOf(done)
        invariant !truncated && error.None?
      {
        var raw := NextChunk(b, offset);
        lineno := lineno + 1;
        var lineStart := offset;
        offset := offset + |raw|;
        if raw[|raw| - 1] != NEWLINE {
          truncated := true;
          ReadAtEnd(b, lineStart, done);
          return;
        }
        var verdict := DecodeLine(Body(raw));
        if !verdict.Object? {
          ReadAtBadLine(b, lineStart, done, raw);
          error := Some(ReadError(verdict, lineno, lineStart));
          return;
        }
        ConsumeLine(b, lineStart, done, raw);
        done := done + [raw];
        yielded := yielded + [verdict.mapping];
      }
      ReadAtEnd(b, offset, done);
    }
  }
}
