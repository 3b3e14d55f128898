/** The grammars of event ids and of actors, written out as the source documents them, and that the checks accept
    exactly these. */
module Grammars {
  import opened Basics
  import opened Records
  import opened Events

  // ---- event ids --------------------------------------------------------------

  /** The parts with `mark` between each two. */
  function Joined(parts: seq<Text>, mark: CodePoint): (t: Text) {
    if parts == [] then []
    else if |parts| == 1 then parts[0]
    else parts[0] + [mark] + Joined(parts[1..], mark)
  }

  predicate Letter(c: CodePoint) {
    'a' as int <= c <= 'z' as int
  }

  predicate LetterOrDigit(c: CodePoint) {
    Letter(c) || '0' as int <= c <= '9' as int
  }

  /** One or more letters and digits. */
  predicate Alphanumeric(t: Text) {
    t != [] && forall i :: 0 <= i < |t| ==> LetterOrDigit(t[i])
  }

  ghost predicate AllAlphanumeric(parts: seq<Text>) {
    parts != [] && forall i :: 0 <= i < |parts| ==> Alphanumeric(parts[i])
  }

  /** Groups of letters and digits with single underscores between them. */
  ghost predicate Underscored(t: Text) {
    exists parts :: AllAlphanumeric(parts) && t == Joined(parts, '_' as int)
  }

  /** The same, with a letter first. */
  ghost predicate Segment(t: Text) {
    Underscored(t) && t != [] && Letter(t[0])
  }

  ghost predicate AllSegments(segments: seq<Text>) {
    forall i :: 0 <= i < |segments| ==> Segment(segments[i])
  }

  /** Segments with dots between them, as many as given. */
  ghost predicate Dotted(e: Text, segments: seq<Text>) {
    segments != [] && AllSegments(segments) && e == Joined(segments, '.' as int)
  }

  /** What the character check asks of a text, from its first character on. */
  predicate Placed(t: Text) {
    t != [] && forall i :: 0 <= i < |t| ==> EventIdCharOk(t, i)
  }

  /** Where `mark` first stands. */
  function First(t: Text, mark: CodePoint): (k: nat)
    ensures k <= |t| && mark !in t[..k] && (k < |t| ==> t[k] == mark)
  {
    if t == [] || t[0] == mark then 0
    else
      var k := First(t[1..], mark);
      assert t[..k + 1] == [t[0]] + t[1..][..k];
      k + 1
  }

  lemma {:induction false} PlacedParts(a: Text, mark: CodePoint, b: Text)
    requires a != [] && b != []
    requires mark == UNDERSCORE || mark == DOT
    ensures Placed(a + [mark] + b) <==>
              Placed(a) && Placed(b) && (if mark == DOT then IsLower(b[0]) else IsLowerOrDigit(b[0]))
  {
    var t := a + [mark] + b;
    assert t[|a|] == mark && t[|a| + 1] == b[0];
    if Placed(t) {
      forall i | 0 <= i < |a| ensures EventIdCharOk(a, i) {
        assert EventIdCharOk(t, i);
        assert i + 1 < |a| ==> t[i + 1] == a[i + 1];
      }
      forall i | 0 <= i < |b| ensures EventIdCharOk(b, i) {
        assert EventIdCharOk(t, |a| + 1 + i);
        assert i + 1 < |b| ==> t[|a| + 2 + i] == b[i + 1];
      }
      assert EventIdCharOk(t, |a|);
    }
    if Placed(a) && Placed(b) && (if mark == DOT then IsLower(b[0]) else IsLowerOrDigit(b[0])) {
      forall i | 0 <= i < |t| ensures EventIdCharOk(t, i) {
        if i < |a| {
          assert EventIdCharOk(a, i);
          assert i + 1 < |a| ==> t[i + 1] == a[i + 1];
        } else if i > |a| {
          assert EventIdCharOk(b, i - |a| - 1);
          assert i + 1 < |t| ==> t[i + 1] == b[i - |a|];
        }
      }
    }
  }

  lemma {:induction false} PlainPlaced(t: Text)
    requires t != [] && UNDERSCORE !in t && DOT !in t
    ensures Placed(t) <==> Alphanumeric(t)
  {
    if Placed(t) {
      forall i | 0 <= i < |t| ensures LetterOrDigit(t[i]) {
        assert EventIdCharOk(t, i);
      }
    }
    if Alphanumeric(t) {
      forall i | 0 <= i < |t| ensures EventIdCharOk(t, i) {
        assert LetterOrDigit(t[i]);
      }
    }
  }

  /** A text is cut at the first mark in it. */
  lemma {:induction false} CutAt(t: Text, mark: CodePoint) returns (a: Text, b: Text)
    requires mark in t
    ensures t == a + [mark] + b && mark !in a
  {
    var k := First(t, mark);
    assert k < |t|;
    a, b := t[..k], t[k + 1..];
  }

  lemma {:induction false} PlacedEnds(a: Text, mark: CodePoint, b: Text)
    requires Placed(a + [mark] + b) && (mark == UNDERSCORE || mark == DOT) && a != []
    ensures b != []
  {
    assert EventIdCharOk(a + [mark] + b, |a|);
  }

  lemma {:induction false} PlacedUnderscored(t: Text)
    requires Placed(t) && IsLowerOrDigit(t[0]) && DOT !in t
    ensures Underscored(t)
    decreases |t|
  {
    hide Placed, EventIdCharOk, Alphanumeric;
    if UNDERSCORE in t {
      var a, b := CutAt(t, UNDERSCORE);
      assert t[0] != UNDERSCORE;
      assert a != [];
      PlacedEnds(a, UNDERSCORE, b);
      PlacedParts(a, UNDERSCORE, b);
      PlainPlaced(a);
      PlacedUnderscored(b);
      var parts :| AllAlphanumeric(parts) && b == Joined(parts, '_' as int);
      assert ([a] + parts)[1..] == parts;
      assert AllAlphanumeric([a] + parts) && t == Joined([a] + parts, '_' as int);
    } else {
      PlacedIsSome(t);
      PlainPlaced(t);
      assert AllAlphanumeric([t]) && t == Joined([t], '_' as int);
    }
  }

  lemma {:induction false} UnderscoredPlaced(parts: seq<Text>)
    requires AllAlphanumeric(parts)
    ensures var t := Joined(parts, '_' as int); Placed(t) && IsLowerOrDigit(t[0]) && DOT !in t
  {
    hide Placed, EventIdCharOk;
    AlphanumericPlain(parts[0]);
    PlainPlaced(parts[0]);
    if |parts| > 1 {
      UnderscoredPlaced(parts[1..]);
      PlacedIsSome(Joined(parts[1..], '_' as int));
      PlacedParts(parts[0], UNDERSCORE, Joined(parts[1..], '_' as int));
    }
  }

  lemma {:induction false} PlacedIsSome(t: Text)
    requires Placed(t)
    ensures t != []
  {
  }

  lemma {:induction false} AlphanumericPlain(t: Text)
    requires Alphanumeric(t)
    ensures UNDERSCORE !in t && DOT !in t && t != [] && IsLowerOrDigit(t[0])
  {
  }

  lemma {:induction false} SegmentPlaced(t: Text)
    ensures Segment(t) <==> Placed(t) && IsLower(t[0]) && DOT !in t
  {
    hide Placed, EventIdCharOk;
    if Segment(t) {
      var parts :| AllAlphanumeric(parts) && t == Joined(parts, '_' as int);
      UnderscoredPlaced(parts);
    }
    if Placed(t) {
      PlacedIsSome(t);
      if IsLower(t[0]) && DOT !in t {
        PlacedUnderscored(t);
      }
    }
  }

  lemma {:induction false} PlacedDotted(t: Text) returns (segments: seq<Text>)
    requires Placed(t) && IsLower(t[0])
    ensures Dotted(t, segments) && (DOT in t <==> |segments| >= 2)
    decreases |t|
  {
    hide Placed, EventIdCharOk, Segment;
    if DOT in t {
      var a, b := CutAt(t, DOT);
      assert t[0] != DOT;
      assert a != [];
      PlacedEnds(a, DOT, b);
      PlacedParts(a, DOT, b);
      assert a[0] == t[0];
      SegmentPlaced(a);
      var more := PlacedDotted(b);
      segments := [a] + more;
      assert segments[1..] == more;
    } else {
      SegmentPlaced(t);
      segments := [t];
    }
  }

  lemma {:induction false} DottedPlaced(t: Text, segments: seq<Text>)
    requires Dotted(t, segments)
    ensures Placed(t) && IsLower(t[0]) && (DOT in t <==> |segments| >= 2)
    decreases |segments|
  {
    hide Placed, EventIdCharOk, Segment;
    SegmentPlaced(segments[0]);
    PlacedIsSome(segments[0]);
    if |segments| > 1 {
      var more := Joined(segments[1..], '.' as int);
      DottedPlaced(more, segments[1..]);
      PlacedIsSome(more);
      PlacedParts(segments[0], DOT, more);
      assert t[|segments[0]|] == DOT;
    }
  }

  /** An event id is accepted exactly if it has at most 128 characters and is two or more segments with dots between
      them, each of groups of lower-case letters and digits with single underscores between them, a letter first. */
  lemma {:induction false} EventIdExactly(e: Text)
    ensures EventIdOk(e) <==> |e| <= 128 && exists segments :: |segments| >= 2 && Dotted(e, segments)
  {
    hide Dotted, EventIdCharOk;
    if EventIdOk(e) {
      var segments := PlacedDotted(e);
      assert |segments| >= 2 && Dotted(e, segments);
    }
    if |e| <= 128 && exists segments :: |segments| >= 2 && Dotted(e, segments) {
      var segments :| |segments| >= 2 && Dotted(e, segments);
      DottedPlaced(e, segments);
    }
  }

  // ---- actors -------------------------------------------------------------------

  predicate AllSpace(t: Text) {
    forall i :: 0 <= i < |t| ==> IsPySpace(t[i])
  }

  /** `core` is what is left of `t` without the white space around it. */
  ghost predicate Stripped(t: Text, core: Text) {
    exists before, after :: AllSpace(before) && AllSpace(after) && t == before + core + after && Trim(core)
  }

  predicate Trim(core: Text) {
    core == [] || (!IsPySpace(core[0]) && !IsPySpace(core[|core| - 1]))
  }

  lemma {:induction false} StripLeftSays(t: Text) returns (before: Text)
    ensures AllSpace(before) && t == before + StripLeft(t)
    ensures StripLeft(t) == [] || !IsPySpace(StripLeft(t)[0])
    decreases |t|
  {
    if t != [] && IsPySpace(t[0]) {
      var more := StripLeftSays(t[1..]);
      before := [t[0]] + more;
    } else {
      before := [];
    }
  }

  lemma {:induction false} StripRightSays(t: Text) returns (after: Text)
    ensures AllSpace(after) && t == StripRight(t) + after
    ensures StripRight(t) == [] || !IsPySpace(StripRight(t)[|StripRight(t)| - 1])
    decreases |t|
  {
    if t != [] && IsPySpace(t[|t| - 1]) {
      var more := StripRightSays(t[..|t| - 1]);
      after := more + [t[|t| - 1]];
    } else {
      after := [];
    }
  }

  lemma {:induction false} StripSays(t: Text)
    ensures Stripped(t, Strip(t))
  {
    hide IsPySpace, StripLeft, StripRight;
    var before := StripLeftSays(t);
    var after := StripRightSays(StripLeft(t));
    assert t == before + Strip(t) + after;
    if Strip(t) != [] {
      assert Strip(t)[0] == StripLeft(t)[0];
    }
  }

  /** In either case. */
  predicate Spelt(c: CodePoint, letter: char)
    requires 'a' <= letter <= 'z'
  {
    c == letter as int || c == letter as int - 0x20
  }

  /** The long s folds to the same letter. */
  predicate SpeltS(c: CodePoint) {
    Spelt(c, 's') || c == 0x17F
  }

  /** The two ligatures of s and t. */
  predicate LigatureST(c: CodePoint) {
    c == 0xFB05 || c == 0xFB06
  }

  /** The word, in any case. */
  predicate SpeltAs(t: Text, word: string)
    requires PlainWord(word)
  {
    |t| == |word| && forall i :: 0 <= i < |t| ==> Spelt(t[i], word[i])
  }

  /** A word on whose letters case folding does nothing unusual. */
  predicate PlainWord(word: string) {
    forall i :: 0 <= i < |word| ==> 'a' <= word[i] <= 'z' && word[i] != 's'
  }

  /** `system`, in any case, with any of the characters that fold to s or st. */
  predicate SpeltSystem(t: Text) {
    && |t| >= 5 && SpeltS(t[0]) && Spelt(t[1], 'y')
    && ((SpeltS(t[2]) && SpeltAs(t[3..], "tem")) || (LigatureST(t[2]) && SpeltAs(t[3..], "em")))
  }

  /** No accountable identity: a dash, or one of three words in any case. */
  predicate NoIdentity(core: Text) {
    core == [0x2D] || SpeltAs(core, "none") || SpeltAs(core, "null") || SpeltSystem(core)
  }

  /** What one character folds to. */
  function Folded(c: CodePoint): (t: Text)
    ensures t != []
  {
    if 0x41 <= c <= 0x5A then [c + 0x20]
    else if c == 0x17F then [0x73]
    else if c == 0xFB05 || c == 0xFB06 then [0x73, 0x74]
    else [c]
  }

  lemma {:induction false} FoldHead(t: Text)
    requires t != []
    ensures CaseFold(t) == Folded(t[0]) + CaseFold(t[1..])
  {
    assert Lit("s") == [0x73];
    assert Lit("st") == [0x73, 0x74];
  }

  lemma {:induction false} SameHead(c: CodePoint, a: Text, d: CodePoint, b: Text)
    ensures [c] + a == [d] + b <==> c == d && a == b
  {
    assert ([c] + a)[1..] == a && ([d] + b)[1..] == b;
    assert ([c] + a)[0] == c && ([d] + b)[0] == d;
  }

  /** A text that folds to a character other than s and then `w`. */
  lemma {:induction false} FoldStep(t: Text, c: CodePoint, w: Text)
    requires ('a' as int <= c <= 'z' as int && c != 's' as int) || c == 0x2D
    ensures CaseFold(t) == [c] + w <==>
              t != [] && (t[0] == c || ('A' as int <= t[0] <= 'Z' as int && t[0] + 0x20 == c)) && CaseFold(t[1..]) == w
  {
    if t != [] {
      FoldHead(t);
      var f := CaseFold(t[1..]);
      hide CaseFold;
      if LigatureST(t[0]) {
        assert [0x73, 0x74] + f == [0x73] + ([0x74] + f);
        SameHead(0x73, [0x74] + f, c, w);
      } else {
        SameHead(Folded(t[0])[0], f, c, w);
      }
    }
  }

  lemma {:induction false} FoldStepS(t: Text, w: Text)
    ensures CaseFold(t) == [0x73] + w <==>
              t != [] && if LigatureST(t[0]) then [0x74] + CaseFold(t[1..]) == w
                         else SpeltS(t[0]) && CaseFold(t[1..]) == w
  {
    if t != [] {
      FoldHead(t);
      var f := CaseFold(t[1..]);
      hide CaseFold;
      if LigatureST(t[0]) {
        assert [0x73, 0x74] + f == [0x73] + ([0x74] + f);
        SameHead(0x73, [0x74] + f, 0x73, w);
      } else {
        SameHead(Folded(t[0])[0], f, 0x73, w);
      }
    }
  }

  lemma {:induction false} FoldNothing(t: Text)
    ensures CaseFold(t) == [] <==> t == []
  {
    if t != [] {
      FoldHead(t);
    }
  }

  lemma {:induction false} FoldWord(t: Text, word: string)
    requires PlainWord(word)
    ensures CaseFold(t) == Lit(word) <==> SpeltAs(t, word)
    decreases |word|
  {
    if word == [] {
      FoldNothing(t);
      assert Lit(word) == [];
    } else {
      var w := word[1..];
      assert Lit(word) == [word[0] as int] + Lit(w);
      FoldStep(t, word[0] as int, Lit(w));
      if t != [] {
        FoldWord(t[1..], w);
        hide CaseFold, Lit;
        SpeltHead(t, word);
      }
    }
  }

  lemma {:induction false} SpeltHead(t: Text, word: string)
    requires t != [] && word != [] && PlainWord(word)
    ensures SpeltAs(t, word) <==> Spelt(t[0], word[0]) && SpeltAs(t[1..], word[1..])
  {
    if Spelt(t[0], word[0]) && SpeltAs(t[1..], word[1..]) {
      forall i | 0 <= i < |t| ensures Spelt(t[i], word[i]) {
        if i > 0 {
          assert t[i] == t[1..][i - 1] && word[i] == word[1..][i - 1];
        }
      }
    }
    if SpeltAs(t, word) {
      forall i | 0 <= i < |t[1..]| ensures Spelt(t[1..][i], word[1..][i]) {
        assert t[i + 1] == t[1..][i] && word[i + 1] == word[1..][i];
      }
    }
  }

  lemma {:induction false} FoldSystem(t: Text)
    ensures CaseFold(t) == Lit("system") <==> SpeltSystem(t)
  {
    var tem, em := Lit("tem"), Lit("em");
    assert Lit("system") == [0x73] + ([0x79] + ([0x73] + tem));
    assert tem == [0x74] + em;
    FoldStepS(t, [0x79] + ([0x73] + tem));
    if t != [] {
      var u := t[1..];
      hide CaseFold, Lit;
      SameHead(0x74, CaseFold(u), 0x79, [0x73] + tem);
      FoldStep(u, 0x79, [0x73] + tem);
      if u != [] {
        var v := u[1..];
        FoldStepS(v, tem);
        if v != [] {
          FoldWord(v[1..], "tem");
          FoldWord(v[1..], "em");
          SameHead(0x74, CaseFold(v[1..]), 0x74, em);
          assert v[1..] == t[3..] && v[0] == t[2] && u[0] == t[1];
        }
      }
    }
  }

  lemma {:induction false} FoldsToPlaceholder(core: Text)
    ensures NoIdentity(core) <==> CaseFold(core) in {Lit("system"), Lit("none"), Lit("null"), Lit("-")}
  {
    FoldWord(core, "none");
    FoldWord(core, "null");
    FoldSystem(core);
    assert Lit("-") == [0x2D] + [];
    FoldStep(core, 0x2D, []);
    if core != [] {
      FoldNothing(core[1..]);
    }
    hide CaseFold, Lit;
  }

  lemma {:induction false} LeftStripped(before: Text, t: Text)
    requires AllSpace(before) && (t == [] || !IsPySpace(t[0]))
    ensures StripLeft(before + t) == t
  {
    hide IsPySpace;
    if before == [] {
      assert before + t == t;
    } else {
      LeftStripped(before[1..], t);
      assert (before + t)[1..] == before[1..] + t;
    }
  }

  lemma {:induction false} RightStripped(t: Text, after: Text)
    requires AllSpace(after) && (t == [] || !IsPySpace(t[|t| - 1]))
    ensures StripRight(t + after) == t
  {
    hide IsPySpace;
    if after == [] {
      assert t + after == t;
    } else {
      var n := |after| - 1;
      RightStripped(t, after[..n]);
      assert (t + after)[..|t| + n] == t + after[..n];
      assert (t + after)[|t| + n] == after[n];
    }
  }

  lemma {:induction false} NothingRight()
    ensures StripRight([]) == []
  {
  }

  /** Only one text is what is left without the white space around. */
  lemma {:induction false} StrippedOnce(t: Text, core: Text)
    requires Stripped(t, core)
    ensures core == Strip(t)
  {
    hide IsPySpace, StripLeft, StripRight;
    var before, after :| AllSpace(before) && AllSpace(after) && t == before + core + after && Trim(core);
    if core == [] {
      assert t == (before + after) + [];
      LeftStripped(before + after, []);
      assert StripRight([]) == [] by { NothingRight(); }
    } else {
      assert t == before + (core + after);
      LeftStripped(before, core + after);
      RightStripped(core, after);
    }
  }

  lemma {:induction false} NothingLeft(t: Text)
    ensures Strip(t) == [] <==> AllSpace(t)
  {
    hide IsPySpace, Strip;
    StripSays(t);
    if Strip(t) == [] {
      var before, after :| AllSpace(before) && AllSpace(after) && t == before + Strip(t) + after && Trim(Strip(t));
    }
    if AllSpace(t) {
      assert t == t + [] + [];
      assert AllSpace([]) && Trim([]);
      assert Stripped(t, []);
      StrippedOnce(t, []);
    }
  }

  /** The actor names somebody: something is left without the white space around it, it is no placeholder, and it is not
      shaped like an encrypted envelope. */
  ghost predicate Accountable(actor: Text) {
    && (exists core :: Stripped(actor, core) && core != [] && !NoIdentity(core))
    && !EnvelopeShaped(actor)
  }

  /** An actor is accepted exactly if it is accountable. */
  lemma {:induction false} ActorExactly(actor: Text)
    ensures ActorOk(actor) <==> Accountable(actor)
  {
    StripSays(actor);
    FoldsToPlaceholder(Strip(actor));
    EnvelopeIff(actor);
    hide Strip, CaseFold, Lit, NoIdentity, LooksLikeEncEnvelope, Stripped, EnvelopeShaped;
    if Accountable(actor) {
      var core :| Stripped(actor, core) && core != [] && !NoIdentity(core);
      StrippedOnce(actor, core);
    }
  }
}
