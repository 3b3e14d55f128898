/** What the reader returns from a file written by the framed log, before and after a crash. */
module ReadBack {
  import opened Basics
  import opened Framing
  import opened Records
  import opened LineCodec
  import opened FramedLog
  import opened Reader

  /** The file before the process started: whole lines that hold JSON objects. */
  ghost predicate WellFramed(init: seq<bytes>) {
    AllLines(init) && AllGood(init)
  }

  /** `m` is the canonical mapping of `record`. */
  ghost predicate ReadsAs(record: Record, m: Reader.Mapping) {
    Constructible(record) && m == LineCodec.Mapping(record)
  }

  lemma {:induction false} EncodedIsGood(record: Record, line: bytes)
    requires Encodes(record, line)
    ensures IsGood(line) && IsLine(line) && ReadsAs(record, MappingOf(line))
  {
    LineRoundTrip(record);
  }

  lemma {:induction false} FramedOk(h: seq<Attempt>)
    requires Tidy(h)
    ensures forall i :: 0 <= i < |Framed(h)| ==> AttemptOk(Framed(h)[i]) && IsFramed(Framed(h)[i])
  {
    hide AttemptOk;
    if h != [] {
      FramedOk(h[..|h| - 1]);
    }
  }

  lemma {:induction false} WholeLinesGood(s: State, init: bytes)
    requires Inv(s, init)
    ensures AllLines(WholeLines(s)) && AllGood(WholeLines(s))
  {
    hide Encodes, IsGood, Written, HasPartial, Framed, AckedEnd, Tidy, IsLine;
    FramedOk(s.history);
    FileShape(s, init);
    forall i | 0 <= i < |WholeLines(s)| ensures IsGood(WholeLines(s)[i]) {
      if i < |Framed(s.history)| {
        var a := Framed(s.history)[i];
        assert AttemptOk(a);
        EncodedIsGood(a.record, a.line);
      } else {
        assert PhaseOk(s, s.lock.value);
        EncodedIsGood(PhaseOf(s, s.lock.value).record, PhaseOf(s, s.lock.value).line);
      }
    }
  }

  /** The file is a run of good lines and a newline-free tail. */
  lemma {:induction false} FileLines(s: State, init: seq<bytes>)
    requires WellFramed(init) && Inv(s, Flatten(init))
    ensures s.file == Flatten(init + WholeLines(s)) + TornTail(s)
    ensures AllLines(init + WholeLines(s)) && AllGood(init + WholeLines(s)) && NEWLINE !in TornTail(s)
  {
    hide Inv, Flatten, IsGood, IsLine, WholeLines, TornTail;
    FileShape(s, Flatten(init));
    WholeLinesGood(s, Flatten(init));
    FlattenAppend(init, WholeLines(s));
  }

  /** Reading at any moment of any run: exactly the whole lines, in order, and no error. */
  lemma {:induction false} ReadsWholeLines(s: State, init: seq<bytes>)
    requires WellFramed(init) && Inv(s, Flatten(init))
    ensures AllGood(init) && AllGood(WholeLines(s))
    ensures Read(Some(s.file)) ==
            Reading(MappingsOf(init) + MappingsOf(WholeLines(s)), None, TornTail(s) != [])
  {
    hide Inv, Flatten, IsGood, IsLine, WholeLines, TornTail, Read;
    FileLines(s, init);
    ReadGood(init + WholeLines(s), TornTail(s));
    assert forall i :: 0 <= i < |WholeLines(s)| ==> (init + WholeLines(s))[|init| + i] == WholeLines(s)[i];
    assert MappingsOf(init + WholeLines(s)) == MappingsOf(init) + MappingsOf(WholeLines(s));
  }

  /** `ms` are the mappings of these attempts' records, in order. */
  ghost predicate ReadAsAttempts(h: seq<Attempt>, ms: seq<Reader.Mapping>) {
    |ms| == |h| && forall i :: 0 <= i < |h| ==> ReadsAs(h[i].record, ms[i])
  }

  lemma {:induction false} FramedMappings(h: seq<Attempt>)
    requires Tidy(h)
    ensures AllGood(LinesOf(Framed(h))) && ReadAsAttempts(Framed(h), MappingsOf(LinesOf(Framed(h))))
  {
    hide Encodes, IsGood, Framed, Tidy, MappingOf, ReadsAs, IsLine;
    FramedOk(h);
    forall i | 0 <= i < |Framed(h)|
      ensures IsGood(LinesOf(Framed(h))[i])
      ensures ReadsAs(Framed(h)[i].record, MappingOf(LinesOf(Framed(h))[i]))
    {
      assert AttemptOk(Framed(h)[i]);
      EncodedIsGood(Framed(h)[i].record, Framed(h)[i].line);
    }
  }

  /** With no writer in its critical section the reader yields exactly the COMPLETE and SYNC_FAILED records, and
      reports a torn tail exactly when the stream is latched: a PARTIAL record is never yielded. */
  lemma {:induction false} ExactReadBack(s: State, init: seq<bytes>)
    requires WellFramed(init) && Inv(s, Flatten(init)) && s.lock.None?
    ensures AllGood(init)
    ensures var got := Read(Some(s.file));
            && got.error.None?
            && got.truncated == s.latched
            && |got.yielded| >= |init|
            && got.yielded[..|init|] == MappingsOf(init)
            && ReadAsAttempts(Framed(s.history), got.yielded[|init|..])
  {
    ReadsWholeLines(s, init);
    FileShape(s, Flatten(init));
    hide Flatten, IsGood, IsLine, Read, Framed, Written, TornTail, PhaseOk, HasPartial, ReadAsAttempts, MappingOf;
    assert WholeLines(s) == LinesOf(Framed(s.history));
    FramedMappings(s.history);
    var m := MappingsOf(WholeLines(s));
    assert (MappingsOf(init) + m)[..|init|] == MappingsOf(init) && (MappingsOf(init) + m)[|init|..] == m;
  }

  // ---- crash --------------------------------------------------------------

  lemma {:induction false} AckedPrefix(h: seq<Attempt>, i: nat)
    requires i < |h| && h[i].result == Complete
    ensures AckedEnd(h) > 0 || Written(h[..i + 1]) == []
    ensures |Written(h[..i + 1])| <= AckedEnd(h)
  {
    var g := h[..|h| - 1];
    if i == |h| - 1 {
      assert h[..i + 1] == h;
    } else if h[|h| - 1].result == Complete {
      WrittenMonotone(h, i + 1);
    } else {
      AckedPrefix(g, i);
      assert g[..i + 1] == h[..i + 1];
    }
  }

  lemma {:induction false} WrittenMonotone(h: seq<Attempt>, i: nat)
    requires i <= |h|
    ensures |Written(h[..i])| <= |Written(h)|
  {
    if i < |h| {
      WrittenMonotone(h[..|h| - 1], i);
      assert h[..|h| - 1][..i] == h[..i];
    } else {
      assert h[..i] == h;
    }
  }

  lemma {:induction false} FramedPrefix(h: seq<Attempt>, i: nat)
    requires i <= |h|
    ensures Framed(h[..i]) <= Framed(h)
  {
    if i < |h| {
      FramedPrefix(h[..|h| - 1], i);
      assert h[..|h| - 1][..i] == h[..i];
    } else {
      assert h[..i] == h;
    }
  }

  lemma {:induction false} TidyPrefix(h: seq<Attempt>, i: nat)
    requires Tidy(h) && i <= |h|
    ensures Tidy(h[..i])
  {
    hide AttemptOk;
    if i < |h| {
      TidyPrefix(h[..|h| - 1], i);
      assert h[..|h| - 1][..i] == h[..i];
    } else {
      assert h[..i] == h;
    }
  }

  /** The place of an acknowledged attempt among the whole lines of this process. */
  ghost function FramedIndex(h: seq<Attempt>, i: nat): nat
    requires i < |h|
  {
    |Framed(h[..i])|
  }

  lemma {:induction false} FramedAt(h: seq<Attempt>, i: nat)
    requires i < |h| && IsFramed(h[i])
    ensures FramedIndex(h, i) < |Framed(h)| && Framed(h)[FramedIndex(h, i)] == h[i]
    ensures Framed(h[..i + 1]) == Framed(h)[..FramedIndex(h, i) + 1]
  {
    hide Framed;
    FramedNext(h, i);
    FramedPrefix(h, i + 1);
  }

  lemma {:induction false} FramedNext(h: seq<Attempt>, i: nat)
    requires i < |h| && IsFramed(h[i])
    ensures Framed(h[..i + 1]) == Framed(h[..i]) + [h[i]]
  {
    assert h[..i + 1][..i] == h[..i];
  }

  lemma {:induction false} WrittenIsFlat(h: seq<Attempt>, i: nat)
    requires Tidy(h) && i < |h| && h[i].result == Complete
    ensures FramedIndex(h, i) < |Framed(h)|
    ensures |Flatten(LinesOf(Framed(h)[..FramedIndex(h, i) + 1]))| <= |Written(h[..i + 1])|
  {
    hide Encodes, Framed, Tidy, IsLine, HasPartial;
    FramedAt(h, i);
    TidyPrefix(h, i + 1);
    HistoryShape(h[..i + 1]);
  }

  /** The end of an acknowledged line lies within what the last successful fsync made durable. */
  lemma {:induction false} AckedIsDurable(s: State, init: seq<bytes>, i: nat)
    requires Inv(s, Flatten(init)) && s.fsync
    requires i < |s.history| && s.history[i].result == Complete
    ensures FramedIndex(s.history, i) < |WholeLines(s)|
    ensures |Flatten(init + WholeLines(s)[..FramedIndex(s.history, i) + 1])| <= s.durable
  {
    hide Encodes, Framed, Tidy, IsLine, AckedEnd, PhaseOk, HasPartial, FramedIndex, Written, Flatten;
    var h := s.history;
    AckedPrefix(h, i);
    AckedNonEmpty(h, i);
    WrittenIsFlat(h, i);
    var j := FramedIndex(h, i) + 1;
    hide Inv;
    FirstWholeLines(s, j);
    FlattenAppend(init, WholeLines(s)[..j]);
  }

  lemma {:induction false} FirstWholeLines(s: State, j: nat)
    requires j <= |Framed(s.history)|
    ensures j <= |WholeLines(s)| && WholeLines(s)[..j] == LinesOf(Framed(s.history)[..j])
  {
    hide Framed;
  }

  lemma {:induction false} AckedNonEmpty(h: seq<Attempt>, i: nat)
    requires Tidy(h) && i < |h| && h[i].result == Complete
    ensures AckedEnd(h) > 0
  {
    hide Encodes, HasPartial;
    var a := h[|h| - 1];
    assert AttemptOk(a);
    if a.result != Complete {
      AckedNonEmpty(h[..|h| - 1], i);
    }
  }

  lemma {:induction false} CutReads(survivor: bytes, lines: seq<bytes>, n: nat)
    requires AllLines(lines) && AllGood(lines) && n <= |lines|
    requires Split(survivor).0 == lines[..n]
    ensures Read(Some(survivor)) == Reading(MappingsOf(lines)[..n], None, |survivor| != |Flatten(lines[..n])|)
  {
    hide IsGood, IsLine, MappingOf, Split, Read, Flatten;
    SplitJoins(survivor);
    ReadGood(lines[..n], Split(survivor).1);
    assert MappingsOf(lines[..n]) == MappingsOf(lines)[..n];
  }

  lemma {:induction false} AckedMapping(s: State, init: bytes, i: nat)
    requires Inv(s, init)
    requires i < |s.history| && s.history[i].result == Complete
    ensures FramedIndex(s.history, i) < |WholeLines(s)|
    ensures IsGood(WholeLines(s)[FramedIndex(s.history, i)])
    ensures ReadsAs(s.history[i].record, MappingOf(WholeLines(s)[FramedIndex(s.history, i)]))
  {
    var h := s.history;
    FramedAt(h, i);
    FramedOk(h);
    hide Encodes, Framed, Tidy, IsLine, AckedEnd, PhaseOk, HasPartial, FramedIndex, Written, IsGood, ReadsAs, MappingOf;
    var a := Framed(h)[FramedIndex(h, i)];
    assert AttemptOk(a);
    EncodedIsGood(a.record, a.line);
    assert WholeLines(s)[FramedIndex(h, i)] == a.line;
  }

  /** The place of an acknowledged attempt among everything a reader of the file would yield. */
  ghost function Place(init: seq<bytes>, h: seq<Attempt>, i: nat): nat
    requires i < |h|
  {
    |init| + FramedIndex(h, i)
  }

  lemma {:induction false} AckedSurvives(s: State, init: seq<bytes>, cut: nat, i: nat)
    requires WellFramed(init) && Inv(s, Flatten(init)) && s.durable <= cut && s.fsync
    requires i < |s.history| && s.history[i].result == Complete
    ensures AllGood(init + WholeLines(s))
    ensures Place(init, s.history, i) < LinesWithin(init + WholeLines(s), cut)
    ensures ReadsAs(s.history[i].record, MappingsOf(init + WholeLines(s))[Place(init, s.history, i)])
  {
    hide Inv, Flatten, IsLine, WholeLines, LinesWithin, MappingOf, FramedIndex, ReadsAs, IsGood;
    FileLines(s, init);
    AckedIsDurable(s, init, i);
    AckedMapping(s, Flatten(init), i);
    KeptLine(init, WholeLines(s), FramedIndex(s.history, i), cut);
  }

  lemma {:induction false} KeptLine(init: seq<bytes>, more: seq<bytes>, k: nat, cut: nat)
    requires k < |more| && |Flatten(init + more[..k + 1])| <= cut
    ensures |init| + k < LinesWithin(init + more, cut)
    ensures (init + more)[|init| + k] == more[k]
  {
    hide Flatten, LinesWithin;
    assert (init + more)[..|init| + k + 1] == init + more[..k + 1];
    LinesWithinAll(init + more, cut, |init| + k + 1);
  }

  /** After a crash that keeps at least the durable prefix, reading never fails: it yields a prefix of the framed
      lines, `truncated` tells whether the cut fell inside a line, and every acknowledged record is there. */
  lemma {:induction false} CrashDurability(s: State, init: seq<bytes>, cut: nat)
    requires WellFramed(init) && Inv(s, Flatten(init))
    requires s.durable <= cut <= |s.file|
    ensures AllGood(init + WholeLines(s))
    ensures var lines := init + WholeLines(s);
            var n := LinesWithin(lines, cut);
            Read(Some(s.file[..cut])) == Reading(MappingsOf(lines)[..n], None, cut != |Flatten(lines[..n])|)
    ensures forall i :: 0 <= i < |s.history| && s.fsync && s.history[i].result == Complete ==>
              && Place(init, s.history, i) < |Read(Some(s.file[..cut])).yielded|
              && ReadsAs(s.history[i].record, Read(Some(s.file[..cut])).yielded[Place(init, s.history, i)])
  {
    FileLines(s, init);
    hide Inv, Flatten, IsGood, IsLine, WholeLines, TornTail, Read, LinesWithin, MappingOf, Place, ReadsAs, Split;
    var lines := init + WholeLines(s);
    var n := LinesWithin(lines, cut);
    CutLines(lines, TornTail(s), cut);
    CutReads(s.file[..cut], lines, n);
    forall i | 0 <= i < |s.history| && s.fsync && s.history[i].result == Complete
      ensures Place(init, s.history, i) < n
      ensures ReadsAs(s.history[i].record, MappingsOf(lines)[Place(init, s.history, i)])
    {
      AckedSurvives(s, init, cut, i);
    }
  }

  /** For every run of every interleaving on a freshly constructed stream, and every crash after it. */
  lemma {:induction false} EveryRunSurvivesCrash(s0: State, run: seq<Action>, s: State, init: seq<bytes>, cut: nat)
    requires WellFramed(init) && Initial(s0, Flatten(init)) && Exec(s0, run) == Some(s)
    requires s.durable <= cut <= |s.file|
    ensures var got := Read(Some(s.file[..cut]));
            && got.error.None?
            && AllGood(init + WholeLines(s))
            && got.yielded <= MappingsOf(init + WholeLines(s))
            && forall i :: 0 <= i < |s.history| && s.fsync && s.history[i].result == Complete ==>
                 exists k :: 0 <= k < |got.yielded| && ReadsAs(s.history[i].record, got.yielded[k])
  {
    hide Inv, Flatten, IsGood, IsLine, WholeLines, Read, LinesWithin, FramedIndex, MappingOf, Exec, ReadsAs, WellFramed;
    InitialInv(s0, Flatten(init));
    RunInv(s0, run, s, Flatten(init));
    CrashDurability(s, init, cut);
  }
}
