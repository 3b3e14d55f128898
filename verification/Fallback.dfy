/** The rate-limited fallback channel: at most a few lines and one summary in each window, whatever is emitted. */
module Fallback {
  import opened Basics
  import opened Json
  import opened Records
  import P = AuditProtocol

  const MAX_LINES_PER_WINDOW := 5
  const WINDOW_SECONDS := 60.0
  const CARRIAGE_RETURN := 0x0D

  const PREFIX := Lit("nm-logging: ")

  datatype Limits = Limits(maxLines: int, windowSeconds: real)

  /** One attempt to write to the stream: when, what, and in which window, counted from the first. */
  datatype Write = Write(at: real, line: Text, window: nat)

  datatype Meter = Meter(windowStart: real, count: int, suppressing: bool, window: nat, writes: seq<Write>)

  datatype Call = Call(text: Text, now: real)

  /** Line breaks become spaces. */
  function Safe(text: Text): (r: Text)
    ensures |r| == |text| && NEWLINE !in r && CARRIAGE_RETURN !in r
    ensures forall i :: 0 <= i < |r| ==> r[i] == text[i] || (r[i] == 0x20 && text[i] in {NEWLINE, CARRIAGE_RETURN})
  {
    seq(|text|, i requires 0 <= i < |text| =>
      if text[i] == NEWLINE || text[i] == CARRIAGE_RETURN then 0x20 else text[i])
  }

  /** `int(seconds)`: towards zero. */
  function WholeSeconds(seconds: real): int {
    if seconds < 0.0 then -((-seconds).Floor) else seconds.Floor
  }

  function Summary(l: Limits): Text {
    PREFIX + Lit("further fallback ") + Lit("messages suppressed ") + Lit("for up to ")
    + PrintInt(WholeSeconds(l.windowSeconds)) + Lit("s")
  }

  /** The meter once a new window has begun, if one has. */
  function Rolled(l: Limits, m: Meter, now: real): Meter {
    if now - m.windowStart >= l.windowSeconds then Meter(now, 0, false, m.window + 1, m.writes) else m
  }

  function Wrote(m: Meter, now: real, line: Text): Meter {
    m.(writes := m.writes + [Write(now, line, m.window)])
  }

  /** One emit that is not nested in another. */
  function Emitted(l: Limits, m: Meter, call: Call): Meter {
    var r := Rolled(l, m, call.now);
    if r.count < l.maxLines then Wrote(r.(count := r.count + 1), call.now, PREFIX + Safe(call.text))
    else if !r.suppressing then Wrote(r.(suppressing := true), call.now, Summary(l))
    else r
  }

  function Run(l: Limits, start: real, calls: seq<Call>): Meter {
    if calls == [] then Meter(start, 0, false, 0, [])
    else Emitted(l, Run(l, start, calls[..|calls| - 1]), calls[|calls| - 1])
  }

  /** The monotonic clock: it may raise. */
  datatype Reading = Now(at: real) | Fails(e: P.Exn)

  /** One emit that is not nested in another, with what its clock said: a clock that raises leaves the meter as it is.
      */
  function Metered(l: Limits, m: Meter, text: Text, reading: Reading): Meter {
    match reading
    case Now(at) => Emitted(l, m, Call(text, at))
    case Fails(_) => m
  }

  /** What may leave an emit: what its clock raised, or an interrupt from the stream. */
  predicate MayLeave(reading: Reading, raised: Option<P.Exn>) {
    match reading
    case Now(_) => raised.Some? ==> P.ClassOf(raised.value) == Interrupt
    case Fails(e) => raised == Some(e)
  }

  // ---- the class ----------------------------------------------------------

  class StderrFallback {
    const maxLines: int
    const windowSeconds: real
    var windowStart: real
    var count: int
    var suppressing: bool
    var reentrant: bool
    ghost var window: nat
    ghost var writes: seq<Write>

    function Bounds(): Limits {
      Limits(maxLines, windowSeconds)
    }

    ghost function View(): Meter
      reads this
    {
      Meter(windowStart, count, suppressing, window, writes)
    }

    /** `start` is what the monotonic clock says at construction. */
    constructor (start: real, maxLines: int := MAX_LINES_PER_WINDOW, windowSeconds: real := WINDOW_SECONDS)
      ensures View() == Run(Bounds(), start, []) && !reentrant
      ensures this.maxLines == maxLines && this.windowSeconds == windowSeconds
    {
      this.maxLines, this.windowSeconds := maxLines, windowSeconds;
      windowStart, count, suppressing, reentrant := start, 0, false, false;
      window, writes := 0, [];
    }

    /** `emit`: nothing at all if the stream calls back into it, and one step of the meter otherwise, even if an
        exception leaves; the flag is reset in every case. */
    method Emit(text: Text, reading: Reading) returns (raised: Option<P.Exn>)
      modifies this
      ensures reentrant == old(reentrant)
      ensures View() == if reentrant then old(View()) else Metered(Bounds(), old(View()), text, reading)
      ensures if reentrant then raised.None? else MayLeave(reading, raised)
      decreases if reentrant then 0 else 3
    {
      if reentrant {
        return None;
      }
      reentrant := true;
      if reading.Fails? {
        raised := Some(reading.e);
      } else {
        var allowed;
        allowed, raised := Allow(reading.at);
        if allowed && raised.None? {
          raised := WriteLine(PREFIX + Safe(text), reading.at);
        }
      }
      reentrant := false;
    }

    method Allow(now: real) returns (allowed: bool, raised: Option<P.Exn>)
      requires reentrant
      modifies this
      ensures reentrant && (raised.Some? ==> !allowed && P.ClassOf(raised.value) == Interrupt)
      ensures var r := Rolled(Bounds(), old(View()), now);
              && (allowed <==> r.count < maxLines)
              && View() == if allowed then r.(count := r.count + 1)
                           else if r.suppressing then r
                           else Wrote(r.(suppressing := true), now, Summary(Bounds()))
      decreases 2
    {
      if now - windowStart >= windowSeconds {
        windowStart, count, suppressing := now, 0, false;
        window := window + 1;
      }
      if count < maxLines {
        count := count + 1;
        return true, None;
      }
      allowed, raised := false, None;
      if !suppressing {
        suppressing := true;
        raised := WriteLine(Summary(Bounds()), now);
      }
    }

    /** One attempt. The stream may call `emit` any number of times; it may fail, which is swallowed unless it is an
        interrupt. */
    method WriteLine(line: Text, now: real) returns (raised: Option<P.Exn>)
      requires reentrant
      modifies this
      ensures reentrant && View() == Wrote(old(View()), now, line)
      ensures raised.Some? ==> P.ClassOf(raised.value) == Interrupt
      decreases 1
    {
      writes := writes + [Write(now, line, window)];
      var nested: int := *;
      while nested > 0
        invariant reentrant && View() == Wrote(old(View()), now, line)
      {
        var text: Text := *;
        var later: Reading := *;
        var ignored := Emit(text, later);
        nested := nested - 1;
      }
      raised := *;
      if raised.Some? && P.ClassOf(raised.value) != Interrupt {
        raised := None;
      }
    }
  }

  // ---- how much can be written --------------------------------------------

  ghost predicate Monotone(start: real, calls: seq<Call>) {
    && (forall i :: 0 <= i < |calls| ==> start <= calls[i].now)
    && forall i, j :: 0 <= i < j < |calls| ==> calls[i].now <= calls[j].now
  }

  /** The writes of one window. */
  function InWindow(writes: seq<Write>, window: nat): nat {
    if writes == [] then 0
    else InWindow(writes[..|writes| - 1], window) + if writes[|writes| - 1].window == window then 1 else 0
  }

  /** The writes at `from` or later but before `to`. */
  function Between(writes: seq<Write>, from: real, to: real): nat {
    if writes == [] then 0
    else Between(writes[..|writes| - 1], from, to) + if from <= writes[|writes| - 1].at < to then 1 else 0
  }

  /** Writes stand in time order, a window apart from those two windows earlier. */
  ghost predicate Spaced(l: Limits, writes: seq<Write>) {
    forall i, j :: 0 <= i < j < |writes| ==>
      && writes[i].at <= writes[j].at && writes[i].window <= writes[j].window
      && (writes[i].window + 2 <= writes[j].window ==> writes[i].at + l.windowSeconds <= writes[j].at)
  }

  /** The least time that this many windows take. */
  function Elapsed(l: Limits, windows: nat): real {
    windows as real * l.windowSeconds
  }

  /** The most that this many windows write. */
  function Budget(l: Limits, windows: nat): int {
    windows * (l.maxLines + 1)
  }

  ghost predicate MeterOk(l: Limits, start: real, m: Meter, now: real) {
    && 0 <= m.count <= l.maxLines && m.windowStart <= now
    && Elapsed(l, m.window) <= m.windowStart - start
    && Spaced(l, m.writes)
    && (forall i :: 0 <= i < |m.writes| ==> BeforeWindow(l, m, m.writes[i], now))
    && InWindow(m.writes, m.window) == m.count + (if m.suppressing then 1 else 0)
    && |m.writes| <= Budget(l, m.window) + InWindow(m.writes, m.window)
    && forall k: nat :: InWindow(m.writes, k) <= l.maxLines + 1
  }

  /** Where a write stands relative to the current window. */
  ghost predicate BeforeWindow(l: Limits, m: Meter, w: Write, now: real) {
    && w.at <= now && w.window <= m.window
    && (w.window + 1 <= m.window ==> w.at <= m.windowStart)
    && (w.window + 2 <= m.window ==> w.at + l.windowSeconds <= m.windowStart)
  }

  lemma {:induction false} NoneInLaterWindow(writes: seq<Write>, window: nat)
    requires forall i :: 0 <= i < |writes| ==> writes[i].window < window
    ensures InWindow(writes, window) == 0
  {
    if writes != [] {
      NoneInLaterWindow(writes[..|writes| - 1], window);
    }
  }

  lemma {:induction false} RollOk(l: Limits, start: real, m: Meter, before: real, now: real)
    requires 0 <= l.maxLines && 0.0 < l.windowSeconds && before <= now && MeterOk(l, start, m, before)
    ensures MeterOk(l, start, Rolled(l, m, now), now)
  {
    hide Spaced;
    if now - m.windowStart >= l.windowSeconds {
      NoneInLaterWindow(m.writes, m.window + 1);
      assert (m.window + 1) as real * l.windowSeconds == m.window as real * l.windowSeconds + l.windowSeconds;
      assert (m.window + 1) * (l.maxLines + 1) == m.window * (l.maxLines + 1) + (l.maxLines + 1);
      assert InWindow(m.writes, m.window) <= l.maxLines + 1;
    }
  }

  lemma {:induction false} InWindowSnoc(writes: seq<Write>, w: Write, k: nat)
    ensures InWindow(writes + [w], k) == InWindow(writes, k) + if w.window == k then 1 else 0
  {
    assert (writes + [w])[..|writes|] == writes;
  }

  lemma {:induction false} SpacedSnoc(l: Limits, m: Meter, now: real, line: Text)
    requires 0.0 < l.windowSeconds && Spaced(l, m.writes) && m.windowStart <= now
    requires forall i :: 0 <= i < |m.writes| ==> BeforeWindow(l, m, m.writes[i], now)
    ensures Spaced(l, Wrote(m, now, line).writes)
    ensures forall i :: 0 <= i <= |m.writes| ==> BeforeWindow(l, m, Wrote(m, now, line).writes[i], now)
  {
  }

  lemma {:induction false} WriteOk(l: Limits, start: real, r: Meter, e: Meter, now: real, line: Text)
    requires 0 <= l.maxLines && 0.0 < l.windowSeconds && MeterOk(l, start, r, now)
    requires e == Wrote(r.(count := e.count, suppressing := e.suppressing), now, line)
    requires 0 <= e.count <= l.maxLines
    requires r.count + (if r.suppressing then 1 else 0) <= l.maxLines
    requires e.count + (if e.suppressing then 1 else 0) == r.count + (if r.suppressing then 1 else 0) + 1
    ensures MeterOk(l, start, e, now)
  {
    SpacedSnoc(l, r, now, line);
    hide Spaced, Elapsed, Budget, BeforeWindow;
    forall k: nat ensures InWindow(e.writes, k) == InWindow(r.writes, k) + if r.window == k then 1 else 0 {
      InWindowSnoc(r.writes, Write(now, line, r.window), k);
    }
    hide InWindow;
    assert forall i :: 0 <= i < |e.writes| ==> BeforeWindow(l, r, e.writes[i], now);
  }

  lemma {:induction false} EmitOk(l: Limits, start: real, m: Meter, before: real, call: Call)
    requires 0 <= l.maxLines && 0.0 < l.windowSeconds && before <= call.now && MeterOk(l, start, m, before)
    requires m.suppressing ==> m.count == l.maxLines
    ensures MeterOk(l, start, Emitted(l, m, call), call.now)
    ensures Emitted(l, m, call).suppressing ==> Emitted(l, m, call).count == l.maxLines
  {
    RollOk(l, start, m, before, call.now);
    var r, e := Rolled(l, m, call.now), Emitted(l, m, call);
    assert r.suppressing ==> r.count == l.maxLines;
    assert 0 <= r.count <= l.maxLines;
    hide Rolled, InWindow, Summary, Safe, MeterOk;
    if e != r {
      WriteOk(l, start, r, e, call.now, e.writes[|r.writes|].line);
    }
  }

  lemma {:induction false} RunOk(l: Limits, start: real, calls: seq<Call>)
    requires 0 <= l.maxLines && 0.0 < l.windowSeconds && Monotone(start, calls)
    ensures MeterOk(l, start, Run(l, start, calls), if calls == [] then start else calls[|calls| - 1].now)
    ensures Run(l, start, calls).suppressing ==> Run(l, start, calls).count == l.maxLines
  {
    hide MeterOk, Emitted;
    if calls == [] {
      StartOk(l, start);
    } else {
      RunOk(l, start, calls[..|calls| - 1]);
      EmitOk(l, start, Run(l, start, calls[..|calls| - 1]), if |calls| == 1 then start else calls[|calls| - 2].now,
             calls[|calls| - 1]);
    }
  }

  lemma {:induction false} StartOk(l: Limits, start: real)
    requires 0 <= l.maxLines
    ensures MeterOk(l, start, Run(l, start, []), start)
  {
  }

  /** Every window writes at most the allowed lines and one summary, so the writes up to time `t` are bounded by the
      number of windows that fit. */
  lemma {:induction false} VolumeBound(l: Limits, start: real, calls: seq<Call>, t: real)
    requires 0 <= l.maxLines && 0.0 < l.windowSeconds && Monotone(start, calls)
    requires start <= t && forall i :: 0 <= i < |calls| ==> calls[i].now <= t
    ensures |Run(l, start, calls).writes| <= (l.maxLines + 1) * (1 + ((t - start) / l.windowSeconds).Floor)
  {
    RunOk(l, start, calls);
    hide Run, MeterOk;
    VolumeOf(l, start, Run(l, start, calls), if calls == [] then start else calls[|calls| - 1].now, t);
  }

  lemma {:induction false} VolumeOf(l: Limits, start: real, m: Meter, now: real, t: real)
    requires 0 <= l.maxLines && 0.0 < l.windowSeconds && MeterOk(l, start, m, now) && now <= t
    ensures |m.writes| <= (l.maxLines + 1) * (1 + ((t - start) / l.windowSeconds).Floor)
  {
    hide InWindow, Spaced, BeforeWindow;
    var n := ((t - start) / l.windowSeconds).Floor;
    WindowsFit(m.window, l.windowSeconds, t - start);
    assert InWindow(m.writes, m.window) <= l.maxLines + 1;
    hide MeterOk;
    Scaled(m.window + 1, n + 1, l.maxLines + 1);
    Distribute(m.window, l.maxLines + 1);
  }

  lemma {:induction false} Distribute(a: int, k: int)
    ensures (a + 1) * k == a * k + k
  {
  }

  lemma {:induction false} Scaled(a: int, b: int, k: int)
    requires a <= b && 0 <= k
    ensures a * k <= b * k
  {
  }

  lemma {:induction false} WindowsFit(k: nat, w: real, span: real)
    requires 0.0 < w && k as real * w <= span
    ensures k <= (span / w).Floor
  {
    assert k as real <= span / w;
  }

  // ---- any interval of one window's length --------------------------------

  lemma {:induction false} NoneBetween(writes: seq<Write>, from: real, to: real)
    requires forall i :: 0 <= i < |writes| ==> !(from <= writes[i].at < to)
    ensures Between(writes, from, to) == 0
  {
    if writes != [] {
      NoneBetween(writes[..|writes| - 1], from, to);
    }
  }

  lemma {:induction false} TwoWindows(writes: seq<Write>, from: real, to: real, k: nat)
    requires forall i :: 0 <= i < |writes| && from <= writes[i].at < to ==>
               writes[i].window == k || writes[i].window == k + 1
    ensures Between(writes, from, to) <= InWindow(writes, k) + InWindow(writes, k + 1)
  {
    if writes != [] {
      TwoWindows(writes[..|writes| - 1], from, to, k);
    }
  }

  /** The first write in an interval, if there is one. */
  lemma {:induction false} FirstBetween(writes: seq<Write>, from: real, to: real) returns (first: nat)
    ensures first <= |writes|
    ensures forall i :: 0 <= i < first ==> !(from <= writes[i].at < to)
    ensures first < |writes| ==> from <= writes[first].at < to
  {
    first := 0;
    while first < |writes| && !(from <= writes[first].at < to)
      invariant first <= |writes|
      invariant forall i :: 0 <= i < first ==> !(from <= writes[i].at < to)
    {
      first := first + 1;
    }
  }

  /** In no half-open interval as long as a window are there more than two windows' worth of writes. */
  lemma {:induction false} IntervalBound(l: Limits, start: real, calls: seq<Call>, from: real)
    requires 0 <= l.maxLines && 0.0 < l.windowSeconds && Monotone(start, calls)
    ensures Between(Run(l, start, calls).writes, from, from + l.windowSeconds) <= 2 * (l.maxLines + 1)
  {
    RunOk(l, start, calls);
    hide Run, InWindow, BeforeWindow;
    var writes, to := Run(l, start, calls).writes, from + l.windowSeconds;
    var first := FirstBetween(writes, from, to);
    if first == |writes| {
      NoneBetween(writes, from, to);
    } else {
      var k := writes[first].window;
      TwoWindows(writes, from, to, k);
      assert InWindow(writes, k) <= l.maxLines + 1 && InWindow(writes, k + 1) <= l.maxLines + 1;
    }
  }

  // ---- what is written, call by call ---------------------------------------

  /** When the window in force after these calls began. */
  function WindowStart(l: Limits, start: real, calls: seq<Call>): real {
    if calls == [] then start
    else
      var before := WindowStart(l, start, calls[..|calls| - 1]);
      if calls[|calls| - 1].now - before >= l.windowSeconds then calls[|calls| - 1].now else before
  }

  /** How many of these calls fall into the window in force after them. */
  function Nth(l: Limits, start: real, calls: seq<Call>): nat {
    if calls == [] then 0
    else if calls[|calls| - 1].now - WindowStart(l, start, calls[..|calls| - 1]) >= l.windowSeconds then 1
    else Nth(l, start, calls[..|calls| - 1]) + 1
  }

  /** What the last call writes: its message if it is among the first of its window, the summary if it is the first one
      past them, and nothing after that. */
  function LastWritten(l: Limits, start: real, calls: seq<Call>): seq<Text>
    requires calls != []
  {
    var n := Nth(l, start, calls);
    if n <= l.maxLines then [PREFIX + Safe(calls[|calls| - 1].text)]
    else if n == l.maxLines + 1 then [Summary(l)]
    else []
  }

  function AllWritten(l: Limits, start: real, calls: seq<Call>): seq<Text> {
    if calls == [] then [] else AllWritten(l, start, calls[..|calls| - 1]) + LastWritten(l, start, calls)
  }

  function Lines(writes: seq<Write>): (r: seq<Text>)
    ensures |r| == |writes|
  {
    seq(|writes|, i requires 0 <= i < |writes| => writes[i].line)
  }

  lemma {:induction false} MeterCounts(l: Limits, start: real, calls: seq<Call>)
    requires 0 <= l.maxLines
    ensures var m, n := Run(l, start, calls), Nth(l, start, calls);
            && m.windowStart == WindowStart(l, start, calls)
            && m.count == (if n <= l.maxLines then n else l.maxLines)
            && (m.suppressing <==> n > l.maxLines)
  {
    hide Summary, Safe;
    if calls != [] {
      MeterCounts(l, start, calls[..|calls| - 1]);
    }
  }

  /** Every run, call by call: in each window exactly the first max_lines messages are written, then one summary, then
      nothing until the next window. */
  lemma {:induction false} WrittenExactly(l: Limits, start: real, calls: seq<Call>)
    requires 0 <= l.maxLines
    ensures Lines(Run(l, start, calls).writes) == AllWritten(l, start, calls)
  {
    hide Summary, Safe;
    if calls != [] {
      var before := calls[..|calls| - 1];
      WrittenExactly(l, start, before);
      MeterCounts(l, start, before);
      LastLine(l, Run(l, start, before), calls[|calls| - 1]);
    }
  }

  lemma {:induction false} LastLine(l: Limits, m: Meter, call: Call)
    ensures var r := Rolled(l, m, call.now);
            Lines(Emitted(l, m, call).writes) ==
            Lines(m.writes) + if r.count < l.maxLines then [PREFIX + Safe(call.text)]
                              else if !r.suppressing then [Summary(l)] else []
  {
    hide Summary, Safe;
  }

  /** So nothing is suppressed early: as many messages as one window allows are all written, in order. */
  lemma {:induction false} AllowedAreWritten(l: Limits, start: real, calls: seq<Call>)
    requires |calls| <= l.maxLines
    ensures var lines := Lines(Run(l, start, calls).writes);
            |lines| == |calls| && forall i :: 0 <= i < |calls| ==> lines[i] == PREFIX + Safe(calls[i].text)
  {
    WrittenExactly(l, start, calls);
    hide Run, Summary, Safe;
    FewAllWritten(l, start, calls);
  }

  lemma {:induction false} FewAllWritten(l: Limits, start: real, calls: seq<Call>)
    requires |calls| <= l.maxLines
    ensures Nth(l, start, calls) <= |calls|
    ensures var lines := AllWritten(l, start, calls);
            |lines| == |calls| && forall i :: 0 <= i < |calls| ==> lines[i] == PREFIX + Safe(calls[i].text)
  {
    hide Summary, Safe, WindowStart;
    if calls != [] {
      FewAllWritten(l, start, calls[..|calls| - 1]);
    }
  }

  /** A written line never breaks the framing of the stream. */
  lemma {:induction false} LinesUnbroken(l: Limits, start: real, calls: seq<Call>, i: nat)
    requires i < |Run(l, start, calls).writes|
    ensures NEWLINE !in Run(l, start, calls).writes[i].line
  {
    hide Summary, Safe, Rolled;
    if calls != [] {
      var m := Run(l, start, calls[..|calls| - 1]);
      assert Rolled(l, m, calls[|calls| - 1].now).writes == m.writes by {
        RollKeepsWrites(l, m, calls[|calls| - 1].now);
      }
      SummaryUnbroken(l);
      if i < |m.writes| {
        LinesUnbroken(l, start, calls[..|calls| - 1], i);
      }
    }
  }

  lemma {:induction false} RollKeepsWrites(l: Limits, m: Meter, now: real)
    ensures Rolled(l, m, now).writes == m.writes
  {
  }

  lemma {:induction false} SummaryUnbroken(l: Limits)
    ensures NEWLINE !in Summary(l) && NEWLINE !in PREFIX
  {
    IntUnbroken(WholeSeconds(l.windowSeconds));
    assert '\n' !in "further fallback " && '\n' !in "messages suppressed " && '\n' !in "for up to ";
  }

  /** The summary of the fallback's own limits. */
  lemma {:induction false} SummaryWords()
    ensures Summary(Limits(MAX_LINES_PER_WINDOW, WINDOW_SECONDS)) ==
            Lit("nm-logging: ") + Lit("further fallback messages suppressed ") + Lit("for up to 60s")
  {
    SuppressedWords();
    SecondsWords();
    hide Lit, PrintInt;
    assert WholeSeconds(60.0) == 60;
  }

  lemma {:induction false} SuppressedWords()
    ensures Lit("further fallback ") + Lit("messages suppressed ") == Lit("further fallback messages suppressed ")
  {
    JoinLits("further fallback ", "messages suppressed ");
    hide Lit;
    assert "further fallback messages suppressed " == "further fallback " + "messages suppressed ";
  }

  lemma {:induction false} SecondsWords()
    ensures Lit("for up to ") + PrintInt(60) + Lit("s") == Lit("for up to 60s")
  {
    assert PrintInt(60) == [0x36, 0x30] == Lit("60") by { SixtyLit(); }
    JoinLits("for up to ", "60");
    JoinLits("for up to 60", "s");
    hide Lit, PrintInt;
    assert "for up to 60" == "for up to " + "60" && "for up to 60s" == "for up to 60" + "s";
  }

  lemma {:induction false} SixtyLit()
    ensures Lit("60") == [0x36, 0x30]
  {
  }

  lemma {:induction false} JoinLits(s: string, t: string)
    ensures Lit(s) + Lit(t) == Lit(s + t)
  {
  }

  lemma {:induction false} IntUnbroken(n: int)
    ensures NEWLINE !in PrintInt(n)
  {
  }
}
