/** One file identity shared by sink instances and threads of one kind, interleaved at single system calls. */
module FramedLog {
  import opened Basics
  import opened Framing
  import opened Records
  import opened LineCodec

  type Tid = nat
  type SinkId = nat

  /** How an attempt ended; Refused is the closed or latched sink that touches nothing. */
  datatype WriteResult = Complete | Partial | Nothing | SyncFailed | Refused

  /** Where a thread stands in `append` or `write`; every phase after Waiting holds the lock. */
  datatype Phase =
    | Idle
    | Waiting(sink: SinkId, record: Record, line: bytes)
    | Writing(sink: SinkId, record: Record, line: bytes, written: nat)
    | Syncing(sink: SinkId, record: Record, line: bytes)
    | Latching
    | Releasing

  datatype Attempt = Attempt(tid: Tid, sink: SinkId, record: Record, line: bytes, written: nat, result: WriteResult)

  /** `durable` is the length at the last successful fsync; `history` lists the attempts whose result is known. */
  datatype State = State(
    file: bytes,
    durable: nat,
    fsync: bool,
    lock: Option<Tid>,
    latched: bool,
    closed: set<SinkId>,
    phases: map<Tid, Phase>,
    history: seq<Attempt>
  )

  datatype Action =
    | Submit(tid: Tid, sink: SinkId, record: Record, line: bytes)
    | Acquire(tid: Tid)
    | OsWrite(tid: Tid, n: int)
    | OsFsync(tid: Tid, ok: bool)
    | Latch(tid: Tid)
    | Release(tid: Tid)
    | Close(sink: SinkId)

  function PhaseOf(s: State, t: Tid): Phase {
    if t in s.phases then s.phases[t] else Idle
  }

  /** `line` is what the codec makes of `record`, so the sink lets it through to the lock. */
  predicate Encodes(record: Record, line: bytes) {
    Constructible(record) && EncodeLine(record) == Ok(line)
  }

  /** `n` is the return of one `os.write`; anything at or below zero stands for the error return as well. */
  predicate Enabled(s: State, a: Action) {
    match a
    case Submit(t, _, record, line) => PhaseOf(s, t).Idle? && Encodes(record, line)
    case Acquire(t) => PhaseOf(s, t).Waiting? && s.lock.None?
    case OsWrite(t, n) => PhaseOf(s, t).Writing? && n <= |s.phases[t].line| - s.phases[t].written
    case OsFsync(t, _) => PhaseOf(s, t).Syncing?
    case Latch(t) => PhaseOf(s, t).Latching?
    case Release(t) => PhaseOf(s, t).Releasing?
    case Close(_) => s.lock.None?
  }

  function MoveTo(s: State, t: Tid, p: Phase): State {
    s.(phases := s.phases[t := p])
  }

  function Conclude(s: State, t: Tid, sink: SinkId, record: Record, line: bytes, written: nat,
                    result: WriteResult): State {
    s.(history := s.history + [Attempt(t, sink, record, line, written, result)])
  }

  function Next(s: State, a: Action): State
    requires Enabled(s, a)
  {
    match a
    case Submit(t, sink, record, line) => MoveTo(s, t, Waiting(sink, record, line))
    case Acquire(t) =>
      var Waiting(sink, record, line) := s.phases[t];
      var held := s.(lock := Some(t));
      if sink in s.closed || s.latched
      then MoveTo(Conclude(held, t, sink, record, line, 0, Refused), t, Releasing)
      else MoveTo(held, t, Writing(sink, record, line, 0))
    case OsWrite(t, n) =>
      var Writing(sink, record, line, written) := s.phases[t];
      if n <= 0 then
        if written > 0 then MoveTo(Conclude(s, t, sink, record, line, written, Partial), t, Latching)
        else MoveTo(Conclude(s, t, sink, record, line, 0, Nothing), t, Releasing)
      else
        var grown := s.(file := s.file + line[written..written + n]);
        if written + n < |line| then MoveTo(grown, t, Writing(sink, record, line, written + n))
        else if s.fsync then MoveTo(grown, t, Syncing(sink, record, line))
        else MoveTo(Conclude(grown, t, sink, record, line, |line|, Complete), t, Releasing)
    case OsFsync(t, ok) =>
      var Syncing(sink, record, line) := s.phases[t];
      if ok then MoveTo(Conclude(s.(durable := |s.file|), t, sink, record, line, |line|, Complete), t, Releasing)
      else MoveTo(Conclude(s, t, sink, record, line, |line|, SyncFailed), t, Releasing)
    case Latch(t) => MoveTo(s.(latched := true), t, Releasing)
    case Release(t) => MoveTo(s.(lock := None), t, Idle)
    case Close(sink) => s.(closed := s.closed + {sink})
  }

  /** The state after a run of actions, None where some action was not enabled. */
  function Exec(s: State, run: seq<Action>): Option<State> {
    if run == [] then Some(s)
    else
      match Exec(s, run[..|run| - 1])
      case None => None
      case Some(mid) => if Enabled(mid, run[|run| - 1]) then Some(Next(mid, run[|run| - 1])) else None
  }

  /** A freshly constructed stream over a file that held `init`. */
  ghost predicate Initial(s: State, init: bytes) {
    && s.file == init && s.durable <= |init|
    && s.lock.None? && !s.latched && s.closed == {} && s.phases == map[] && s.history == []
  }

  // ---- what a history put into the file -----------------------------------

  function Contribution(a: Attempt): bytes {
    if a.written <= |a.line| then a.line[..a.written] else []
  }

  function Written(h: seq<Attempt>): bytes {
    if h == [] then [] else Written(h[..|h| - 1]) + Contribution(h[|h| - 1])
  }

  predicate IsFramed(a: Attempt) {
    a.result == Complete || a.result == SyncFailed
  }

  /** The attempts that put their whole line into the file, in lock order. */
  function Framed(h: seq<Attempt>): seq<Attempt> {
    if h == [] then []
    else Framed(h[..|h| - 1]) + if IsFramed(h[|h| - 1]) then [h[|h| - 1]] else []
  }

  function LinesOf(h: seq<Attempt>): (r: seq<bytes>)
    ensures |r| == |h|
    ensures forall i :: 0 <= i < |h| ==> r[i] == h[i].line
  {
    seq(|h|, i requires 0 <= i < |h| => h[i].line)
  }

  predicate HasPartial(h: seq<Attempt>) {
    exists i :: 0 <= i < |h| && h[i].result == Partial
  }

  /** What the partial write left behind. */
  function Residue(h: seq<Attempt>): bytes {
    if h == [] then []
    else if h[|h| - 1].result == Partial then Contribution(h[|h| - 1])
    else Residue(h[..|h| - 1])
  }

  /** Where the last acknowledged line ends. */
  function AckedEnd(h: seq<Attempt>): nat {
    if h == [] then 0
    else if h[|h| - 1].result == Complete then |Written(h)|
    else AckedEnd(h[..|h| - 1])
  }

  ghost predicate AttemptOk(a: Attempt) {
    && Encodes(a.record, a.line) && IsLine(a.line)
    && match a.result
       case Complete => a.written == |a.line|
       case SyncFailed => a.written == |a.line|
       case Partial => 0 < a.written < |a.line|
       case Nothing => a.written == 0
       case Refused => a.written == 0
  }

  /** Every attempt is sound, and after a partial write nothing more is written. */
  ghost predicate Tidy(h: seq<Attempt>) {
    h == [] ||
    ( && Tidy(h[..|h| - 1])
      && AttemptOk(h[|h| - 1])
      && (HasPartial(h[..|h| - 1]) ==> h[|h| - 1].written == 0 && h[|h| - 1].result == Refused))
  }

  lemma {:induction false} Snoc(h: seq<Attempt>, a: Attempt)
    ensures (h + [a])[..|h|] == h && (h + [a])[|h|] == a
    ensures Written(h + [a]) == Written(h) + Contribution(a)
    ensures Framed(h + [a]) == Framed(h) + (if IsFramed(a) then [a] else [])
    ensures HasPartial(h + [a]) <==> HasPartial(h) || a.result == Partial
    ensures AckedEnd(h + [a]) == if a.result == Complete then |Written(h + [a])| else AckedEnd(h)
    ensures Tidy(h + [a]) <==>
              Tidy(h) && AttemptOk(a) && (HasPartial(h) ==> a.written == 0 && a.result == Refused)
  {
    var g := h + [a];
    assert g[..|h|] == h && g[|h|] == a;
    if HasPartial(h) {
      var i :| 0 <= i < |h| && h[i].result == Partial;
      assert g[i].result == Partial;
    }
  }

  // ---- the invariant ------------------------------------------------------

  ghost predicate Holding(p: Phase) {
    p.Writing? || p.Syncing? || p.Latching? || p.Releasing?
  }

  /** The bytes of the line being written, not yet in the history. */
  ghost function InFlight(s: State): bytes {
    if s.lock.None? then []
    else
      match PhaseOf(s, s.lock.value)
      case Writing(_, _, line, written) => if written <= |line| then line[..written] else []
      case Syncing(_, _, line) => line
      case _ => []
  }

  ghost predicate PhaseOk(s: State, t: Tid) {
    var p := PhaseOf(s, t);
    && (Holding(p) <==> s.lock == Some(t))
    && match p
       case Waiting(_, record, line) => Encodes(record, line)
       case Writing(sink, record, line, written) =>
         Encodes(record, line) && written < |line| && sink !in s.closed && !HasPartial(s.history)
       case Syncing(_, record, line) => Encodes(record, line) && s.fsync && !HasPartial(s.history)
       case _ => true
  }

  ghost predicate LatchPending(s: State) {
    s.lock.Some? && PhaseOf(s, s.lock.value).Latching?
  }

  /** `init` is what the file held before the first sink of this process was constructed. */
  ghost predicate Inv(s: State, init: bytes) {
    && s.file == init + Written(s.history) + InFlight(s)
    && Tidy(s.history)
    && (HasPartial(s.history) <==> s.latched || LatchPending(s))
    && !(s.latched && LatchPending(s))
    && (forall t: Tid :: PhaseOk(s, t))
    && s.durable <= |s.file|
    && (s.fsync && AckedEnd(s.history) > 0 ==> |init| + AckedEnd(s.history) <= s.durable)
  }

  // ---- every step keeps the invariant -------------------------------------

  lemma {:induction false} EncodesLine(record: Record, line: bytes)
    requires Encodes(record, line)
    ensures IsLine(line)
  {
    LineRoundTrip(record);
  }

  lemma {:induction false} InitialInv(s: State, init: bytes)
    requires Initial(s, init)
    ensures Inv(s, init)
  {
  }

  lemma {:induction false} SubmitInv(s: State, a: Action, init: bytes)
    requires Inv(s, init) && a.Submit? && Enabled(s, a)
    ensures Inv(Next(s, a), init)
  {
    hide Encodes, Written, HasPartial, Tidy, AckedEnd;
    var s' := Next(s, a);
    assert forall t :: t != a.tid ==> PhaseOf(s', t) == PhaseOf(s, t);
    forall t: Tid ensures PhaseOk(s', t) {
      assert PhaseOk(s, t);
    }
  }

  lemma {:induction false} AcquireInv(s: State, a: Action, init: bytes)
    requires Inv(s, init) && a.Acquire? && Enabled(s, a)
    ensures Inv(Next(s, a), init)
  {
    hide Encodes, Written, HasPartial, Tidy, AckedEnd, IsLine, Framed;
    var t := a.tid;
    var Waiting(sink, record, line) := s.phases[t];
    assert PhaseOk(s, t);
    EncodesLine(record, line);
    Snoc(s.history, Attempt(t, sink, record, line, 0, Refused));
    var s' := Next(s, a);
    assert forall u :: u != t ==> PhaseOf(s', u) == PhaseOf(s, u);
    forall u: Tid ensures PhaseOk(s', u) {
      assert PhaseOk(s, u);
    }
    if IsLine(line) { assert line[..0] == []; }
  }

  lemma {:induction false} StopInv(s: State, a: Action, init: bytes)
    requires Inv(s, init) && a.OsWrite? && Enabled(s, a) && a.n <= 0
    ensures Inv(Next(s, a), init)
  {
    hide Encodes, Written, HasPartial, Tidy, AckedEnd, IsLine, Framed;
    var t := a.tid;
    var Writing(sink, record, line, written) := s.phases[t];
    assert PhaseOk(s, t);
    EncodesLine(record, line);
    Snoc(s.history, Attempt(t, sink, record, line, written, Partial));
    Snoc(s.history, Attempt(t, sink, record, line, 0, Nothing));
    var s' := Next(s, a);
    assert forall u :: u != t ==> PhaseOf(s', u) == PhaseOf(s, u);
    forall u: Tid ensures PhaseOk(s', u) {
      assert PhaseOk(s, u);
    }
    assert line[..0] == [];
  }

  lemma {:induction false} GrownSlice(before: bytes, line: bytes, written: nat, n: nat)
    requires written + n <= |line|
    ensures before + line[..written] + line[written..written + n] == before + line[..written + n]
  {
  }

  lemma {:induction false} ProgressInv(s: State, a: Action, init: bytes)
    requires Inv(s, init) && a.OsWrite? && Enabled(s, a) && a.n > 0
    requires s.phases[a.tid].written + a.n < |s.phases[a.tid].line|
    ensures Inv(Next(s, a), init)
  {
    hide Encodes, Written, HasPartial, Tidy, AckedEnd, Framed, IsLine;
    var t, n := a.tid, a.n;
    var Writing(sink, record, line, written) := s.phases[t];
    assert PhaseOk(s, t);
    var s' := Next(s, a);
    assert forall u :: u != t ==> PhaseOf(s', u) == PhaseOf(s, u);
    forall u: Tid ensures PhaseOk(s', u) {
      assert PhaseOk(s, u);
    }
    GrownSlice(init + Written(s.history), line, written, n);
  }

  lemma {:induction false} LastBytes(before: bytes, line: bytes, written: nat, n: nat)
    requires written + n == |line|
    ensures before + line[..written] + line[written..written + n] == before + line
    ensures line[..|line|] == line
  {
  }

  /** The last byte goes out on an audit stream: the line now waits for its fsync. */
  lemma {:induction false} LastWriteThenFsync(s: State, a: Action, init: bytes)
    requires Inv(s, init) && a.OsWrite? && Enabled(s, a) && a.n > 0 && s.fsync
    requires s.phases[a.tid].written + a.n == |s.phases[a.tid].line|
    ensures Inv(Next(s, a), init)
  {
    hide Encodes, Written, HasPartial, Tidy, AckedEnd, IsLine, Framed, AttemptOk;
    var Writing(sink, record, line, written) := s.phases[a.tid];
    assert PhaseOk(s, a.tid);
    var s' := Next(s, a);
    LastBytes(init + Written(s.history), line, written, a.n);
    forall u: Tid ensures PhaseOk(s', u) {
      assert PhaseOk(s, u);
    }
  }

  /** The last byte goes out on an operational stream: the attempt is complete. */
  lemma {:induction false} LastWriteCompletes(s: State, a: Action, init: bytes)
    requires Inv(s, init) && a.OsWrite? && Enabled(s, a) && a.n > 0 && !s.fsync
    requires s.phases[a.tid].written + a.n == |s.phases[a.tid].line|
    ensures Inv(Next(s, a), init)
  {
    hide Encodes, Written, HasPartial, Tidy, AckedEnd, IsLine, Framed;
    var t := a.tid;
    var Writing(sink, record, line, written) := s.phases[t];
    assert PhaseOk(s, t);
    EncodesLine(record, line);
    var done := Attempt(t, sink, record, line, |line|, Complete);
    Snoc(s.history, done);
    var s' := Next(s, a);
    assert s'.history == s.history + [done];
    LastBytes(init + Written(s.history), line, written, a.n);
    assert Written(s'.history) == Written(s.history) + line;
    Assoc(init, Written(s.history), line);
    assert InFlight(s') == [];
    forall u: Tid ensures PhaseOk(s', u) {
      assert PhaseOk(s, u);
    }
  }

  lemma {:induction false} FsyncInv(s: State, a: Action, init: bytes)
    requires Inv(s, init) && a.OsFsync? && Enabled(s, a)
    ensures Inv(Next(s, a), init)
  {
    hide Encodes, Written, HasPartial, Tidy, AckedEnd, IsLine, Framed;
    var t := a.tid;
    var Syncing(sink, record, line) := s.phases[t];
    assert PhaseOk(s, t);
    EncodesLine(record, line);
    Snoc(s.history, Attempt(t, sink, record, line, |line|, if a.ok then Complete else SyncFailed));
    var s' := Next(s, a);
    assert forall u :: u != t ==> PhaseOf(s', u) == PhaseOf(s, u);
    forall u: Tid ensures PhaseOk(s', u) {
      assert PhaseOk(s, u);
    }
    assert line[..|line|] == line;
  }

  lemma {:induction false} LeaveInv(s: State, a: Action, init: bytes)
    requires Inv(s, init) && (a.Latch? || a.Release? || a.Close?) && Enabled(s, a)
    ensures Inv(Next(s, a), init)
  {
    hide Encodes, Written, HasPartial, Tidy, AckedEnd, IsLine, Framed;
    var s' := Next(s, a);
    if !a.Close? {
      assert PhaseOk(s, a.tid);
      assert forall u :: u != a.tid ==> PhaseOf(s', u) == PhaseOf(s, u);
    }
    forall u: Tid ensures PhaseOk(s', u) {
      assert PhaseOk(s, u);
    }
  }

  lemma {:induction false} StepInv(s: State, a: Action, init: bytes)
    requires Inv(s, init) && Enabled(s, a)
    ensures Inv(Next(s, a), init)
  {
    hide Inv, Next;
    match a
    case Submit(_, _, _, _) => SubmitInv(s, a, init);
    case Acquire(_) => AcquireInv(s, a, init);
    case OsWrite(_, n) => 
      if n <= 0 { StopInv(s, a, init); }
      else if s.phases[a.tid].written + n < |s.phases[a.tid].line| { ProgressInv(s, a, init); }
      else if s.fsync { LastWriteThenFsync(s, a, init); }
      else { LastWriteCompletes(s, a, init); }
    case OsFsync(_, _) => FsyncInv(s, a, init);
    case _ => LeaveInv(s, a, init);
  }

  /** The framing invariant holds in every state that any interleaving reaches. */
  lemma {:induction false} RunInv(s: State, run: seq<Action>, s': State, init: bytes)
    requires Inv(s, init) && Exec(s, run) == Some(s')
    ensures Inv(s', init)
  {
    hide Inv, Next, Enabled;
    if run != [] {
      var mid := Exec(s, run[..|run| - 1]).value;
      RunInv(s, run[..|run| - 1], mid, init);
      StepInv(mid, run[|run| - 1], init);
    }
  }

  // ---- the shape of the file ----------------------------------------------

  ghost predicate ProperPrefix(tail: bytes, line: bytes) {
    |tail| < |line| && tail <= line
  }

  lemma {:induction false} TidyLast(h: seq<Attempt>)
    requires Tidy(h) && h != []
    ensures h == h[..|h| - 1] + [h[|h| - 1]] && Tidy(h[..|h| - 1])
  {
  }

  lemma {:induction false} HistoryShape(h: seq<Attempt>)
    requires Tidy(h)
    ensures Written(h) == Flatten(LinesOf(Framed(h))) + Residue(h)
    ensures AllLines(LinesOf(Framed(h)))
    ensures Residue(h) == [] <==> !HasPartial(h)
  {
    if h == [] {
      assert LinesOf(Framed(h)) == [];
    } else {
      hide *;
      TidyLast(h);
      HistoryShape(h[..|h| - 1]);
      ShapeStep(h[..|h| - 1], h[|h| - 1]);
    }
  }

  lemma {:induction false} ShapeStep(g: seq<Attempt>, a: Attempt)
    requires Tidy(g) && Tidy(g + [a])
    requires Written(g) == Flatten(LinesOf(Framed(g))) + Residue(g)
    requires AllLines(LinesOf(Framed(g)))
    requires Residue(g) == [] <==> !HasPartial(g)
    ensures Written(g + [a]) == Flatten(LinesOf(Framed(g + [a]))) + Residue(g + [a])
    ensures AllLines(LinesOf(Framed(g + [a])))
    ensures Residue(g + [a]) == [] <==> !HasPartial(g + [a])
  {
    Snoc(g, a);
    hide IsLine, Encodes, Written, HasPartial, Tidy, Framed, Flatten;
    assert Residue(g + [a]) == if a.result == Partial then Contribution(a) else Residue(g);
    if IsFramed(a) {
      assert Contribution(a) == a.line;
      FlattenSnoc(LinesOf(Framed(g)), a.line);
      assert LinesOf(Framed(g) + [a]) == LinesOf(Framed(g)) + [a.line];
      assert Residue(g) == [];
    } else {
      assert Framed(g) + [] == Framed(g);
      assert a.result != Partial ==> Contribution(a) == [];
    }
  }

  /** `tail` is a proper prefix of the line of a partial attempt. */
  ghost predicate FromPartial(tail: bytes, h: seq<Attempt>) {
    exists i :: 0 <= i < |h| && h[i].result == Partial && ProperPrefix(tail, h[i].line)
  }

  /** What a partial write left is a newline-free, proper prefix of the line it belonged to. */
  lemma {:induction false} ResidueShape(h: seq<Attempt>)
    requires Tidy(h)
    ensures NEWLINE !in Residue(h)
    ensures Residue(h) != [] ==> FromPartial(Residue(h), h)
  {
    if h != [] {
      hide *;
      TidyLast(h);
      ResidueShape(h[..|h| - 1]);
      ResidueStep(h[..|h| - 1], h[|h| - 1]);
    }
  }

  lemma {:induction false} ResidueStep(g: seq<Attempt>, a: Attempt)
    requires Tidy(g + [a])
    requires NEWLINE !in Residue(g) && (Residue(g) != [] ==> FromPartial(Residue(g), g))
    ensures var h := g + [a]; NEWLINE !in Residue(h) && (Residue(h) != [] ==> FromPartial(Residue(h), h))
  {
    Snoc(g, a);
    hide Encodes, IsLine, HasPartial, Framed, Written, ProperPrefix;
    var h := g + [a];
    if a.result == Partial {
      PartialContribution(a);
      assert h[|g|] == a;
    } else if Residue(h) != [] {
      var i :| 0 <= i < |g| && g[i].result == Partial && ProperPrefix(Residue(g), g[i].line);
      assert h[i] == g[i];
    }
  }

  lemma {:induction false} PartialContribution(a: Attempt)
    requires AttemptOk(a) && a.result == Partial
    ensures NEWLINE !in Contribution(a) && Contribution(a) != [] && ProperPrefix(Contribution(a), a.line)
  {
  }

  /** The whole lines written by this process, the one waiting for its fsync included. */
  ghost function WholeLines(s: State): seq<bytes> {
    LinesOf(Framed(s.history))
    + if s.lock.Some? && PhaseOf(s, s.lock.value).Syncing? then [PhaseOf(s, s.lock.value).line] else []
  }

  /** The unterminated end of the file: the holder's progress, or what a partial write left. */
  ghost function TornTail(s: State): bytes {
    if s.lock.Some? && PhaseOf(s, s.lock.value).Writing? then InFlight(s) else Residue(s.history)
  }

  /** In every reachable state: the initial bytes, whole lines in lock order, one newline-free proper prefix. */
  lemma {:induction false} FileShape(s: State, init: bytes)
    requires Inv(s, init)
    ensures s.file == init + Flatten(WholeLines(s)) + TornTail(s)
    ensures AllLines(WholeLines(s)) && NEWLINE !in TornTail(s)
    ensures TornTail(s) != [] ==>
              || (s.lock.Some? && PhaseOf(s, s.lock.value).Writing?
                  && ProperPrefix(TornTail(s), PhaseOf(s, s.lock.value).line))
              || (HasPartial(s.history)
                  && FromPartial(TornTail(s), s.history))
    ensures s.lock.None? ==> (TornTail(s) != [] <==> s.latched)
  {
    hide Encodes, Written, HasPartial, Tidy, AckedEnd, Framed, Flatten;
    HistoryShape(s.history);
    ResidueShape(s.history);
    var lines := LinesOf(Framed(s.history));
    if s.lock.Some? {
      assert PhaseOk(s, s.lock.value);
    }
    if s.lock.Some? && PhaseOf(s, s.lock.value).Syncing? {
      var p := PhaseOf(s, s.lock.value);
      EncodesLine(p.record, p.line);
      FlattenSnoc(lines, p.line);
    } else {
      assert WholeLines(s) == lines;
      if s.lock.Some? && PhaseOf(s, s.lock.value).Writing? {
        var p := PhaseOf(s, s.lock.value);
        EncodesLine(p.record, p.line);
      }
    }
  }

  // ---- what a step may change ---------------------------------------------

  /** The file and the history only grow, what is durable stays durable, a latch never clears. */
  lemma {:induction false} RunGrows(s: State, run: seq<Action>, init: bytes)
    requires Inv(s, init) && Exec(s, run).Some?
    ensures var s' := Exec(s, run).value;
            && s.file <= s'.file
            && s.history <= s'.history
            && s.durable <= s'.durable
            && (s.latched ==> s'.latched && s'.file == s.file)
            && s'.fsync == s.fsync
  {
    hide Inv;
    if run != [] {
      var mid := Exec(s, run[..|run| - 1]).value;
      RunGrows(s, run[..|run| - 1], init);
      RunInv(s, run[..|run| - 1], mid, init);
      StepGrows(mid, run[|run| - 1], init);
    }
  }

  lemma {:induction false} StepGrows(s: State, a: Action, init: bytes)
    requires Inv(s, init) && Enabled(s, a)
    ensures var s' := Next(s, a);
            && s.file <= s'.file
            && s.history <= s'.history
            && s.durable <= s'.durable
            && (s.latched ==> s'.latched && s'.file == s.file)
            && s'.fsync == s.fsync
  {
    hide Encodes, Written, HasPartial, Tidy, AckedEnd;
    if a.OsWrite? {
      assert PhaseOk(s, a.tid);
    }
  }

  // ---- no attempt is lost, repeated or reordered ---------------------------

  function TidsOf(h: seq<Attempt>): seq<Tid> {
    if h == [] then [] else TidsOf(h[..|h| - 1]) + [h[|h| - 1].tid]
  }

  /** The order in which the run handed out the lock to writers. */
  function Acquired(run: seq<Action>): seq<Tid> {
    if run == [] then []
    else
      var a := run[|run| - 1];
      Acquired(run[..|run| - 1]) + if a.Acquire? then [a.tid] else []
  }

  /** The holder whose result is not known yet. */
  ghost function Undecided(s: State): seq<Tid> {
    if s.lock.Some? && (PhaseOf(s, s.lock.value).Writing? || PhaseOf(s, s.lock.value).Syncing?)
    then [s.lock.value] else []
  }

  lemma {:induction false} StepOrder(s: State, a: Action, init: bytes)
    requires Inv(s, init) && Enabled(s, a)
    ensures TidsOf(Next(s, a).history) + Undecided(Next(s, a)) ==
            TidsOf(s.history) + Undecided(s) + if a.Acquire? then [a.tid] else []
  {
    StepUndecided(s, a, init);
    hide Inv, Enabled, Next, Outstanding, TidsOf, Undecided, PhaseOf;
    Assoc(TidsOf(s.history), Undecided(s), if a.Acquire? then [a.tid] else []);
    if Next(s, a).history != s.history {
      StepDecides(s, a);
      SnocAccount(s.history, Next(s, a).history[|s.history|], 0);
      assert TidsOf(Next(s, a).history) + [] == TidsOf(Next(s, a).history);
    }
  }

  lemma {:induction false} StepUndecided(s: State, a: Action, init: bytes)
    requires Inv(s, init) && Enabled(s, a)
    ensures Next(s, a).history == s.history ==>
              Undecided(Next(s, a)) == Undecided(s) + if a.Acquire? then [a.tid] else []
    ensures Next(s, a).history != s.history ==>
              && !a.Close? && Undecided(Next(s, a)) == []
              && Undecided(s) + (if a.Acquire? then [a.tid] else []) == [a.tid]
  {
    hide Encodes, Written, HasPartial, Tidy, AckedEnd;
    if !a.Close? {
      assert PhaseOk(s, a.tid);
    }
    if s.lock.Some? {
      assert PhaseOk(s, s.lock.value);
    }
  }

  /** The history lists the attempts in the order in which they took the lock. */
  lemma {:induction false} HistoryInLockOrder(s0: State, run: seq<Action>, init: bytes)
    requires Initial(s0, init) && Exec(s0, run).Some?
    ensures var s := Exec(s0, run).value; TidsOf(s.history) + Undecided(s) == Acquired(run)
  {
    if run != [] {
      hide Inv, Next, Enabled;
      var mid := Exec(s0, run[..|run| - 1]).value;
      HistoryInLockOrder(s0, run[..|run| - 1], init);
      InitialInv(s0, init);
      RunInv(s0, run[..|run| - 1], mid, init);
      StepOrder(mid, run[|run| - 1], init);
    }
  }

  function RecordsBy(h: seq<Attempt>, t: Tid): seq<Record> {
    if h == [] then []
    else
      var a := h[|h| - 1];
      RecordsBy(h[..|h| - 1], t) + if a.tid == t then [a.record] else []
  }

  function Submitted(run: seq<Action>, t: Tid): seq<Record> {
    if run == [] then []
    else
      var a := run[|run| - 1];
      Submitted(run[..|run| - 1], t) + if a.Submit? && a.tid == t then [a.record] else []
  }

  function Outstanding(p: Phase): seq<Record> {
    if p.Waiting? || p.Writing? || p.Syncing? then [p.record] else []
  }

  lemma {:induction false} SnocAccount(h: seq<Attempt>, a: Attempt, t: Tid)
    ensures RecordsBy(h + [a], t) == RecordsBy(h, t) + if a.tid == t then [a.record] else []
    ensures TidsOf(h + [a]) == TidsOf(h) + [a.tid]
  {
    assert (h + [a])[..|h|] == h;
  }

  /** Only the thread that steps moves. */
  lemma {:induction false} StepMoves(s: State, a: Action)
    requires Enabled(s, a)
    ensures forall u :: a.Close? || u != a.tid ==> PhaseOf(Next(s, a), u) == PhaseOf(s, u)
  {
    hide Encodes;
  }

  /** A step that decides nothing keeps the thread's record, or takes up a submitted one. */
  lemma {:induction false} StepKeepsRecord(s: State, a: Action)
    requires Enabled(s, a) && !a.Close? && Next(s, a).history == s.history
    ensures Outstanding(PhaseOf(Next(s, a), a.tid)) ==
            Outstanding(PhaseOf(s, a.tid)) + if a.Submit? then [a.record] else []
  {
    hide Encodes;
  }

  /** A step that decides an attempt takes the record from its thread into the history. */
  lemma {:induction false} StepDecides(s: State, a: Action)
    requires Enabled(s, a) && Next(s, a).history != s.history
    ensures !a.Close? && !a.Submit? && |Next(s, a).history| == |s.history| + 1
    ensures var last := Next(s, a).history[|s.history|];
            && Next(s, a).history == s.history + [last] && last.tid == a.tid
            && Outstanding(PhaseOf(s, a.tid)) == [last.record]
            && Outstanding(PhaseOf(Next(s, a), a.tid)) == []
  {
    hide Encodes;
  }

  lemma {:induction false} StepAccount(s: State, a: Action, t: Tid)
    requires Enabled(s, a)
    ensures RecordsBy(Next(s, a).history, t) + Outstanding(PhaseOf(Next(s, a), t)) ==
            RecordsBy(s.history, t) + Outstanding(PhaseOf(s, t)) +
            if a.Submit? && a.tid == t then [a.record] else []
  {
    hide Enabled, Next, Outstanding, RecordsBy, PhaseOf;
    StepMoves(s, a);
    var s' := Next(s, a);
    if s'.history != s.history {
      StepDecides(s, a);
      var last := s'.history[|s.history|];
      SnocAccount(s.history, last, t);
      if a.tid == t {
        assert RecordsBy(s'.history, t) + [] == RecordsBy(s.history, t) + [last.record] + [];
      }
    } else if !a.Close? && a.tid == t {
      StepKeepsRecord(s, a);
      assert a.Submit? ==> RecordsBy(s.history, t) + (Outstanding(PhaseOf(s, t)) + [a.record]) ==
                           RecordsBy(s.history, t) + Outstanding(PhaseOf(s, t)) + [a.record];
    }
  }

  /** Every submission of a thread is attempted once, in that thread's order, and nothing else is attempted. */
  lemma {:induction false} SubmissionsAttempted(s0: State, run: seq<Action>, t: Tid)
    requires s0.history == [] && s0.phases == map[] && Exec(s0, run).Some?
    ensures var s := Exec(s0, run).value;
            RecordsBy(s.history, t) + Outstanding(PhaseOf(s, t)) == Submitted(run, t)
  {
    if run != [] {
      hide Next, Enabled;
      var mid := Exec(s0, run[..|run| - 1]).value;
      SubmissionsAttempted(s0, run[..|run| - 1], t);
      StepAccount(mid, run[|run| - 1], t);
    }
  }
}
