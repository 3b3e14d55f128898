/** The sink classes over an adversarial kernel. Every call is proved to be a run of the framed log machine. */
module Sinks {
  import opened Basics
  import opened Records
  import opened LineCodec
  import opened Descriptors
  import F = FramedLog

  /** One call of the kernel and its answer. */
  datatype KernelCall =
    | Opened(ok: bool)
    | Statted(ok: bool)
    | DirectorySynced(ok: bool)
    | Wrote(fd: Fd, offered: bytes, n: int)
    | Synced(fd: Fd, ok: bool)
    | Closed(fd: Fd, ok: bool)

  /** The kernel as the process sees it; which calls fail, and how short a write is, is chosen freely. `said` lists the
      calls that were really made. */
  class Os {
    var files: map<Identity, bytes>
    var durable: map<Identity, nat>
    var open: map<Fd, Identity>
    ghost var said: seq<KernelCall>

    constructor ()
      ensures files == map[] && durable == map[] && open == map[] && said == []
    {
      files, durable, open, said := map[], map[], map[], [];
    }

    ghost predicate Holds(fd: Fd, id: Identity)
      reads this
    {
      fd in open && open[fd] == id && id in files && id in durable
    }

    /** `os.open` of a path that names `target`, creating it if need be; None is OSError. */
    method OpenFile(target: Identity, free: Fd) returns (fd: Option<Fd>)
      requires free !in open
      modifies this
      ensures said == old(said) + [Opened(fd.Some?)]
      ensures fd.None? ==> open == old(open) && files == old(files) && durable == old(durable)
      ensures fd.Some? ==> fd.value == free && open == old(open)[free := target] && Holds(free, target)
      ensures fd.Some? ==> files == (if target in old(files) then old(files) else old(files)[target := []])
      ensures fd.Some? ==> durable == (if target in old(durable) then old(durable) else old(durable)[target := 0])
    {
      var fails: bool := *;
      said := said + [Opened(!fails)];
      if fails {
        return None;
      }
      if target !in files {
        files := files[target := []];
      }
      if target !in durable {
        durable := durable[target := 0];
      }
      open := open[free := target];
      return Some(free);
    }

    method Fstat(fd: Fd) returns (id: Option<Identity>)
      requires fd in open
      modifies this`said
      ensures id.Some? ==> id.value == open[fd]
      ensures said == old(said) + [Statted(id.Some?)]
    {
      var fails: bool := *;
      said := said + [Statted(!fails)];
      return if fails then None else Some(open[fd]);
    }

    /** `os.fsync` of the containing directory. */
    method FsyncDirectory() returns (ok: bool)
      modifies this`said
      ensures said == old(said) + [DirectorySynced(ok)]
    {
      ok := *;
      said := said + [DirectorySynced(ok)];
    }

    /** One `os.write` in append mode: the bytes taken, anything at or below zero for the error return. */
    method Write(fd: Fd, data: bytes) returns (n: int)
      requires fd in open && open[fd] in files
      modifies this`files, this`said
      ensures n <= |data| && said == old(said) + [Wrote(fd, data, n)]
      ensures n > 0 ==> files == old(files)[open[fd] := old(files)[open[fd]] + data[..n]]
      ensures n <= 0 ==> files == old(files)
    {
      n := *;
      if n > |data| {
        n := |data|;
      }
      said := said + [Wrote(fd, data, n)];
      if n > 0 {
        files := files[open[fd] := files[open[fd]] + data[..n]];
      }
    }

    method Fsync(fd: Fd) returns (ok: bool)
      requires fd in open && open[fd] in files
      modifies this`durable, this`said
      ensures said == old(said) + [Synced(fd, ok)]
      ensures ok ==> durable == old(durable)[open[fd] := |files[open[fd]]|]
      ensures !ok ==> durable == old(durable)
    {
      ok := *;
      said := said + [Synced(fd, ok)];
      if ok {
        durable := durable[open[fd] := |files[open[fd]]|];
      }
    }

    /** `os.close`: the descriptor is gone even when an error is reported. */
    method CloseFd(fd: Fd) returns (ok: bool)
      modifies this`open, this`said
      ensures open == old(open) - {fd} && said == old(said) + [Closed(fd, ok)]
    {
      open := open - {fd};
      ok := *;
      said := said + [Closed(fd, ok)];
    }
  }

  /** Shared state of one file identity. */
  class StreamState {
    const kind: StreamKind
    var latched: bool

    constructor (kind: StreamKind)
      ensures this.kind == kind && !latched
    {
      this.kind := kind;
      latched := false;
    }
  }

  class StreamRegistry {
    var streams: map<Identity, StreamState>

    constructor ()
      ensures streams == map[]
    {
      streams := map[];
    }

    ghost function Kinds(): map<Identity, StreamKind>
      reads this
    {
      map id | id in streams :: streams[id].kind
    }

    method Register(id: Identity, kind: StreamKind) returns (r: Result<StreamState, ExnClass>)
      modifies this
      ensures match Registered(old(Kinds()), id, kind)
              case None => r == Err(ConfigurationError) && streams == old(streams)
              case Some(kinds) =>
                Kinds() == kinds && r.Ok? && id in streams && r.value == streams[id] && r.value.kind == kind
      ensures id in old(streams) ==> streams == old(streams)
      ensures id !in old(streams) ==>
                r.Ok? && fresh(r.value) && !r.value.latched && streams == old(streams)[id := r.value]
    {
      if id !in streams {
        var state := new StreamState(kind);
        streams := streams[id := state];
        return Ok(state);
      }
      if streams[id].kind != kind {
        return Err(ConfigurationError);
      }
      return Ok(streams[id]);
    }
  }

  // ---- one critical section -----------------------------------------------

  lemma {:induction false} Extend(s: F.State, run: seq<F.Action>, mid: F.State, a: F.Action)
    requires F.Exec(s, run) == Some(mid) && F.Enabled(mid, a)
    ensures F.Exec(s, run + [a]) == Some(F.Next(mid, a))
  {
    assert (run + [a])[..|run|] == run;
  }

  /** `thread` is in its critical section with nothing of `data` written. */
  ghost predicate AboutToWrite(s: F.State, thread: F.Tid, data: bytes) {
    && F.PhaseOf(s, thread).Writing?
    && s.phases[thread].line == data
    && s.phases[thread].written == 0
  }

  /** The machine state while `write_completely` runs. */
  ghost function Progress(s: F.State, thread: F.Tid, file: bytes, written: nat): F.State
    requires F.PhaseOf(s, thread).Writing?
  {
    s.(file := file, phases := s.phases[thread := s.phases[thread].(written := written)])
  }

  /** The machine state when `write_completely` returns. */
  ghost function Decided(s: F.State, thread: F.Tid, file: bytes, durable: nat, written: nat,
                         result: F.WriteResult): F.State
    requires F.PhaseOf(s, thread).Writing?
  {
    var p := s.phases[thread];
    s.(file := file, durable := durable,
       phases := s.phases[thread := if result == F.Partial then F.Latching else F.Releasing],
       history := s.history + [F.Attempt(thread, p.sink, p.record, p.line, written, result)])
  }

  /** The machine state once every byte is out: an audit stream still owes its fsync. */
  ghost function AfterLastByte(s: F.State, thread: F.Tid, file: bytes): F.State
    requires F.PhaseOf(s, thread).Writing?
  {
    var p := s.phases[thread];
    if s.fsync then s.(file := file, phases := s.phases[thread := F.Syncing(p.sink, p.record, p.line)])
    else Decided(s, thread, file, s.durable, |p.line|, F.Complete)
  }

  lemma {:induction false} TwiceUpdated<K, V>(m: map<K, V>, k: K, v: V, w: V)
    ensures m[k := v][k := w] == m[k := w]
  {
  }

  lemma {:induction false} WriteStarts(s: F.State, thread: F.Tid, data: bytes)
    requires AboutToWrite(s, thread, data)
    ensures F.Exec(s, []) == Some(Progress(s, thread, s.file, 0))
  {
    assert s.phases[thread := s.phases[thread].(written := 0)] == s.phases;
  }

  lemma {:induction false} WriteStops(s: F.State, thread: F.Tid, file: bytes, written: nat, n: int)
    requires F.PhaseOf(s, thread).Writing? && written < |s.phases[thread].line| && n <= 0
    ensures F.Next(Progress(s, thread, file, written), F.OsWrite(thread, n)) ==
            Decided(s, thread, file, s.durable, written, if written > 0 then F.Partial else F.Nothing)
  {
    var p := s.phases[thread];
    TwiceUpdated(s.phases, thread, p.(written := written), F.Latching);
    TwiceUpdated(s.phases, thread, p.(written := written), F.Releasing);
  }

  lemma {:induction false} WriteGoesOn(s: F.State, thread: F.Tid, file: bytes, written: nat, n: int)
    requires F.PhaseOf(s, thread).Writing? && 0 < n <= |s.phases[thread].line| - written
    ensures var p := s.phases[thread];
            var grown := file + p.line[written..written + n];
            F.Next(Progress(s, thread, file, written), F.OsWrite(thread, n)) ==
            if written + n < |p.line| then Progress(s, thread, grown, written + n) else AfterLastByte(s, thread, grown)
  {
    var p := s.phases[thread];
    TwiceUpdated(s.phases, thread, p.(written := written), p.(written := written + n));
    TwiceUpdated(s.phases, thread, p.(written := written), F.Syncing(p.sink, p.record, p.line));
    TwiceUpdated(s.phases, thread, p.(written := written), F.Releasing);
  }

  lemma {:induction false} FsyncDecides(s: F.State, thread: F.Tid, file: bytes, ok: bool)
    requires F.PhaseOf(s, thread).Writing? && s.fsync
    ensures F.Enabled(AfterLastByte(s, thread, file), F.OsFsync(thread, ok))
    ensures F.Next(AfterLastByte(s, thread, file), F.OsFsync(thread, ok)) ==
            Decided(s, thread, file, if ok then |file| else s.durable, |s.phases[thread].line|,
                    if ok then F.Complete else F.SyncFailed)
  {
    var p := s.phases[thread];
    TwiceUpdated(s.phases, thread, F.Syncing(p.sink, p.record, p.line), F.Releasing);
  }

  lemma {:induction false} AppendSlice(file: bytes, data: bytes, sent: nat, n: nat)
    requires sent + n <= |data|
    ensures data[sent..][..n] == data[sent..sent + n]
    ensures file + data[..sent] + data[sent..sent + n] == file + data[..sent + n]
  {
  }

  /** How many bytes the writes of a run have taken. */
  ghost function Sent(run: seq<F.Action>): nat {
    if run == [] then 0
    else
      Sent(run[..|run| - 1])
      + if run[|run| - 1].OsWrite? && run[|run| - 1].n > 0 then run[|run| - 1].n else 0
  }

  /** The kernel calls that a run stands for: each write offers all that is left of the line. */
  ghost function Calls(fd: Fd, line: bytes, run: seq<F.Action>): seq<KernelCall> {
    if run == [] then []
    else
      var before := run[..|run| - 1];
      Calls(fd, line, before)
      + match run[|run| - 1]
        case OsWrite(_, n) => if Sent(before) <= |line| then [Wrote(fd, line[Sent(before)..], n)] else []
        case OsFsync(_, ok) => [Synced(fd, ok)]
        case _ => []
  }

  lemma {:induction false} CallsSnoc(fd: Fd, line: bytes, run: seq<F.Action>, a: F.Action)
    ensures Sent(run + [a]) == Sent(run) + if a.OsWrite? && a.n > 0 then a.n else 0
    ensures a.OsWrite? && Sent(run) <= |line| ==>
              Calls(fd, line, run + [a]) == Calls(fd, line, run) + [Wrote(fd, line[Sent(run)..], a.n)]
    ensures a.OsFsync? ==> Calls(fd, line, run + [a]) == Calls(fd, line, run) + [Synced(fd, a.ok)]
    ensures !a.OsWrite? && !a.OsFsync? ==> Calls(fd, line, run + [a]) == Calls(fd, line, run)
  {
    assert (run + [a])[..|run|] == run;
  }

  /** What enters and leaves the critical section makes no kernel call. */
  lemma {:induction false} CallsBetween(fd: Fd, line: bytes, enter: seq<F.Action>, steps: seq<F.Action>)
    requires Sent(enter) == 0 && Calls(fd, line, enter) == []
    ensures Sent(enter + steps) == Sent(steps) && Calls(fd, line, enter + steps) == Calls(fd, line, steps)
  {
    if steps == [] {
      assert enter + steps == enter;
    } else {
      CallsBetween(fd, line, enter, steps[..|steps| - 1]);
      assert (enter + steps)[..|enter + steps| - 1] == enter + steps[..|steps| - 1];
    }
  }

  lemma {:induction false} CallsOfCall(fd: Fd, line: bytes, submit: F.Action, acquire: F.Action, steps: seq<F.Action>,
                                       thread: F.Tid, result: F.WriteResult)
    requires submit.Submit? && acquire.Acquire?
    ensures Calls(fd, line, [submit, acquire] + steps + Leaving(thread, result)) == Calls(fd, line, steps)
    ensures Calls(fd, line, [submit, acquire] + [F.Release(thread)]) == []
  {
    CallsSnoc(fd, line, [], submit);
    assert [] + [submit] == [submit] && [submit] + [acquire] == [submit, acquire];
    CallsSnoc(fd, line, [submit], acquire);
    CallsSnoc(fd, line, [submit, acquire], F.Release(thread));
    CallsBetween(fd, line, [submit, acquire], steps);
    var run := [submit, acquire] + steps;
    CallsSnoc(fd, line, run, F.Release(thread));
    if result == F.Partial {
      CallsSnoc(fd, line, run, F.Latch(thread));
      CallsSnoc(fd, line, run + [F.Latch(thread)], F.Release(thread));
      assert run + [F.Latch(thread)] + [F.Release(thread)] == run + Leaving(thread, result);
    }
  }

  lemma {:induction false} NoCalls(fd: Fd, line: bytes)
    ensures Calls(fd, line, []) == [] && Sent([]) == 0
  {
  }

  /** The last call was a write that made progress, to the end of the line exactly if all is out. */
  ghost predicate LastTook(last: KernelCall, all: bool) {
    last.Wrote? && last.n > 0 && (all <==> last.n == |last.offered|)
  }

  /** How the attempt ended, by the last answer of the kernel. */
  ghost predicate EndedBy(result: F.WriteResult, last: KernelCall, doFsync: bool) {
    match result
    case Partial => last.Wrote? && last.n <= 0
    case Nothing => last.Wrote? && last.n <= 0
    case SyncFailed => doFsync && last.Synced? && !last.ok
    case Complete => if doFsync then last.Synced? && last.ok else last.Wrote? && last.n == |last.offered| > 0
    case Refused => false
  }

  /** The completion loop, the optional fsync and the classification of the outcome, by what the kernel really said. */
  method WriteCompletely(os: Os, fd: Fd, data: bytes, doFsync: bool, ghost id: Identity,
                         ghost s: F.State, ghost thread: F.Tid)
    returns (result: F.WriteResult, ghost run: seq<F.Action>, ghost written: nat)
    requires os.Holds(fd, id) && data != [] && AboutToWrite(s, thread, data)
    requires s.file == os.files[id] && s.durable == os.durable[id] && s.fsync == doFsync
    modifies os`files, os`durable, os`said
    ensures os.said == old(os.said) + Calls(fd, data, run)
    ensures |Calls(fd, data, run)| > 0 && EndedBy(result, os.said[|os.said| - 1], doFsync)
    ensures os.Holds(fd, id) && written <= |data|
    ensures os.files == old(os.files)[id := old(os.files)[id] + data[..written]]
    ensures os.durable == if result == F.Complete && doFsync
                          then old(os.durable)[id := |os.files[id]|] else old(os.durable)
    ensures result == F.Nothing <==> written == 0
    ensures result == F.Partial <==> 0 < written < |data|
    ensures result == F.Complete || result == F.SyncFailed <==> written == |data|
    ensures F.Exec(s, run) == Some(Decided(s, thread, os.files[id], os.durable[id], written, result))
  {
    hide F.Exec, F.Encodes, F.Next, AfterLastByte, Decided, Calls, Sent;
    ghost var file := os.files[id];
    run := [];
    var sent := 0;
    WriteStarts(s, thread, data);
    assert Calls(fd, data, run) == [] && Sent(run) == 0 by { NoCalls(fd, data); }
    assert file + data[..0] == file && os.files[id := file] == os.files;
    while sent < |data|
      invariant sent <= |data| && os.Holds(fd, id)
      invariant os.files == old(os.files)[id := file + data[..sent]]
      invariant os.durable == old(os.durable)
      invariant os.said == old(os.said) + Calls(fd, data, run) && Sent(run) == sent
      invariant sent > 0 ==> |Calls(fd, data, run)| > 0 && LastTook(os.said[|os.said| - 1], sent == |data|)
      invariant F.Exec(s, run) == Some(if sent < |data| then Progress(s, thread, file + data[..sent], sent)
                                       else AfterLastByte(s, thread, file + data[..sent]))
    {
      var n := os.Write(fd, data[sent..]);
      Extend(s, run, Progress(s, thread, file + data[..sent], sent), F.OsWrite(thread, n));
      CallsSnoc(fd, data, run, F.OsWrite(thread, n));
      run := run + [F.OsWrite(thread, n)];
      if n <= 0 {
        WriteStops(s, thread, file + data[..sent], sent, n);
        break;
      }
      WriteGoesOn(s, thread, file + data[..sent], sent, n);
      AppendSlice(file, data, sent, n);
      sent := sent + n;
    }
    written := sent;
    if sent != |data| {
      result := if sent > 0 then F.Partial else F.Nothing;
      return;
    }
    result := F.Complete;
    if doFsync {
      var ok := os.Fsync(fd);
      FsyncDecides(s, thread, os.files[id], ok);
      Extend(s, run, AfterLastByte(s, thread, os.files[id]), F.OsFsync(thread, ok));
      CallsSnoc(fd, data, run, F.OsFsync(thread, ok));
      run := run + [F.OsFsync(thread, ok)];
      if !ok {
        result := F.SyncFailed;
      }
    } else {
      assert AfterLastByte(s, thread, os.files[id]) ==
             Decided(s, thread, os.files[id], s.durable, |data|, F.Complete) by {
        CompleteWithoutFsync(s, thread, os.files[id]);
      }
    }
  }

  lemma {:induction false} CompleteWithoutFsync(s: F.State, thread: F.Tid, file: bytes)
    requires F.PhaseOf(s, thread).Writing? && !s.fsync
    ensures AfterLastByte(s, thread, file) == Decided(s, thread, file, s.durable, |s.phases[thread].line|, F.Complete)
  {
  }

  // ---- a whole call -------------------------------------------------------

  /** The machine state after a call whose attempt was `a`, the lock free again. */
  ghost function Finished(s: F.State, a: F.Attempt, file: bytes, durable: nat): F.State {
    s.(file := file, durable := durable, latched := s.latched || a.result == F.Partial,
       phases := s.phases[a.tid := F.Idle], history := s.history + [a])
  }

  /** The thread holds the lock, about to write. */
  ghost function Entered(s: F.State, thread: F.Tid, sink: F.SinkId, record: Record, line: bytes): F.State {
    s.(lock := Some(thread), phases := s.phases[thread := F.Writing(sink, record, line, 0)])
  }

  lemma {:induction false} Enter(s: F.State, thread: F.Tid, sink: F.SinkId, record: Record, line: bytes)
    requires s.lock.None? && F.PhaseOf(s, thread).Idle? && F.Encodes(record, line)
    ensures var run := [F.Submit(thread, sink, record, line), F.Acquire(thread)];
            && (sink in s.closed || s.latched ==>
                  F.Exec(s, run + [F.Release(thread)]) ==
                  Some(Finished(s, F.Attempt(thread, sink, record, line, 0, F.Refused), s.file, s.durable)))
            && (sink !in s.closed && !s.latched ==>
                  F.Exec(s, run) == Some(Entered(s, thread, sink, record, line)))
  {
    hide F.Encodes, F.Exec;
    var submit, acquire, release := F.Submit(thread, sink, record, line), F.Acquire(thread), F.Release(thread);
    ExecNothing(s);
    Extend(s, [], s, submit);
    var waiting := F.Next(s, submit);
    assert [] + [submit] == [submit] && [submit] + [acquire] == [submit, acquire];
    Extend(s, [submit], waiting, acquire);
    var p := F.Waiting(sink, record, line);
    TwiceUpdated(s.phases, thread, p, F.Writing(sink, record, line, 0));
    TwiceUpdated(s.phases, thread, p, F.Releasing);
    TwiceUpdated(s.phases, thread, F.Releasing, F.Idle);
    if sink in s.closed || s.latched {
      Extend(s, [submit, acquire], F.Next(waiting, acquire), release);
    }
  }

  lemma {:induction false} ExecNothing(s: F.State)
    ensures F.Exec(s, []) == Some(s)
  {
  }

  lemma {:induction false} ExecTwice(s: F.State, first: seq<F.Action>, second: seq<F.Action>)
    requires F.Exec(s, first).Some?
    ensures F.Exec(s, first + second) == F.Exec(F.Exec(s, first).value, second)
  {
    hide F.Next, F.Enabled;
    if second == [] {
      assert first + second == first;
    } else {
      var init := second[..|second| - 1];
      ExecTwice(s, first, init);
      assert (first + second)[..|first + second| - 1] == first + init;
    }
  }

  /** The actions that end the critical section. */
  ghost function Leaving(thread: F.Tid, result: F.WriteResult): seq<F.Action> {
    if result == F.Partial then [F.Latch(thread), F.Release(thread)] else [F.Release(thread)]
  }

  lemma {:induction false} Leave(s: F.State, thread: F.Tid, sink: F.SinkId, record: Record, line: bytes,
                                 file: bytes, durable: nat, written: nat, result: F.WriteResult)
    requires s.lock.None?
    ensures F.Exec(Decided(Entered(s, thread, sink, record, line), thread, file, durable, written, result),
                   Leaving(thread, result)) ==
            Some(Finished(s, F.Attempt(thread, sink, record, line, written, result), file, durable))
  {
    hide F.Exec;
    var e := Entered(s, thread, sink, record, line);
    var d := Decided(e, thread, file, durable, written, result);
    TwiceUpdated(s.phases, thread, F.Writing(sink, record, line, 0), F.Releasing);
    TwiceUpdated(s.phases, thread, F.Writing(sink, record, line, 0), F.Latching);
    TwiceUpdated(s.phases, thread, F.Latching, F.Releasing);
    TwiceUpdated(s.phases, thread, F.Releasing, F.Idle);
    ExecNothing(d);
    if result == F.Partial {
      Extend(d, [], d, F.Latch(thread));
      assert [] + [F.Latch(thread)] == [F.Latch(thread)];
      Extend(d, [F.Latch(thread)], F.Next(d, F.Latch(thread)), F.Release(thread));
      assert [F.Latch(thread)] + [F.Release(thread)] == Leaving(thread, result);
    } else {
      Extend(d, [], d, F.Release(thread));
      assert [] + [F.Release(thread)] == Leaving(thread, result);
    }
  }

  lemma {:induction false} EnteredShape(s: F.State, thread: F.Tid, sink: F.SinkId, record: Record, line: bytes)
    ensures var e := Entered(s, thread, sink, record, line);
            AboutToWrite(e, thread, line) && e.file == s.file && e.durable == s.durable && e.fsync == s.fsync
  {
  }

  /** Entering, writing and leaving make one run. */
  lemma {:induction false} WholeCall(s: F.State, enter: seq<F.Action>, steps: seq<F.Action>, a: F.Attempt,
                                     file: bytes, durable: nat)
    requires s.lock.None?
    requires F.Exec(s, enter) == Some(Entered(s, a.tid, a.sink, a.record, a.line))
    requires F.Exec(Entered(s, a.tid, a.sink, a.record, a.line), steps) ==
             Some(Decided(Entered(s, a.tid, a.sink, a.record, a.line), a.tid, file, durable, a.written, a.result))
    ensures F.Exec(s, enter + steps + Leaving(a.tid, a.result)) == Some(Finished(s, a, file, durable))
  {
    hide F.Exec, Decided, Entered, Leaving;
    ExecTwice(s, enter, steps);
    ExecTwice(s, enter + steps, Leaving(a.tid, a.result));
    Leave(s, a.tid, a.sink, a.record, a.line, file, durable, a.written, a.result);
  }

  // ---- the audit sink: fails hard, durable when it returns ----------------

  class JsonlAuditSink {
    const os: Os
    const fd: Fd
    const state: StreamState
    ghost const id: Identity
    ghost const name: F.SinkId
    var closed: bool

    constructor (os: Os, fd: Fd, state: StreamState, ghost id: Identity, ghost name: F.SinkId)
      ensures this.os == os && this.fd == fd && this.state == state && this.id == id && this.name == name
      ensures !closed
    {
      this.os, this.fd, this.state, this.id, this.name := os, fd, state, id, name;
      closed := false;
    }

    ghost predicate Valid()
      reads this, os
    {
      state.kind == AuditKind && id in os.files && id in os.durable && (!closed ==> os.Holds(fd, id))
    }

    /** `s` is the machine's picture of this file while the lock is free. */
    ghost predicate Shows(s: F.State)
      reads this, os, state
    {
      && id in os.files && s.file == os.files[id]
      && id in os.durable && s.durable == os.durable[id]
      && s.latched == state.latched
      && s.fsync == true && s.lock.None?
      && (name in s.closed <==> closed)
    }

    /** `d` is a picture of the process in which this sink stands as it is. */
    ghost predicate StandsIn(d: State)
      reads this, os, state
    {
      && d.open == os.open && name in d.sinks && d.sinks[name] == Sink(fd, id, AuditKind, true, closed)
      && (id in d.latched <==> state.latched)
    }

    /** `append`: Ok only once the whole line is written and synced; any other end is an error. */
    method Append(record: Record, ghost s: F.State, ghost thread: F.Tid)
      returns (r: Result<(), ExnClass>, ghost run: seq<F.Action>, ghost attempt: Option<F.Attempt>)
      requires Valid() && Shows(s) && F.PhaseOf(s, thread).Idle? && Constructible(record)
      modifies os`files, os`durable, os`said, state`latched
      ensures Valid()
      ensures F.Exec(s, run).Some? && Shows(F.Exec(s, run).value)
      ensures !record.kind.Audit? ==> r == Err(SchemaError)
      ensures record.kind.Audit? && EncodeLine(record).Err? ==> r == Err(EncodeLine(record).error)
      ensures attempt.None? <==> !record.kind.Audit? || EncodeLine(record).Err?
      ensures attempt.None? ==> run == [] && os.said == old(os.said)
      ensures attempt.Some? ==> os.said == old(os.said) + Calls(fd, attempt.value.line, run)
      ensures attempt.Some? ==>
                var a := attempt.value;
                && a.tid == thread && a.sink == name && a.record == record && EncodeLine(record) == Ok(a.line)
                && (a.result == F.Refused <==> closed || old(state.latched))
                && r == (if a.result == F.Complete then Ok(()) else Err(PersistenceError))
                && F.Exec(s, run) == Some(Finished(s, a, os.files[id], os.durable[id]))
      ensures os.files == old(os.files)[id := os.files[id]] && os.durable == old(os.durable)[id := os.durable[id]]
      ensures attempt.Some? ==>
                forall d :: old(StandsIn(d)) ==>
                  StandsIn(Next(d, Descriptors.Write(name, attempt.value.result == F.Partial)))
      ensures attempt.None? ==> state.latched == old(state.latched)
    {
      hide EncodeLine, F.Exec, Decided, Entered, Calls;
      run, attempt := [], None;
      ExecNothing(s);
      assert os.files[id := os.files[id]] == os.files && os.durable[id := os.durable[id]] == os.durable;
      if !record.kind.Audit? {
        return Err(SchemaError), run, attempt;
      }
      var encoded := EncodeLine(record);
      if encoded.Err? {
        return Err(encoded.error), run, attempt;
      }
      var data := encoded.value;
      Enter(s, thread, name, record, data);
      run := [F.Submit(thread, name, record, data), F.Acquire(thread)];
      CallsOfCall(fd, data, run[0], run[1], [], thread, F.Refused);
      if closed || state.latched {
        run := run + [F.Release(thread)];
        attempt := Some(F.Attempt(thread, name, record, data, 0, F.Refused));
        return Err(PersistenceError), run, attempt;
      }
      ghost var entered := Entered(s, thread, name, record, data);
      EnteredShape(s, thread, name, record, data);
      F.EncodesLine(record, data);
      ghost var steps, written;
      var result;
      result, steps, written := WriteCompletely(os, fd, data, true, id, entered, thread);
      if result == F.Partial {
        state.latched := true;
      }
      attempt := Some(F.Attempt(thread, name, record, data, written, result));
      WholeCall(s, run, steps, attempt.value, os.files[id], os.durable[id]);
      CallsOfCall(fd, data, run[0], run[1], steps, thread, result);
      run := run + steps + Leaving(thread, result);
      r := if result == F.Complete then Ok(()) else Err(PersistenceError);
    }

    /** `close`: gives back this instance's descriptor once; the stream state stays. */
    method Close(ghost s: F.State) returns (r: Result<(), ExnClass>, ghost run: seq<F.Action>)
      requires Valid() && Shows(s)
      modifies this`closed, os`open, os`said
      ensures Valid() && closed
      ensures os.open == if old(closed) then old(os.open) else old(os.open) - {fd}
      ensures old(closed) ==> r == Ok(())
      ensures r == Ok(()) || r == Err(PersistenceError)
      ensures os.said == old(os.said) + if old(closed) then [] else [Closed(fd, r.Ok?)]
      ensures F.Exec(s, run) == Some(s.(closed := s.closed + {name})) && Shows(s.(closed := s.closed + {name}))
      ensures forall d :: old(StandsIn(d)) ==> StandsIn(Next(d, Descriptors.Close(name)))
    {
      ExecNothing(s);
      Extend(s, [], s, F.Close(name));
      run := [] + [F.Close(name)];
      r := Ok(());
      if !closed {
        closed := true;
        var ok := os.CloseFd(fd);
        if !ok {
          r := Err(PersistenceError);
        }
      }
    }
  }

  // ---- the operational sink: fails open, no fsync ---------------------------

  class JsonlSink {
    const os: Os
    const fd: Fd
    const state: StreamState
    ghost const id: Identity
    ghost const name: F.SinkId
    var closed: bool

    constructor (os: Os, fd: Fd, state: StreamState, ghost id: Identity, ghost name: F.SinkId)
      ensures this.os == os && this.fd == fd && this.state == state && this.id == id && this.name == name
      ensures !closed
    {
      this.os, this.fd, this.state, this.id, this.name := os, fd, state, id, name;
      closed := false;
    }

    ghost predicate Valid()
      reads this, os
    {
      state.kind == OperationalKind && id in os.files && id in os.durable && (!closed ==> os.Holds(fd, id))
    }

    /** `s` is the machine's picture of this file while the lock is free. */
    ghost predicate Shows(s: F.State)
      reads this, os, state
    {
      && id in os.files && s.file == os.files[id]
      && id in os.durable && s.durable == os.durable[id]
      && s.latched == state.latched
      && s.fsync == false && s.lock.None?
      && (name in s.closed <==> closed)
    }

    /** `d` is a picture of the process in which this sink stands as it is. */
    ghost predicate StandsIn(d: State)
      reads this, os, state
    {
      && d.open == os.open && name in d.sinks && d.sinks[name] == Sink(fd, id, OperationalKind, true, closed)
      && (id in d.latched <==> state.latched)
    }

    /** `write`: Ok once the whole line is written. */
    method Write(record: Record, ghost s: F.State, ghost thread: F.Tid)
      returns (r: Result<(), ExnClass>, ghost run: seq<F.Action>, ghost attempt: Option<F.Attempt>)
      requires Valid() && Shows(s) && F.PhaseOf(s, thread).Idle? && Constructible(record)
      modifies os`files, os`durable, os`said, state`latched
      ensures Valid()
      ensures F.Exec(s, run).Some? && Shows(F.Exec(s, run).value)
      ensures !record.kind.Operational? ==> r == Err(SchemaError)
      ensures record.kind.Operational? && EncodeLine(record).Err? ==> r == Err(EncodeLine(record).error)
      ensures attempt.None? <==> !record.kind.Operational? || EncodeLine(record).Err?
      ensures attempt.None? ==> run == [] && os.said == old(os.said)
      ensures attempt.Some? ==> os.said == old(os.said) + Calls(fd, attempt.value.line, run)
      ensures attempt.Some? ==>
                var a := attempt.value;
                && a.tid == thread && a.sink == name && a.record == record && EncodeLine(record) == Ok(a.line)
                && (a.result == F.Refused <==> closed || old(state.latched))
                && r == (if a.result == F.Complete then Ok(()) else Err(SinkError))
                && F.Exec(s, run) == Some(Finished(s, a, os.files[id], os.durable[id]))
      ensures os.files == old(os.files)[id := os.files[id]] && os.durable == old(os.durable)[id := os.durable[id]]
      ensures attempt.Some? ==>
                forall d :: old(StandsIn(d)) ==>
                  StandsIn(Next(d, Descriptors.Write(name, attempt.value.result == F.Partial)))
      ensures attempt.None? ==> state.latched == old(state.latched)
    {
      hide EncodeLine, F.Exec, Decided, Entered, Calls;
      run, attempt := [], None;
      ExecNothing(s);
      assert os.files[id := os.files[id]] == os.files && os.durable[id := os.durable[id]] == os.durable;
      if !record.kind.Operational? {
        return Err(SchemaError), run, attempt;
      }
      var encoded := EncodeLine(record);
      if encoded.Err? {
        return Err(encoded.error), run, attempt;
      }
      var data := encoded.value;
      Enter(s, thread, name, record, data);
      run := [F.Submit(thread, name, record, data), F.Acquire(thread)];
      CallsOfCall(fd, data, run[0], run[1], [], thread, F.Refused);
      if closed || state.latched {
        run := run + [F.Release(thread)];
        attempt := Some(F.Attempt(thread, name, record, data, 0, F.Refused));
        return Err(SinkError), run, attempt;
      }
      ghost var entered := Entered(s, thread, name, record, data);
      EnteredShape(s, thread, name, record, data);
      F.EncodesLine(record, data);
      ghost var steps, written;
      var result;
      result, steps, written := WriteCompletely(os, fd, data, false, id, entered, thread);
      if result == F.Partial {
        state.latched := true;
      }
      attempt := Some(F.Attempt(thread, name, record, data, written, result));
      WholeCall(s, run, steps, attempt.value, os.files[id], os.durable[id]);
      CallsOfCall(fd, data, run[0], run[1], steps, thread, result);
      run := run + steps + Leaving(thread, result);
      r := if result == F.Complete then Ok(()) else Err(SinkError);
    }

    /** `close`: gives back this instance's descriptor once; the stream state stays. */
    method Close(ghost s: F.State) returns (r: Result<(), ExnClass>, ghost run: seq<F.Action>)
      requires Valid() && Shows(s)
      modifies this`closed, os`open, os`said
      ensures Valid() && closed
      ensures os.open == if old(closed) then old(os.open) else old(os.open) - {fd}
      ensures old(closed) ==> r == Ok(())
      ensures r == Ok(()) || r == Err(SinkError)
      ensures os.said == old(os.said) + if old(closed) then [] else [Closed(fd, r.Ok?)]
      ensures F.Exec(s, run) == Some(s.(closed := s.closed + {name})) && Shows(s.(closed := s.closed + {name}))
      ensures forall d :: old(StandsIn(d)) ==> StandsIn(Next(d, Descriptors.Close(name)))
    {
      ExecNothing(s);
      Extend(s, [], s, F.Close(name));
      run := [] + [F.Close(name)];
      r := Ok(());
      if !closed {
        closed := true;
        var ok := os.CloseFd(fd);
        if !ok {
          r := Err(SinkError);
        }
      }
    }
  }

  // ---- construction -------------------------------------------------------

  /** At most the one entry was added: what was there is as it was. */
  ghost predicate AtMostAdded<K, V>(before: map<K, V>, after: map<K, V>, key: K, value: V) {
    after == before || (key !in before && after == before[key := value])
  }

  /** `d` is a picture of the descriptor table and of the registered kinds. */
  ghost predicate Pictures(d: State, os: Os, registry: StreamRegistry)
    reads os, registry
  {
    d.open == os.open && d.kinds == registry.Kinds()
  }

  /** A constructor was this run of the descriptor machine: it ends in these descriptors and kinds, and with the sink,
      kept or given up, if its file could be opened. */
  ghost predicate Ran(d: State, run: seq<Action>, open: map<Fd, Identity>, kinds: map<Identity, StreamKind>,
                      name: nat, sink: Sink)
  {
    Exec(d, run) == Some(State(kinds, d.latched, open, if run == [] then d.sinks else d.sinks[name := sink]))
  }

  lemma {:induction false} NothingRan(d: State, name: nat, sink: Sink)
    ensures Ran(d, [], d.open, d.kinds, name, sink)
  {
  }

  /** A constructor that gives up once its file is open. */
  lemma {:induction false} AbortRan(d: State, name: nat, kind: StreamKind, fd: Fd, id: Identity)
    requires name !in d.sinks && fd !in d.open
    ensures Ran(d, [OpenFd(name, kind, fd, id), Abort(name)], d.open, d.kinds, name, Sink(fd, id, kind, false, true))
  {
    var open := OpenFd(name, kind, fd, id);
    assert [open][..0] == [] && [open, Abort(name)][..1] == [open];
    assert Exec(d, [open]) == Some(Next(d, open));
    assert Next(d, open).open - {fd} == d.open;
    TwiceUpdated(d.sinks, name, Sink(fd, id, kind, false, false), Sink(fd, id, kind, false, true));
  }

  /** A constructor that comes to register its stream. */
  lemma {:induction false} RegisterRan(d: State, name: nat, kind: StreamKind, fd: Fd, id: Identity)
    requires name !in d.sinks && fd !in d.open
    ensures var run := [OpenFd(name, kind, fd, id), Descriptors.Register(name)];
            match Registered(d.kinds, id, kind)
            case None => Ran(d, run, d.open, d.kinds, name, Sink(fd, id, kind, false, true))
            case Some(kinds) => Ran(d, run, d.open[fd := id], kinds, name, Sink(fd, id, kind, true, false))
  {
    var open := OpenFd(name, kind, fd, id);
    assert [open][..0] == [] && [open, Descriptors.Register(name)][..1] == [open];
    assert Exec(d, [open]) == Some(Next(d, open));
    assert Next(d, open).open - {fd} == d.open;
    TwiceUpdated(d.sinks, name, Sink(fd, id, kind, false, false), Sink(fd, id, kind, false, true));
    TwiceUpdated(d.sinks, name, Sink(fd, id, kind, false, false), Sink(fd, id, kind, true, false));
  }

  /** A constructor gave its descriptor back after these calls; what leaves depends on whether that worked. */
  ghost predicate GaveBack(made: seq<KernelCall>, before: seq<KernelCall>, fd: Fd, e: ExnClass, instead: ExnClass) {
    exists ok :: made == before + [Closed(fd, ok)] && e == if ok then instead else OtherException
  }

  /** The kernel calls of the audit sink's constructor, and what leaves it: the directory is synced before the sink can
      be used, and nothing comes after a call that failed but the close. */
  ghost predicate AuditOpening(made: seq<KernelCall>, fd: Fd, taken: bool, e: Option<ExnClass>) {
    var stat, sync := [Opened(true), Statted(false)], [Opened(true), Statted(true), DirectorySynced(false)];
    var ready := [Opened(true), Statted(true), DirectorySynced(true)];
    match e
    case None => made == ready && !taken
    case Some(c) =>
      || (made == [Opened(false)] && c == PersistenceError)
      || GaveBack(made, stat, fd, c, ConfigurationError) || GaveBack(made, sync, fd, c, ConfigurationError)
      || (GaveBack(made, ready, fd, c, ConfigurationError) && taken)
  }

  /** The same of the operational sink's, which syncs no directory and lets the OSError of a failing fstat out. */
  ghost predicate OperationalOpening(made: seq<KernelCall>, fd: Fd, taken: bool, e: Option<ExnClass>) {
    var stat, ready := [Opened(true), Statted(false)], [Opened(true), Statted(true)];
    match e
    case None => made == ready && !taken
    case Some(c) =>
      || (made == [Opened(false)] && c == SinkError)
      || GaveBack(made, stat, fd, c, OtherException)
      || (GaveBack(made, ready, fd, c, ConfigurationError) && taken)
  }

  lemma {:induction false} AuditOpenings(fd: Fd, ok: bool, taken: bool)
    ensures AuditOpening([Opened(false)], fd, taken, Some(PersistenceError))
    ensures var e := Some(if ok then ConfigurationError else OtherException);
            && AuditOpening([Opened(true), Statted(false), Closed(fd, ok)], fd, taken, e)
            && AuditOpening([Opened(true), Statted(true), DirectorySynced(false), Closed(fd, ok)], fd, taken, e)
            && (taken ==>
                  AuditOpening([Opened(true), Statted(true), DirectorySynced(true), Closed(fd, ok)], fd, taken, e))
    ensures !taken ==> AuditOpening([Opened(true), Statted(true), DirectorySynced(true)], fd, taken, None)
  {
    assert [Opened(true), Statted(false), Closed(fd, ok)] == [Opened(true), Statted(false)] + [Closed(fd, ok)];
    var synced := (b: bool) => [Opened(true), Statted(true), DirectorySynced(b)];
    assert [Opened(true), Statted(true), DirectorySynced(false), Closed(fd, ok)] == synced(false) + [Closed(fd, ok)];
    assert [Opened(true), Statted(true), DirectorySynced(true), Closed(fd, ok)] == synced(true) + [Closed(fd, ok)];
  }

  lemma {:induction false} OperationalOpenings(fd: Fd, ok: bool, taken: bool)
    ensures OperationalOpening([Opened(false)], fd, taken, Some(SinkError))
    ensures OperationalOpening([Opened(true), Statted(false), Closed(fd, ok)], fd, taken, Some(OtherException))
    ensures taken ==> OperationalOpening([Opened(true), Statted(true), Closed(fd, ok)], fd, taken,
                                         Some(if ok then ConfigurationError else OtherException))
    ensures !taken ==> OperationalOpening([Opened(true), Statted(true)], fd, taken, None)
  {
    assert [Opened(true), Statted(false), Closed(fd, ok)] == [Opened(true), Statted(false)] + [Closed(fd, ok)];
    assert [Opened(true), Statted(true), Closed(fd, ok)] == [Opened(true), Statted(true)] + [Closed(fd, ok)];
  }

  /** The calls made since. */
  ghost function Since(before: seq<KernelCall>, now: seq<KernelCall>): seq<KernelCall> {
    if before <= now then now[|before|..] else []
  }

  lemma {:induction false} SinceMade(before: seq<KernelCall>, now: seq<KernelCall>, made: seq<KernelCall>)
    requires now == before + made
    ensures before <= now && Since(before, now) == made
  {
  }

  ghost function ErrorOf<T>(r: Result<T, ExnClass>): Option<ExnClass> {
    if r.Err? then Some(r.error) else None
  }

  /** The end of both constructors: a refused registration gives the descriptor back; an OSError on the way back leaves
      instead of the refusal. */
  method RegisterOrClose(os: Os, registry: StreamRegistry, fd: Fd, id: Identity, kind: StreamKind)
    returns (r: Result<StreamState, ExnClass>)
    modifies os`open, os`said, registry
    ensures r.Ok? <==> Registered(old(registry.Kinds()), id, kind).Some?
    ensures r.Ok? ==> os.said == old(os.said)
    ensures r.Err? ==> exists ok :: && os.said == old(os.said) + [Closed(fd, ok)]
                                    && r.error == if ok then ConfigurationError else OtherException
    ensures r.Err? ==> os.open == old(os.open) - {fd} && registry.streams == old(registry.streams)
    ensures r.Err? ==> registry.Kinds() == old(registry.Kinds())
    ensures r.Ok? ==> os.open == old(os.open) && Registered(old(registry.Kinds()), id, kind) == Some(registry.Kinds())
    ensures r.Ok? ==> id in registry.streams && r.value == registry.streams[id] && r.value.kind == kind
  {
    r := registry.Register(id, kind);
    if r.Err? {
      var ok := os.CloseFd(fd);
      if !ok {
        r := Err(OtherException);
      }
    }
  }

  /** The audit constructor up to its registration: opened, examined, and the directory synced, or given up. */
  method OpenSynced(os: Os, target: Identity, free: Fd) returns (r: Result<(), ExnClass>)
    requires free !in os.open
    modifies os
    ensures AtMostAdded(old(os.files), os.files, target, []) && AtMostAdded(old(os.durable), os.durable, target, 0)
    ensures r.Ok? ==> os.open == old(os.open)[free := target] && os.Holds(free, target)
    ensures r.Ok? ==> os.said == old(os.said) + [Opened(true), Statted(true), DirectorySynced(true)]
    ensures r.Err? ==> os.open == old(os.open) && old(os.said) <= os.said
    ensures r.Err? ==> forall taken :: AuditOpening(Since(old(os.said), os.said), free, taken, Some(r.error))
    ensures r.Err? ==> r.error in {PersistenceError, ConfigurationError, OtherException}
    ensures r == Err(PersistenceError) <==> os.said == old(os.said) + [Opened(false)]
  {
    hide AuditOpening, Since;
    var fd := os.OpenFile(target, free);
    ghost var made := [Opened(fd.Some?)];
    if fd.None? {
      AuditFailed(old(os.said), os.said, made, free, true, PersistenceError);
      return Err(PersistenceError);
    }
    assert os.open - {free} == old(os.open);
    var id := os.Fstat(free);
    made := made + [Statted(id.Some?)];
    var synced := false;
    if id.Some? {
      synced := os.FsyncDirectory();
      made := made + [DirectorySynced(synced)];
    }
    if !synced {
      var ok := os.CloseFd(free);
      made := made + [Closed(free, ok)];
      r := Err(if ok then ConfigurationError else OtherException);
      AuditFailed(old(os.said), os.said, made, free, ok, r.error);
      return;
    }
    return Ok(());
  }

  /** The operational constructor up to its registration. */
  method OpenExamined(os: Os, target: Identity, free: Fd) returns (r: Result<(), ExnClass>)
    requires free !in os.open
    modifies os
    ensures AtMostAdded(old(os.files), os.files, target, []) && AtMostAdded(old(os.durable), os.durable, target, 0)
    ensures r.Ok? ==> os.open == old(os.open)[free := target] && os.Holds(free, target)
    ensures r.Ok? ==> os.said == old(os.said) + [Opened(true), Statted(true)]
    ensures r.Err? ==> os.open == old(os.open) && old(os.said) <= os.said
    ensures r.Err? ==> forall taken :: OperationalOpening(Since(old(os.said), os.said), free, taken, Some(r.error))
    ensures r.Err? ==> r.error in {SinkError, OtherException}
    ensures r == Err(SinkError) <==> os.said == old(os.said) + [Opened(false)]
  {
    hide OperationalOpening, Since;
    var fd := os.OpenFile(target, free);
    if fd.None? {
      OperationalFailed(old(os.said), os.said, [Opened(false)], free, true, SinkError);
      return Err(SinkError);
    }
    assert os.open - {free} == old(os.open);
    var id := os.Fstat(free);
    if id.None? {
      var ok := os.CloseFd(free);
      ghost var made := [Opened(true), Statted(false), Closed(free, ok)];
      OperationalFailed(old(os.said), os.said, made, free, ok, OtherException);
      return Err(OtherException);
    }
    return Ok(());
  }

  lemma {:induction false} AuditFailed(before: seq<KernelCall>, now: seq<KernelCall>, made: seq<KernelCall>, fd: Fd,
                                       ok: bool, e: ExnClass)
    requires now == before + made
    requires || (made == [Opened(false)] && e == PersistenceError)
             || ((made == [Opened(true), Statted(false), Closed(fd, ok)]
                  || made == [Opened(true), Statted(true), DirectorySynced(false), Closed(fd, ok)])
                 && e == if ok then ConfigurationError else OtherException)
    ensures before <= now && forall taken :: AuditOpening(Since(before, now), fd, taken, Some(e))
  {
    hide AuditOpening, Since;
    SinceMade(before, now, made);
    AuditOpenings(fd, ok, true);
    AuditOpenings(fd, ok, false);
    forall taken ensures AuditOpening(made, fd, taken, Some(e)) {
    }
  }

  lemma {:induction false} OperationalFailed(before: seq<KernelCall>, now: seq<KernelCall>, made: seq<KernelCall>,
                                             fd: Fd, ok: bool, e: ExnClass)
    requires now == before + made
    requires || (made == [Opened(false)] && e == SinkError)
             || (made == [Opened(true), Statted(false), Closed(fd, ok)] && e == OtherException)
    ensures before <= now && forall taken :: OperationalOpening(Since(before, now), fd, taken, Some(e))
  {
    hide OperationalOpening, Since;
    SinceMade(before, now, made);
    OperationalOpenings(fd, ok, true);
    OperationalOpenings(fd, ok, false);
    forall taken ensures OperationalOpening(made, fd, taken, Some(e)) {
    }
  }

  /** `JsonlAuditSink(path)`: a failure after the open gives the descriptor back before it propagates; an OSError on the
      way back leaves instead. */
  method OpenAuditSink(os: Os, registry: StreamRegistry, target: Identity, free: Fd, ghost name: F.SinkId,
                       ghost d: State)
    returns (r: Result<JsonlAuditSink, ExnClass>, ghost run: seq<Action>)
    requires free !in os.open && Pictures(d, os, registry) && name !in d.sinks
    modifies os, registry
    ensures AtMostAdded(old(os.files), os.files, target, []) && AtMostAdded(old(os.durable), os.durable, target, 0)
    ensures r.Err? ==> os.open == old(os.open) && r.error in {PersistenceError, ConfigurationError, OtherException}
    ensures r == Err(PersistenceError) <==> run == []
    ensures r.Err? ==> registry.streams == old(registry.streams)
    ensures r.Ok? ==>
              && fresh(r.value) && r.value.Valid() && !r.value.closed && r.value.os == os
              && os.open == old(os.open)[r.value.fd := target] && r.value.fd == free
              && Registered(old(registry.Kinds()), target, AuditKind) == Some(registry.Kinds())
              && target in registry.streams && r.value.state == registry.streams[target]
              && r.value.id == target && r.value.name == name
    ensures Ran(d, run, os.open, registry.Kinds(), name, Sink(free, target, AuditKind, r.Ok?, r.Err?))
    ensures old(os.said) <= os.said
    ensures AuditOpening(Since(old(os.said), os.said), free,
                 Registered(old(registry.Kinds()), target, AuditKind).None?, ErrorOf(r))
  {
    hide AuditOpening, Since, Ran, Registered;
    run := [];
    ghost var said, taken := os.said, Registered(registry.Kinds(), target, AuditKind).None?;
    assert d.open == os.open && d.kinds == registry.Kinds();
    ghost var open := OpenFd(name, AuditKind, free, target);
    var prepared := OpenSynced(os, target, free);
    if prepared == Err(PersistenceError) {
      NothingRan(d, name, Sink(free, target, AuditKind, false, true));
      return Err(PersistenceError), run;
    }
    if prepared.Err? {
      AbortRan(d, name, AuditKind, free, target);
      return Err(prepared.error), [open, Abort(name)];
    }
    assert os.open - {free} == old(os.open);
    RegisterRan(d, name, AuditKind, free, target);
    ghost var before := os.said;
    var state := RegisterOrClose(os, registry, free, target, AuditKind);
    if state.Err? {
      ghost var ok :| && os.said == before + [Closed(free, ok)]
                      && state.error == if ok then ConfigurationError else OtherException;
      AuditOpenings(free, ok, taken);
      SinceMade(said, os.said, [Opened(true), Statted(true), DirectorySynced(true), Closed(free, ok)]);
      return Err(state.error), [open, Descriptors.Register(name)];
    }
    AuditOpenings(free, true, taken);
    SinceMade(said, os.said, [Opened(true), Statted(true), DirectorySynced(true)]);
    var sink := new JsonlAuditSink(os, free, state.value, target, name);
    return Ok(sink), [open, Descriptors.Register(name)];
  }

  /** `JsonlSink(path)`: as above without the directory sync; a failing fstat surfaces as the OSError it is. */
  method OpenOperationalSink(os: Os, registry: StreamRegistry, target: Identity, free: Fd, ghost name: F.SinkId,
                             ghost d: State)
    returns (r: Result<JsonlSink, ExnClass>, ghost run: seq<Action>)
    requires free !in os.open && Pictures(d, os, registry) && name !in d.sinks
    modifies os, registry
    ensures AtMostAdded(old(os.files), os.files, target, []) && AtMostAdded(old(os.durable), os.durable, target, 0)
    ensures r.Err? ==>
              && os.open == old(os.open)
              && r.error in {SinkError, OtherException, ConfigurationError}
    ensures r == Err(SinkError) <==> run == []
    ensures r.Err? ==> registry.streams == old(registry.streams)
    ensures r.Ok? ==>
              && fresh(r.value) && r.value.Valid() && !r.value.closed && r.value.os == os
              && os.open == old(os.open)[r.value.fd := target] && r.value.fd == free
              && Registered(old(registry.Kinds()), target, OperationalKind) == Some(registry.Kinds())
              && target in registry.streams && r.value.state == registry.streams[target]
              && r.value.id == target && r.value.name == name
    ensures Ran(d, run, os.open, registry.Kinds(), name, Sink(free, target, OperationalKind, r.Ok?, r.Err?))
    ensures old(os.said) <= os.said
    ensures OperationalOpening(Since(old(os.said), os.said), free,
                       Registered(old(registry.Kinds()), target, OperationalKind).None?, ErrorOf(r))
  {
    hide OperationalOpening, Since, Ran, Registered;
    run := [];
    ghost var said, taken := os.said, Registered(registry.Kinds(), target, OperationalKind).None?;
    assert d.open == os.open && d.kinds == registry.Kinds();
    ghost var open := OpenFd(name, OperationalKind, free, target);
    var prepared := OpenExamined(os, target, free);
    if prepared == Err(SinkError) {
      NothingRan(d, name, Sink(free, target, OperationalKind, false, true));
      return Err(SinkError), run;
    }
    if prepared.Err? {
      AbortRan(d, name, OperationalKind, free, target);
      return Err(prepared.error), [open, Abort(name)];
    }
    assert os.open - {free} == old(os.open);
    RegisterRan(d, name, OperationalKind, free, target);
    ghost var before := os.said;
    var state := RegisterOrClose(os, registry, free, target, OperationalKind);
    if state.Err? {
      ghost var ok :| && os.said == before + [Closed(free, ok)]
                      && state.error == if ok then ConfigurationError else OtherException;
      OperationalOpenings(free, ok, taken);
      SinceMade(said, os.said, [Opened(true), Statted(true), Closed(free, ok)]);
      return Err(state.error), [open, Descriptors.Register(name)];
    }
    OperationalOpenings(free, true, taken);
    SinceMade(said, os.said, [Opened(true), Statted(true)]);
    var sink := new JsonlSink(os, free, state.value, target, name);
    return Ok(sink), [open, Descriptors.Register(name)];
  }
}
