/** What a reader finds of every audit operation, after any run and any crash. */
module EndToEnd {
  import opened Basics
  import opened Json
  import opened Framing
  import opened Records
  import opened LineCodec
  import opened Events
  import opened Reader
  import opened ReadBack
  import opened AuditedLog
  import opened Wire
  import F = FramedLog
  import P = AuditProtocol

  // ---- the appends of one id, and those of them that survive --------------

  lemma {:induction false} WrittenSnoc(t: seq<P.Attempt>, more: seq<P.Attempt>)
    requires |more| <= 1
    ensures P.Written(t + more) == P.Written(t) + (if more != [] && P.Wrote(more[0]) then more else [])
  {
    if more != [] {
      assert (t + more)[..|t|] == t && more == [more[0]];
    } else {
      assert t + more == t;
    }
  }

  lemma {:induction false} OfSnoc(t: seq<P.Attempt>, more: seq<P.Attempt>, id: Text)
    requires |more| <= 1
    ensures P.Of(t + more, id) == P.Of(t, id) + (if more != [] && P.About(more[0], id) then more else [])
  {
    if more != [] {
      assert (t + more)[..|t|] == t && more == [more[0]];
    } else {
      assert t + more == t;
    }
  }

  lemma {:induction false} FiltersCommute(t: seq<P.Attempt>, id: Text)
    ensures P.Of(P.Written(t), id) == P.Written(P.Of(t, id))
  {
    hide P.About, P.Wrote;
    if t != [] {
      var g, a := t[..|t| - 1], t[|t| - 1];
      FiltersCommute(g, id);
      OfSnoc(P.Written(g), if P.Wrote(a) then [a] else [], id);
      WrittenSnoc(P.Of(g, id), if P.About(a, id) then [a] else []);
    }
  }

  lemma {:induction false} OfPrefix(w: seq<P.Attempt>, k: nat, id: Text)
    requires k <= |w|
    ensures P.Of(w[..k], id) <= P.Of(w, id)
  {
    if k < |w| {
      OfPrefix(w[..|w| - 1], k, id);
      assert w[..|w| - 1][..k] == w[..k];
    } else {
      assert w[..k] == w;
    }
  }

  /** If nothing acknowledged was cut off, every acknowledged append of an id is kept. */
  lemma {:induction false} OfKeepsAcked(w: seq<P.Attempt>, k: nat, id: Text, m: nat)
    requires k <= |w| && forall j :: k <= j < |w| ==> !w[j].answer.Returns?
    requires m < |P.Of(w, id)| && P.Of(w, id)[m].answer.Returns?
    ensures m < |P.Of(w[..k], id)|
  {
    if k < |w| {
      OfKeepsAcked(w[..|w| - 1], k, id, m);
      assert w[..|w| - 1][..k] == w[..k];
    } else {
      assert w[..k] == w;
    }
  }

  /** The appends of one id among the first `k` that reached the file, when no acknowledged one comes later. */
  lemma {:induction false} KeptOfId(s: P.State, k: nat, id: Text)
    requires P.TraceOk(s, id) && k <= |P.Written(s.trace)|
    requires forall j :: k <= j < |P.Written(s.trace)| ==> !P.Written(s.trace)[j].answer.Returns?
    ensures var all, kept := P.Of(P.Written(s.trace), id), P.Of(P.Written(s.trace)[..k], id);
            && kept <= all && P.IntentThenOutcome(P.RecordsOf(all))
            && (id in s.ops ==> |kept| >= 1)
            && (id in s.ops && s.ops[id].state == P.Finalised ==> |kept| == 2)
  {
    hide ConstructionError, P.Of, P.Written;
    var w, t := P.Written(s.trace), P.Of(s.trace, id);
    FiltersCommute(s.trace, id);
    P.WrittenOfTrace(t);
    OfPrefix(w, k, id);
    if id in s.ops {
      assert P.Of(w, id)[0] == t[0];
      OfKeepsAcked(w, k, id, 0);
      if s.ops[id].state == P.Finalised {
        OfKeepsAcked(w, k, id, 1);
      }
    }
  }

  // ---- from records to what the reader yields -------------------------------

  /** The reader's mapping names this operation. */
  predicate Carries(m: Reader.Mapping, id: Text) {
    exists i :: 0 <= i < |m| && m[i] == (K_OPERATION_ID, JStr(id))
  }

  function Carrying(ms: seq<Reader.Mapping>, id: Text): seq<Reader.Mapping> {
    if ms == [] then []
    else Carrying(ms[..|ms| - 1], id) + if Carries(ms[|ms| - 1], id) then [ms[|ms| - 1]] else []
  }

  /** The records of one operation. */
  function Naming(rs: seq<Record>, id: Text): seq<Record> {
    if rs == [] then []
    else Naming(rs[..|rs| - 1], id) + if P.Names(rs[|rs| - 1], id) then [rs[|rs| - 1]] else []
  }

  lemma {:induction false} NamingOf(w: seq<P.Attempt>, id: Text)
    ensures Naming(P.RecordsOf(w), id) == P.RecordsOf(P.Of(w, id))
  {
    hide P.Names;
    if w != [] {
      NamingOf(w[..|w| - 1], id);
      assert P.RecordsOf(w)[..|w| - 1] == P.RecordsOf(w[..|w| - 1]);
    }
  }

  lemma {:induction false} NamingWithin(rs: seq<Record>, id: Text)
    ensures forall i :: 0 <= i < |Naming(rs, id)| ==> Naming(rs, id)[i] in rs && P.Names(Naming(rs, id)[i], id)
  {
    if rs != [] {
      NamingWithin(rs[..|rs| - 1], id);
    }
  }

  lemma {:induction false} OperationIdReserved()
    ensures IsReserved(K_OPERATION_ID)
  {
    assert RESERVED_FIELD_NAMES[9] == K_OPERATION_ID;
  }

  /** Of the header's entries only the ninth can be the operation id. */
  lemma {:induction false} HeaderOperationId(r: Record, i: nat)
    requires i < |EnvelopeEntries(r) + KindEntries(r.kind)|
    ensures var head := EnvelopeEntries(r) + KindEntries(r.kind);
            && (head[i].0 == K_OPERATION_ID <==> r.kind.Audit? && r.kind.operationId.Some? && i == 8)
            && (i == 8 && r.kind.Audit? && r.kind.operationId.Some? ==>
                  head[i] == (K_OPERATION_ID, Str(r.kind.operationId.value)))
  {
    hide IsReserved, Lit, CategoryText, StageText, OutcomeText, SeverityText;
    HeaderPositions(r);
    ReservedNamesDiffer();
    assert RESERVED_FIELD_NAMES[9] == K_OPERATION_ID;
  }

  lemma {:induction false} OperationIdEntry(r: Record, i: nat)
    requires Constructible(r) && i < |CanonicalEntries(r)|
    ensures CanonicalEntries(r)[i].0 == K_OPERATION_ID <==> r.kind.Audit? && r.kind.operationId.Some? && i == 8
    ensures i == 8 && r.kind.Audit? && r.kind.operationId.Some? ==>
              CanonicalEntries(r)[i] == (K_OPERATION_ID, Str(r.kind.operationId.value))
  {
    var head := EnvelopeEntries(r) + KindEntries(r.kind);
    assert !ReservedCollision(r.fields);
    assert r.kind.Audit? && r.kind.operationId.Some? ==> 8 < |head|;
    assert K_MESSAGE != K_OPERATION_ID by { assert |K_MESSAGE| != |K_OPERATION_ID|; }
    hide ConstructionError, IsReserved, Lit, EnvelopeEntries, KindEntries;
    OperationIdReserved();
    CanonicalParts(r);
    if i < |head| {
      HeaderOperationId(r, i);
      assert CanonicalEntries(r)[i] == head[i];
    } else if i < |head| + |r.fields| {
      assert CanonicalEntries(r)[i] == r.fields[i - |head|];
    }
  }

  lemma {:induction false} CarriesEntry(r: Record, i: nat, id: Text)
    requires Constructible(r) && i < |CanonicalEntries(r)|
    ensures |LineCodec.Mapping(r)| == |CanonicalEntries(r)|
    ensures LineCodec.Mapping(r)[i] == (K_OPERATION_ID, JStr(id)) <==> P.Names(r, id) && i == 8
  {
    CanonicalEntriesOk(r);
    OperationIdEntry(r, i);
    hide ConstructionError, CanonicalEntries, Lit;
    assert LineCodec.Mapping(r)[i] == (CanonicalEntries(r)[i].0, ValueJson(CanonicalEntries(r)[i].1));
  }

  /** The reader's mapping of an audit record names its operation, and no other mapping names one. */
  lemma {:induction false} CarriesIffNames(r: Record, id: Text)
    requires Constructible(r)
    ensures Carries(LineCodec.Mapping(r), id) <==> P.Names(r, id)
  {
    assert r.kind.Audit? && r.kind.operationId.Some? ==> 8 < |CanonicalEntries(r)|;
    hide ConstructionError, CanonicalEntries, LineCodec.Mapping;
    if P.Names(r, id) {
      CarriesEntry(r, 8, id);
    }
    CanonicalCount(r);
    if Carries(LineCodec.Mapping(r), id) {
      var i :| 0 <= i < |LineCodec.Mapping(r)| && LineCodec.Mapping(r)[i] == (K_OPERATION_ID, JStr(id));
      CarriesEntry(r, i, id);
    }
  }

  lemma {:induction false} CanonicalCount(r: Record)
    requires Constructible(r)
    ensures |LineCodec.Mapping(r)| == |CanonicalEntries(r)|
  {
    CanonicalEntriesOk(r);
    hide ConstructionError, CanonicalEntries;
  }

  /** `ms` is what the reader makes of the records `rs`. */
  ghost predicate ReadAs(rs: seq<Record>, ms: seq<Reader.Mapping>) {
    |rs| == |ms| && forall i :: 0 <= i < |rs| ==> ReadsAs(rs[i], ms[i])
  }

  lemma {:induction false} CarryingReadsNaming(rs: seq<Record>, ms: seq<Reader.Mapping>, id: Text)
    requires ReadAs(rs, ms)
    ensures ReadAs(Naming(rs, id), Carrying(ms, id))
  {
    hide ConstructionError, Carries, LineCodec.Mapping;
    if rs != [] {
      var n := |rs| - 1;
      CarryingReadsNaming(rs[..n], ms[..n], id);
      assert ReadsAs(rs[n], ms[n]);
      CarriesIffNames(rs[n], id);
    }
  }

  // ---- after a crash ------------------------------------------------------

  /** The line in the file whose fsync has not been answered. */
  ghost function Unsynced(s: F.State): Option<F.Tid> {
    if s.lock.Some? && F.PhaseOf(s, s.lock.value).Syncing? then s.lock else None
  }

  /** The records whose lines are in the file, in order: those of the appends that wrote, and the one being synced. */
  ghost function Landed(s: State): seq<Record> {
    P.RecordsOf(P.Written(s.audit.trace))
    + if Unsynced(s.log).Some? then [F.PhaseOf(s.log, s.log.lock.value).record] else []
  }

  /** What this process wrote, of what the reader yields from a file that began with `n` lines. */
  function Since(n: nat, yielded: seq<Reader.Mapping>): seq<Reader.Mapping> {
    if n <= |yielded| then yielded[n..] else []
  }

  /** What the reader yields tells, in the words of the stored format, the intent that was asked for, and then the
      outcome that was. */
  ghost predicate Tells(c: P.Config, asked: map<Text, Asked>, id: Text, i: nat, m: Reader.Mapping) {
    && id in asked && asked[id].event in c.registry
    && var a := asked[id];
       var schema := c.registry[a.event];
       if i == 0 then TellsStage(m, c.application, c.emitter, schema, a.actor, INTENT, id, None, a.fields, c.show)
       else
         && a.ending.Some?
         && TellsStage(m, c.application, c.emitter, schema, a.actor, OUTCOME, id, Some(a.ending.value.outcome),
                       a.ending.value.fields, c.show)
  }

  /** Reading raises nothing. Of each operation it yields the first of the records that landed, which are its intent and
      then its outcome, and tells what was asked; the intent of every handle is there, and so is the outcome of every
      operation that reports itself finalised. */
  ghost predicate Recovered(c: P.Config, s: State, n: nat, got: Reading, id: Text) {
    var seen, landed := Carrying(Since(n, got.yielded), id), Naming(Landed(s), id);
    && got.error.None?
    && |seen| <= |landed| && ReadAs(landed[..|seen|], seen)
    && P.IntentThenOutcome(landed)
    && (forall i :: 0 <= i < |landed| ==> Says(c, s.asked, landed[i]))
    && (forall i :: 0 <= i < |seen| ==> Tells(c, s.asked, id, i, seen[i]))
    && (id in s.audit.ops ==> |seen| >= 1)
    && (id in s.audit.ops && s.audit.ops[id].state == P.Finalised ==> |seen| == 2)
  }

  /** Every framed attempt is an entry of the history, at its own place. */
  lemma {:induction false} FramedSource(h: seq<F.Attempt>, j: nat) returns (i: nat)
    requires j < |F.Framed(h)|
    ensures i < |h| && h[i] == F.Framed(h)[j] && FramedIndex(h, i) == j
  {
    var g := h[..|h| - 1];
    if j < |F.Framed(g)| {
      i := FramedSource(g, j);
      assert g[..i] == h[..i];
    } else {
      i := |h| - 1;
    }
  }

  lemma {:induction false} YieldedPrefix(s: State, init: seq<bytes>, cut: nat)
    requires WellFramed(init) && Tracks(s, Flatten(init)) && s.log.durable <= cut <= |s.log.file|
    ensures AllGood(init + F.WholeLines(s.log))
    ensures var got := Read(Some(s.log.file[..cut]));
            got.error.None? && got.yielded <= MappingsOf(init + F.WholeLines(s.log))
  {
    hide Flatten, P.Written, Read, ReadsAs, LinesWithin, IsGood, MappingOf, F.WholeLines, Agree, F.Inv, Place,
         WellFramed;
    CrashDurability(s.log, init, cut);
  }

  /** An acknowledged append is among the lines that survive the crash. */
  lemma {:induction false} AckedKept(s: State, init: seq<bytes>, cut: nat, j: nat)
    requires WellFramed(init) && Tracks(s, Flatten(init)) && s.log.durable <= cut <= |s.log.file|
    requires j < |P.Written(s.audit.trace)| && P.Written(s.audit.trace)[j].answer.Returns?
    ensures |init| + j < |Read(Some(s.log.file[..cut])).yielded|
  {
    hide F.Inv, F.Framed, Flatten, P.Written, Read, FramedIndex, WellFramed, P.TraceOk, P.OpsOk, ReadsAs, LinesWithin,
         F.WholeLines, IsGood;
    var h := s.log.history;
    assert Answers(F.Framed(h)[j], P.Written(s.audit.trace)[j]);
    var i := FramedSource(h, j);
    CrashDurability(s.log, init, cut);
    assert Place(init, h, i) < |Read(Some(s.log.file[..cut])).yielded|;
  }

  /** The whole lines of this process are those of the records that landed. */
  lemma {:induction false} LandedLines(s: State, init: bytes)
    requires Tracks(s, init)
    ensures |Landed(s)| == |F.WholeLines(s.log)|
    ensures forall i :: 0 <= i < |Landed(s)| ==>
              IsGood(F.WholeLines(s.log)[i]) && ReadsAs(Landed(s)[i], MappingOf(F.WholeLines(s.log)[i]))
  {
    hide F.Inv, F.Framed, P.Written, P.TraceOk, P.OpsOk, ReadsAs, IsGood, MappingOf, F.PhaseOf, Unsynced, F.WholeLines;
    SyncedLine(s.log, init);
    FramedLines(s, init);
  }

  lemma {:induction false} FramedLines(s: State, init: bytes)
    requires Tracks(s, init)
    ensures var w, lines := P.Written(s.audit.trace), F.LinesOf(F.Framed(s.log.history));
            |w| == |lines| && forall i :: 0 <= i < |w| ==> IsGood(lines[i]) && ReadsAs(w[i].record, MappingOf(lines[i]))
  {
    hide F.Framed, P.Written, P.TraceOk, P.OpsOk, ReadsAs, IsGood, MappingOf, F.Tidy, F.PhaseOf;
    var h, w := s.log.history, P.Written(s.audit.trace);
    FramedMappings(h);
    hide F.Inv;
    forall i | 0 <= i < |w| ensures ReadsAs(w[i].record, MappingOf(F.LinesOf(F.Framed(h))[i])) {
      assert Answers(F.Framed(h)[i], w[i]);
      assert MappingsOf(F.LinesOf(F.Framed(h)))[i] == MappingOf(F.LinesOf(F.Framed(h))[i]);
    }
  }

  lemma {:induction false} SyncedLine(s: F.State, init: bytes)
    requires F.Inv(s, init)
    ensures F.WholeLines(s) == F.LinesOf(F.Framed(s.history))
                               + if Unsynced(s).Some? then [F.PhaseOf(s, s.lock.value).line] else []
    ensures Unsynced(s).Some? ==>
              var p := F.PhaseOf(s, s.lock.value); IsGood(p.line) && ReadsAs(p.record, MappingOf(p.line))
  {
    if Unsynced(s).Some? {
      assert F.PhaseOk(s, s.lock.value);
      var p := F.PhaseOf(s, s.lock.value);
      EncodedIsGood(p.record, p.line);
    }
  }

  /** What the reader yields of this process is, in order, the first of the records that landed. */
  lemma {:induction false} SurvivorsLanded(s: State, init: seq<bytes>, cut: nat)
    requires WellFramed(init) && Tracks(s, Flatten(init)) && s.log.durable <= cut <= |s.log.file|
    ensures var got := Read(Some(s.log.file[..cut]));
            var since := Since(|init|, got.yielded);
            got.error.None? && |since| <= |Landed(s)| && ReadAs(Landed(s)[..|since|], since)
  {
    hide Tracks, Flatten, Landed, Read, WellFramed, ReadsAs, IsGood, MappingOf, F.WholeLines;
    YieldedPrefix(s, init, cut);
    LandedLines(s, Flatten(init));
    var lines := init + F.WholeLines(s.log);
    var since := Since(|init|, Read(Some(s.log.file[..cut])).yielded);
    forall i | 0 <= i < |since| ensures ReadsAs(Landed(s)[i], since[i]) {
      assert since[i] == MappingsOf(lines)[|init| + i] == MappingOf(lines[|init| + i]);
      assert lines[|init| + i] == F.WholeLines(s.log)[i];
    }
  }

  // ---- the fsync in progress --------------------------------------------------

  /** The audit state if the fsync in progress, when there is one, is taken to have failed. */
  ghost function Settled(c: P.Config, s: State, init: bytes): (r: P.State)
    requires Inv(c, s, init)
  {
    if Unsynced(s.log).None? then s.audit
    else
      SyncingCall(c, s, init);
      P.Next(c, s.audit, Answered(s.pending[s.log.lock.value], FAILED))
  }

  const FAILED := P.Raises(P.Raised(PersistenceError, 0), true)

  lemma {:induction false} SyncingCall(c: P.Config, s: State, init: bytes)
    requires Inv(c, s, init) && Unsynced(s.log).Some?
    ensures var t := s.log.lock.value;
            && t in s.pending && P.Enabled(c, s.audit, Answered(s.pending[t], FAILED))
            && Made(c, s.audit, Answered(s.pending[t], FAILED)) == Some(P.Attempt(F.PhaseOf(s.log, t).record, FAILED))
  {
    var t := s.log.lock.value;
    assert ThreadOk(c, s, t);
    hide P.ConfigOk, P.OpsOk, Made, Tracks, Faithful, P.Enabled;
    AnsweredMade(c, s.audit, s.pending[t], FAILED);
  }

  lemma {:induction false} SettledTraces(c: P.Config, s: State, init: bytes)
    requires Inv(c, s, init)
    ensures var settled := Settled(c, s, init);
            && (forall id :: P.TraceOk(settled, id))
            && P.RecordsOf(P.Written(settled.trace)) == Landed(s)
            && P.Written(s.audit.trace) <= P.Written(settled.trace)
            && (forall j :: |P.Written(s.audit.trace)| <= j < |P.Written(settled.trace)| ==>
                  !P.Written(settled.trace)[j].answer.Returns?)
            && (forall id :: id in s.audit.ops ==> id in settled.ops)
            && (forall id :: id in s.audit.ops && s.audit.ops[id].state == P.Finalised ==>
                  settled.ops[id].state == P.Finalised)
  {
    hide P.TraceOk, P.OpsOk, P.ConfigOk, P.Enabled, P.Next, Made, P.Written, Faithful, F.Inv, Agree, Threads;
    if Unsynced(s.log).None? {
      assert P.RecordsOf(P.Written(s.audit.trace)) == Landed(s);
    } else {
      SyncingCall(c, s, init);
      var call := Answered(s.pending[s.log.lock.value], FAILED);
      CallTraces(c, s.audit, call);
      SettledOps(c, s.audit, call);
    }
  }

  lemma {:induction false} SettledOps(c: P.Config, s: P.State, call: P.Action)
    requires P.ConfigOk(c) && P.OpsOk(s) && P.Enabled(c, s, call) && forall id :: P.TraceOk(s, id)
    ensures forall id :: id in s.ops ==>
              id in P.Next(c, s, call).ops
              && (s.ops[id].state == P.Finalised ==> P.Next(c, s, call).ops[id].state == P.Finalised)
  {
    hide P.ConfigOk, P.OpsOk, P.Next, P.HandleTrace, P.OrphanTrace, P.Of;
    assert P.TraceOk(s, call.id);
    HandleAfter(c, s, call);
    forall id | id in s.ops
      ensures id in P.Next(c, s, call).ops
      ensures s.ops[id].state == P.Finalised ==> P.Next(c, s, call).ops[id].state == P.Finalised
    {
      OpsAfter(c, s, call, id);
    }
  }

  lemma {:induction false} LandedSays(c: P.Config, s: State, init: bytes)
    requires Inv(c, s, init)
    ensures forall i :: 0 <= i < |Landed(s)| ==> Says(c, s.asked, Landed(s)[i])
  {
    hide P.ConfigOk, Threads, Tracks, Says;
    WrittenWithin(s.audit.trace);
    if Unsynced(s.log).Some? {
      assert Carried(s.log, s.log.lock.value) == Some(F.PhaseOf(s.log, s.log.lock.value).record);
    }
    hide Carried, P.Written;
    forall i | 0 <= i < |P.Written(s.audit.trace)| ensures Says(c, s.asked, P.Written(s.audit.trace)[i].record) {
      var a := P.Written(s.audit.trace)[i];
      var j :| 0 <= j < |s.audit.trace| && s.audit.trace[j] == a;
    }
  }

  lemma {:induction false} WrittenWithin(t: seq<P.Attempt>)
    ensures forall i :: 0 <= i < |P.Written(t)| ==> P.Written(t)[i] in t
  {
    if t != [] {
      WrittenWithin(t[..|t| - 1]);
    }
  }

  /** After every run of every interleaving of audit calls and system calls, and every crash that keeps what was made
      durable, the reader recovers every operation. */
  lemma {:induction false} EveryOperationRecovered(c: P.Config, s0: State, run: seq<Action>, s: State, init: seq<bytes>,
                                                   cut: nat, id: Text)
    requires P.ConfigOk(c) && WellFramed(init) && Initial(s0, Flatten(init)) && Exec(c, s0, run) == Some(s)
    requires s.log.durable <= cut <= |s.log.file|
    ensures Recovered(c, s, |init|, Read(Some(s.log.file[..cut])), id)
  {
    RunInv(c, s0, run, s, Flatten(init));
    RecoveredFrom(c, s, init, cut, id);
  }

  lemma {:induction false} RecoveredFrom(c: P.Config, s: State, init: seq<bytes>, cut: nat, id: Text)
    requires WellFramed(init) && Inv(c, s, Flatten(init)) && s.log.durable <= cut <= |s.log.file|
    ensures Recovered(c, s, |init|, Read(Some(s.log.file[..cut])), id)
  {
    hide P.ConfigOk, Tracks, Threads, Faithful, Flatten, P.Written, Read, WellFramed, P.TraceOk, ReadAs, P.Of, Carrying,
         Naming, Landed, P.IntentThenOutcome, Says, Settled;
    SurvivorsLanded(s, init, cut);
    SettledTraces(c, s, Flatten(init));
    LandedSays(c, s, Flatten(init));
    var settled := Settled(c, s, Flatten(init));
    var w := P.Written(settled.trace);
    var since := Since(|init|, Read(Some(s.log.file[..cut])).yielded);
    var k := |since|;
    forall j | k <= j < |w| ensures !w[j].answer.Returns? {
      if w[j].answer.Returns? {
        AckedKept(s, init, cut, j);
        assert false;
      }
    }
    KeptOfId(settled, k, id);
    NamingOf(w, id);
    NamingOf(w[..k], id);
    assert P.RecordsOf(w)[..k] == P.RecordsOf(w[..k]);
    CarryingReadsNaming(Landed(s)[..k], since, id);
    NamingWithin(Landed(s), id);
    assert P.RecordsOf(P.Of(w, id))[..|P.Of(w[..k], id)|] == P.RecordsOf(P.Of(w[..k], id));
    SameLength(Naming(Landed(s)[..k], id), Carrying(since, id));
    AllTold(c, s.asked, id, Naming(Landed(s), id), Carrying(since, id));
  }

  /** Records of one operation that say what was asked read as mappings that tell it. */
  lemma {:induction false} AllTold(c: P.Config, asked: map<Text, Asked>, id: Text, landed: seq<Record>,
                                   seen: seq<Reader.Mapping>)
    requires P.ConfigOk(c) && P.IntentThenOutcome(landed)
    requires forall i :: 0 <= i < |landed| ==> Says(c, asked, landed[i]) && P.Names(landed[i], id)
    requires |seen| <= |landed| && ReadAs(landed[..|seen|], seen)
    ensures forall i :: 0 <= i < |seen| ==> Tells(c, asked, id, i, seen[i])
  {
    hide Says, Tells, ReadsAs, ConstructionError;
    forall i | 0 <= i < |seen| ensures Tells(c, asked, id, i, seen[i]) {
      assert landed[..|seen|][i] == landed[i];
      OneTold(c, asked, id, landed[i], seen[i], i);
    }
  }

  lemma {:induction false} OneTold(c: P.Config, asked: map<Text, Asked>, id: Text, r: Record, m: Reader.Mapping, i: nat)
    requires P.ConfigOk(c) && Says(c, asked, r) && P.Names(r, id) && ReadsAs(r, m)
    requires P.IsStage(r, if i == 0 then INTENT else OUTCOME)
    ensures Tells(c, asked, id, i, m)
  {
    hide ConstructionError, LineCodec.Mapping, TellsStage, Passes, Select, Render, DistinctNames, EventIdOk, SpecOk,
         TemplateOk;
    var a := asked[id];
    var schema := c.registry[a.event];
    assert SchemaOk(schema);
    StageTold(r, schema, if i == 0 then a.fields else a.ending.value.fields, c.show);
  }

  lemma {:induction false} SameLength(rs: seq<Record>, ms: seq<Reader.Mapping>)
    requires ReadAs(rs, ms)
    ensures |rs| == |ms|
  {
  }
}
