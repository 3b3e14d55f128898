/** Operational calls on a stream without fsync, in any threads and any interleaving: what a reader finds is exactly
    what the calls reported healthy. */
module OperationalReadBack {
  import opened Basics
  import opened Framing
  import opened Records
  import opened LineCodec
  import opened Events
  import opened DefectRecord
  import opened Health
  import opened Reader
  import opened ReadBack
  import opened Json
  import opened Wire
  import A = AuditedLog
  import E = EndToEnd
  import F = FramedLog
  import O = Operational
  import P = AuditProtocol

  // ---- the record a call brings to the lock ---------------------------------

  ghost function EmissionOf(c: O.Config, call: O.Call): O.Emission
    requires O.ConfigOk(c)
  {
    O.Emit(c, call.severity, call.event, call.fields, call.answers)
  }

  /** The sink lets the record through to the lock. */
  predicate Encodable(r: Record) {
    Constructible(r) && EncodeLine(r).Ok?
  }

  /** What the sink raises without touching the file. */
  function Refusal(r: Record): P.SinkAnswer {
    P.Raises(P.Raised(if Constructible(r) && EncodeLine(r).Err? then EncodeLine(r).error else SchemaError, 0), false)
  }

  /** The call's own record, if it gets that far. */
  ghost function First(c: O.Config, call: O.Call): Option<Record>
    requires O.ConfigOk(c)
  {
    if O.Reaches(c, call.severity, call.event, call.fields, call.answers)
    then Some(O.BuildRecord(c, c.registry[call.event.value], call.severity, call.fields, call.answers.clock).value)
    else None
  }

  function WithSink(call: O.Call, answer: P.SinkAnswer): O.Call {
    call.(answers := call.answers.(sink := answer))
  }

  function WithDefectSink(call: O.Call, answer: P.SinkAnswer): O.Call {
    call.(answers := call.answers.(defectSink := answer))
  }

  /** The call with this answer from the lock, the encoder having refused what it must. */
  ghost function Finish(c: O.Config, call: O.Call, answer: P.SinkAnswer): O.Call
    requires O.ConfigOk(c)
  {
    match First(c, call)
    case None => WithDefectSink(call, answer)
    case Some(r) =>
      if Encodable(r) then WithSink(call, answer) else WithDefectSink(WithSink(call, Refusal(r)), answer)
  }

  /** The last record that a call hands to its sink, if it hands over any. */
  ghost function LastRecord(c: O.Config, call: O.Call): Option<Record>
    requires O.ConfigOk(c)
  {
    var w := EmissionOf(c, Finish(c, call, P.Returns)).writes;
    if w == [] then None else Some(w[|w| - 1].record)
  }

  /** The record that a call brings to the lock: its own, or its report of a defect, and never both. */
  ghost function ToLock(c: O.Config, call: O.Call): Option<Record>
    requires O.ConfigOk(c)
  {
    var r := LastRecord(c, call);
    if r.Some? && Encodable(r.value) then r else None
  }

  /** A call that never comes to the lock: what it hands over, if anything, the encoder refuses. */
  ghost function Ended(c: O.Config, call: O.Call): O.Call
    requires O.ConfigOk(c)
  {
    Finish(c, call, if LastRecord(c, call).Some? then Refusal(LastRecord(c, call).value) else P.Returns)
  }

  /** Past the lock a sink returns, or raises a sink error with no line in the file. */
  predicate FromLock(answer: P.SinkAnswer) {
    answer.Raises? ==> P.ClassOf(answer.e) == SinkError && !answer.wrote
  }

  // ---- the machine ------------------------------------------------------------

  /** `pending` has the calls whose record is on its way into the file, by thread; `done` the calls that are decided. */
  datatype State = State(log: F.State, pending: map<F.Tid, O.Call>, done: seq<O.Call>)

  datatype Action =
    | Quiet(step: F.Action)
    | Write(tid: F.Tid, sink: F.SinkId, line: bytes, call: O.Call)
    | Decide(step: F.Action, answer: P.SinkAnswer)
    | Local(call: O.Call)

  ghost predicate Enabled(c: O.Config, s: State, a: Action)
    requires O.ConfigOk(c)
  {
    match a
    case Quiet(step) => !step.Submit? && F.Enabled(s.log, step) && F.Next(s.log, step).history == s.log.history
    case Write(t, sink, line, call) =>
      ToLock(c, call).Some? && F.Enabled(s.log, F.Submit(t, sink, ToLock(c, call).value, line))
    case Decide(step, answer) =>
      && F.Enabled(s.log, step) && !step.Close? && step.tid in s.pending && FromLock(answer)
      && exists a :: F.Next(s.log, step).history == s.log.history + [a] && A.Answers(a, P.Attempt(a.record, answer))
    case Local(call) => ToLock(c, call).None?
  }

  ghost function Next(c: O.Config, s: State, a: Action): State
    requires O.ConfigOk(c) && Enabled(c, s, a)
  {
    match a
    case Quiet(step) => s.(log := F.Next(s.log, step))
    case Write(t, sink, line, call) =>
      s.(log := F.Next(s.log, F.Submit(t, sink, ToLock(c, call).value, line)), pending := s.pending[t := call])
    case Decide(step, answer) =>
      State(F.Next(s.log, step), s.pending - {step.tid}, s.done + [Finish(c, s.pending[step.tid], answer)])
    case Local(call) => s.(done := s.done + [Ended(c, call)])
  }

  ghost function Exec(c: O.Config, s: State, run: seq<Action>): Option<State>
    requires O.ConfigOk(c)
  {
    if run == [] then Some(s)
    else
      match Exec(c, s, run[..|run| - 1])
      case None => None
      case Some(mid) => if Enabled(c, mid, run[|run| - 1]) then Some(Next(c, mid, run[|run| - 1])) else None
  }

  /** A fresh operational stream over a file that held `init`. */
  ghost predicate Initial(s: State, init: bytes) {
    F.Initial(s.log, init) && !s.log.fsync && s.pending == map[] && s.done == []
  }

  // ---- what was accepted --------------------------------------------------------

  /** What a call left in the file: the last record it handed over, if that was accepted. */
  function AcceptedOf(m: O.Emission): seq<Record> {
    if m.writes != [] && m.writes[|m.writes| - 1].answer.Returns? then [m.writes[|m.writes| - 1].record] else []
  }

  ghost function Accepted(c: O.Config, calls: seq<O.Call>): seq<Record>
    requires O.ConfigOk(c)
  {
    if calls == [] then []
    else Accepted(c, calls[..|calls| - 1]) + AcceptedOf(EmissionOf(c, calls[|calls| - 1]))
  }

  lemma {:induction false} AcceptedSnoc(c: O.Config, calls: seq<O.Call>, call: O.Call)
    requires O.ConfigOk(c)
    ensures Accepted(c, calls + [call]) == Accepted(c, calls) + AcceptedOf(EmissionOf(c, call))
  {
    hide O.ConfigOk, AcceptedOf, EmissionOf;
    assert (calls + [call])[..|calls|] == calls;
  }

  /** A call marks health healthy exactly if the last record it handed over was accepted. */
  lemma {:induction false} HealthyIffAccepted(c: O.Config, call: O.Call)
    requires O.ConfigOk(c)
    ensures EmissionOf(c, call).mark == Some(Healthy) <==> AcceptedOf(EmissionOf(c, call)) != []
    ensures |AcceptedOf(EmissionOf(c, call))| <= 1
  {
    if c.strict {
      O.StrictWrites(c, call.severity, call.event, call.fields, call.answers);
    } else {
      O.EmitExactly(c, call.severity, call.event, call.fields, call.answers);
    }
    hide O.ConfigOk, O.Emit;
  }

  /** As many records were accepted as health was marked healthy. */
  lemma {:induction false} AcceptedCount(c: O.Config, calls: seq<O.Call>)
    requires O.ConfigOk(c)
    ensures |Accepted(c, calls)| == |O.HealthyMarks(O.Marks(c, calls))|
  {
    hide O.ConfigOk, AcceptedOf, EmissionOf, O.Emit, O.HealthyMarks;
    if calls == [] {
      NoHealthy();
    } else {
      var n := |calls| - 1;
      AcceptedCount(c, calls[..n]);
      HealthyIffAccepted(c, calls[n]);
      var before, m := O.Marks(c, calls[..n]), EmissionOf(c, calls[n]).mark;
      assert O.Marks(c, calls) == before + if m.Some? then [m.value] else [] by { MarksSnoc(c, calls); }
      hide O.Marks;
      if m.Some? {
        HealthyMore(before, m.value);
      } else {
        assert before + [] == before;
      }
    }
  }

  lemma {:induction false} MarksSnoc(c: O.Config, calls: seq<O.Call>)
    requires O.ConfigOk(c) && calls != []
    ensures var m := EmissionOf(c, calls[|calls| - 1]).mark;
            O.Marks(c, calls) == O.Marks(c, calls[..|calls| - 1]) + if m.Some? then [m.value] else []
  {
    hide O.ConfigOk, O.Emit;
  }

  lemma {:induction false} HealthyMore(marks: seq<Mark>, m: Mark)
    ensures |O.HealthyMarks(marks + [m])| == |O.HealthyMarks(marks)| + if m.Healthy? then 1 else 0
  {
    hide O.HealthyMarks;
    O.HealthySnoc(marks + [m]);
    assert (marks + [m])[..|marks|] == marks;
  }

  lemma {:induction false} NoHealthy()
    ensures O.HealthyMarks([]) == {}
  {
  }

  // ---- what an accepted record tells of its call ---------------------------------

  /** Why a call's defect is reported in place of its record, if it is. */
  ghost function DefectOf(c: O.Config, call: O.Call): Option<DefectKind> {
    var a := call.answers;
    if call.event.None? || call.event.value !in c.registry then Some(UNKNOWN_EVENT)
    else
      var schema := c.registry[call.event.value];
      if schema.severity != Some(call.severity) || !Passes(schema.fields, call.fields, false) then
        Some(SCHEMA_VIOLATION)
      else if a.clock.ClockRaises? then
        Some(if P.ClassOf(a.clock.e) == SchemaError then SCHEMA_VIOLATION else RECORD_CONSTRUCTION)
      else if !a.clock.now.utc then Some(RECORD_CONSTRUCTION)
      else if a.sink.Raises? && P.ClassOf(a.sink.e) == SchemaError then Some(OVERSIZE)
      else None
  }

  predicate ViolationWord(k: DefectKind, j: Json) {
    match k
    case UNKNOWN_EVENT => j == JStr(Lit("unknown_event"))
    case SCHEMA_VIOLATION => j == JStr(Lit("schema_violation"))
    case RECORD_CONSTRUCTION => j == JStr(Lit("record_construction"))
    case OVERSIZE => j == JStr(Lit("oversize"))
  }

  /** The entries of a stored report: the violation by its word, the event only if it is a well-formed id, and nothing
      else of the call. */
  ghost predicate TellsDefect(m: Entries, application: Text, emitter: Text, event: Option<Text>, kind: DefectKind) {
    && |m| == (if event.Some? && EventIdOk(event.value) then 8 else 7)
    && (exists iso :: Envelope(m, application, emitter, Lit("nmlogging.operational.defect"), iso))
    && m[5].0 == Lit("severity") && SeverityWord(ERROR, m[5].1)
    && m[6].0 == Lit("violation") && ViolationWord(kind, m[6].1)
    && (|m| == 8 ==> m[7] == (Lit("offending_event"), JStr(event.value)))
  }

  /** What was stored for a call tells what the call supplied, or else what was wrong with it. */
  ghost predicate Tells(c: O.Config, call: O.Call, m: Entries) {
    match DefectOf(c, call)
    case Some(kind) => TellsDefect(m, c.application, c.emitter, call.event, kind)
    case None =>
      && call.event.Some? && call.event.value in c.registry
      && TellsCall(m, c.application, c.emitter, c.registry[call.event.value], call.severity, call.fields, c.show)
  }

  lemma {:induction false} HandledAccepted(c: O.Config, call: O.Call, e: P.Exn, kind: DefectKind, r: Record)
    requires O.ConfigOk(c) && AcceptedOf(O.HandleDefect(c, call.event, e, kind, call.answers)) == [r]
    ensures call.answers.defectClock.Time? && r == O.Report(c, call.event, kind, call.answers)
  {
    O.DefectBuilds(c, call.event, kind, call.answers.defectClock);
    hide O.BuildRecord, DefectReport, DefectFields, SchemaOk, O.DefectFieldsOk;
  }

  lemma {:induction false} WrittenAccepted(c: O.Config, call: O.Call, record: Record, r: Record)
    requires O.ConfigOk(c) && AcceptedOf(O.WriteRecord(c, record, call.event, call.answers)) == [r]
    ensures var a := call.answers;
            if a.sink.Raises? && P.ClassOf(a.sink.e) == SchemaError
            then a.defectClock.Time? && r == O.Report(c, call.event, OVERSIZE, a)
            else r == record
  {
    hide O.HandleDefect, O.Report, O.ConfigOk;
    var a := call.answers;
    if a.sink.Raises? && P.ClassOf(a.sink.e) == SchemaError {
      var d := O.HandleDefect(c, call.event, a.sink.e, OVERSIZE, a);
      assert AcceptedOf(d) == [r];
      HandledAccepted(c, call, a.sink.e, OVERSIZE, r);
    }
  }

  /** An accepted record is the call's own, or the report of what was wrong with it. */
  lemma {:induction false} AcceptedIs(c: O.Config, call: O.Call, r: Record)
    requires O.ConfigOk(c) && AcceptedOf(EmissionOf(c, call)) == [r]
    ensures match DefectOf(c, call)
            case None => First(c, call) == Some(r)
            case Some(kind) => call.answers.defectClock.Time? && r == O.Report(c, call.event, kind, call.answers)
  {
    hide O.HandleDefect, O.WriteRecord, O.Report, O.BuildRecord, SchemaOk, Passes, AcceptedOf, Select, Render;
    var a := call.answers;
    assert AcceptedOf(O.Emission([], None, None)) == [] by { LastRaises([], O.Emission([], None, None)); }
    if call.event.None? || call.event.value !in c.registry {
      HandledAccepted(c, call, O.Own(SchemaError), UNKNOWN_EVENT, r);
    } else {
      var schema := c.registry[call.event.value];
      O.BuildsExactly(c, schema, call.severity, call.fields, a.clock);
      O.BuildFails(c, schema, call.severity, call.fields, a.clock);
      PassesIffAcceptable(schema.fields, call.fields, false);
      hide Acceptable;
      var b := O.BuildRecord(c, schema, call.severity, call.fields, a.clock);
      if b.Ok? {
        WrittenAccepted(c, call, b.value, r);
      } else if P.ClassOf(b.error) == SchemaError {
        HandledAccepted(c, call, b.error, SCHEMA_VIOLATION, r);
      } else if P.ClassOf(b.error) == ConfigurationError {
        HandledAccepted(c, call, b.error, RECORD_CONSTRUCTION, r);
      } else {
        LastRaises([], O.Emission([], None, Some(b.error)));
      }
    }
  }

  lemma {:induction false} ReportTold(c: O.Config, event: Option<Text>, kind: DefectKind, a: O.Answers)
    requires a.defectClock.Time? && Constructible(O.Report(c, event, kind, a))
    ensures TellsDefect(LineCodec.Mapping(O.Report(c, event, kind, a)), c.application, c.emitter, event, kind)
  {
    var r := O.Report(c, event, kind, a);
    OperationalMapping(r);
    DefectSays(event, kind);
    hide Constructible, LineCodec.Mapping, Envelope, DefectFields, EventIdOk, Lit, ConstructionError;
    var m := LineCodec.Mapping(r);
    var f := DefectFields(event, kind);
    assert m[6 + 0].0 == f[0].0 && Appears(f[0].1, m[6 + 0].1);
    if |f| == 2 {
      assert m[6 + 1].0 == f[1].0 && Appears(f[1].1, m[6 + 1].1);
    }
  }

  lemma {:induction false} OwnTold(c: O.Config, call: O.Call, r: Record)
    requires O.ConfigOk(c) && First(c, call) == Some(r) && Constructible(r)
    ensures call.event.Some? && call.event.value in c.registry
    ensures TellsCall(LineCodec.Mapping(r), c.application, c.emitter, c.registry[call.event.value], call.severity,
                      call.fields, c.show)
  {
    hide Constructible, LineCodec.Mapping, TellsCall, Passes, Select, Render, O.BuildRecord, EventIdOk, SpecOk,
         TemplateOk;
    var schema := c.registry[call.event.value];
    O.BuildsExactly(c, schema, call.severity, call.fields, call.answers.clock);
    CallTold(r, schema, call.fields, c.show);
  }

  lemma {:induction false} AcceptedTold(c: O.Config, call: O.Call, r: Record)
    requires O.ConfigOk(c) && AcceptedOf(EmissionOf(c, call)) == [r] && Constructible(r)
    ensures Tells(c, call, LineCodec.Mapping(r))
  {
    hide O.ConfigOk, AcceptedOf, EmissionOf, DefectOf, TellsDefect, TellsCall, LineCodec.Mapping, Constructible, First,
         O.Report;
    AcceptedIs(c, call, r);
    match DefectOf(c, call)
    case None => OwnTold(c, call, r);
    case Some(kind) => ReportTold(c, call.event, kind, call.answers);
  }

  /** The calls that marked health healthy, in order. */
  ghost function HealthyCalls(c: O.Config, calls: seq<O.Call>): seq<O.Call>
    requires O.ConfigOk(c)
  {
    if calls == [] then []
    else
      var last := calls[|calls| - 1];
      HealthyCalls(c, calls[..|calls| - 1]) + if EmissionOf(c, last).mark == Some(Healthy) then [last] else []
  }

  /** The accepted records are those of the calls that marked health healthy, one each, in order. */
  lemma {:induction false} AcceptedByHealthy(c: O.Config, calls: seq<O.Call>)
    requires O.ConfigOk(c)
    ensures |Accepted(c, calls)| == |HealthyCalls(c, calls)|
    ensures forall i :: 0 <= i < |Accepted(c, calls)| ==>
              AcceptedOf(EmissionOf(c, HealthyCalls(c, calls)[i])) == [Accepted(c, calls)[i]]
  {
    hide O.ConfigOk, AcceptedOf, EmissionOf, O.Emit;
    if calls != [] {
      var n := |calls| - 1;
      AcceptedByHealthy(c, calls[..n]);
      HealthyIffAccepted(c, calls[n]);
    }
  }

  lemma {:induction false} HealthyTold(c: O.Config, calls: seq<O.Call>, ms: seq<Entries>)
    requires O.ConfigOk(c) && E.ReadAs(Accepted(c, calls), ms)
    ensures |ms| == |HealthyCalls(c, calls)|
    ensures forall i :: 0 <= i < |ms| ==> Tells(c, HealthyCalls(c, calls)[i], ms[i])
  {
    hide O.ConfigOk, AcceptedOf, EmissionOf, Accepted, HealthyCalls, Tells, LineCodec.Mapping, Constructible;
    AcceptedByHealthy(c, calls);
    forall i | 0 <= i < |ms| ensures Tells(c, HealthyCalls(c, calls)[i], ms[i]) {
      AcceptedTold(c, HealthyCalls(c, calls)[i], Accepted(c, calls)[i]);
    }
  }

  // ---- what the lock's answer decides -------------------------------------------

  /** Only the answer to the last record is open: whatever it is, the same records were handed over, and what was handed
      over before was refused. */
  ghost predicate Closes(w: seq<P.Attempt>, r: Option<Record>, answer: P.SinkAnswer) {
    && (w != [] <==> r.Some?)
    && (w != [] ==> w[|w| - 1] == P.Attempt(r.value, answer))
  }

  /** The call's own record comes to the lock. */
  lemma {:induction false} OwnCloses(c: O.Config, call: O.Call, answer: P.SinkAnswer)
    requires O.ConfigOk(c) && First(c, call).Some? && Encodable(First(c, call).value) && FromLock(answer)
    ensures Closes(EmissionOf(c, Finish(c, call, answer)).writes, First(c, call), answer)
  {
    hide O.ConfigOk, O.BuildRecord, O.HandleDefect, Encodable;
  }

  /** The report of a defect: its record does not depend on the sink's answer to it. */
  lemma {:induction false} HandledCloses(c: O.Config, call: O.Call, e: P.Exn, kind: DefectKind, answer: P.SinkAnswer,
                                         other: P.SinkAnswer)
    requires O.ConfigOk(c)
    ensures var w := O.HandleDefect(c, call.event, e, kind, WithDefectSink(call, answer).answers).writes;
            var v := O.HandleDefect(c, call.event, e, kind, WithDefectSink(call, other).answers).writes;
            Closes(w, if v == [] then None else Some(v[|v| - 1].record), answer)
  {
    hide O.ConfigOk, O.BuildRecord;
  }

  /** The call has no record of its own: at most its defect is handed over. */
  lemma {:induction false} DefectCloses(c: O.Config, call: O.Call, answer: P.SinkAnswer, other: P.SinkAnswer)
    requires O.ConfigOk(c) && First(c, call).None?
    ensures var w := EmissionOf(c, WithDefectSink(call, answer)).writes;
            var v := EmissionOf(c, WithDefectSink(call, other)).writes;
            Closes(w, if v == [] then None else Some(v[|v| - 1].record), answer)
  {
    hide O.HandleDefect, O.WriteRecord, Closes, EventIdOk, ApplicationOk, EmitterOk, SpecOk, TemplateOk, IsReserved;
    if call.event.None? || call.event.value !in c.registry {
      HandledCloses(c, call, O.Own(SchemaError), UNKNOWN_EVENT, answer, other);
    } else {
      var schema := c.registry[call.event.value];
      var built := O.BuildRecord(c, schema, call.severity, call.fields, call.answers.clock);
      hide O.BuildRecord, SchemaOk;
      HandledCloses(c, call, built.error, SCHEMA_VIOLATION, answer, other);
      HandledCloses(c, call, built.error, RECORD_CONSTRUCTION, answer, other);
      NothingCloses(answer);
    }
  }

  lemma {:induction false} NothingCloses(answer: P.SinkAnswer)
    ensures Closes([], None, answer)
  {
  }

  /** The encoder refuses the call's own record: at most the report of that is handed over besides. */
  lemma {:induction false} OversizeCloses(c: O.Config, call: O.Call, answer: P.SinkAnswer, other: P.SinkAnswer)
    requires O.ConfigOk(c) && First(c, call).Some? && !Encodable(First(c, call).value)
    ensures var r := First(c, call).value;
            var w := EmissionOf(c, WithDefectSink(WithSink(call, Refusal(r)), answer)).writes;
            var v := EmissionOf(c, WithDefectSink(WithSink(call, Refusal(r)), other)).writes;
            && w != [] && v != [] && w[|w| - 1].record == v[|v| - 1].record
            && (w[|w| - 1].answer == answer || w[|w| - 1] == P.Attempt(r, Refusal(r)))
            && (w[|w| - 1].answer == answer || v[|v| - 1].record == r)
  {
    hide O.ConfigOk, O.BuildRecord, Encodable;
  }

  lemma {:induction false} DecidedLast(c: O.Config, call: O.Call, answer: P.SinkAnswer)
    requires O.ConfigOk(c) && ToLock(c, call).Some? && FromLock(answer)
    ensures AcceptedOf(EmissionOf(c, Finish(c, call, answer))) ==
            if answer.Returns? then [ToLock(c, call).value] else []
  {
    hide O.ConfigOk, EmissionOf, Encodable, First, Refusal, WithDefectSink, WithSink;
    if First(c, call).None? {
      DefectCloses(c, call, answer, P.Returns);
    } else if Encodable(First(c, call).value) {
      OwnCloses(c, call, answer);
      OwnCloses(c, call, P.Returns);
    } else {
      OversizeCloses(c, call, answer, P.Returns);
    }
  }

  lemma {:induction false} LastRaises(w: seq<P.Attempt>, m: O.Emission)
    requires m.writes == w && (w == [] || w[|w| - 1].answer.Raises?)
    ensures AcceptedOf(m) == []
  {
  }

  lemma {:induction false} LocalLeavesNothing(c: O.Config, call: O.Call)
    requires O.ConfigOk(c) && ToLock(c, call).None?
    ensures AcceptedOf(EmissionOf(c, Ended(c, call))) == []
  {
    var last := LastRecord(c, call);
    var answer := if last.Some? then Refusal(last.value) else P.Returns;
    assert forall r :: Refusal(r).Raises?;
    hide O.ConfigOk, EmissionOf, Encodable, First, Refusal, WithDefectSink, WithSink, AcceptedOf;
    var m := EmissionOf(c, Ended(c, call));
    if First(c, call).None? {
      DefectCloses(c, call, answer, P.Returns);
    } else if Encodable(First(c, call).value) {
      OwnCloses(c, call, P.Returns);
    } else {
      OversizeCloses(c, call, answer, P.Returns);
    }
    LastRaises(m.writes, m);
  }

  // ---- the invariant --------------------------------------------------------------

  function RecordsIn(h: seq<F.Attempt>): (r: seq<Record>)
    ensures |r| == |h| && forall i :: 0 <= i < |h| ==> r[i] == h[i].record
  {
    seq(|h|, i requires 0 <= i < |h| => h[i].record)
  }

  /** A thread carries a record exactly while its call is pending, and it is the one that call brings. */
  ghost predicate ThreadOk(c: O.Config, s: State, t: F.Tid)
    requires O.ConfigOk(c)
  {
    && (A.Carried(s.log, t).Some? <==> t in s.pending)
    && (t in s.pending ==> A.Carried(s.log, t) == ToLock(c, s.pending[t]))
  }

  ghost predicate Inv(c: O.Config, s: State, init: bytes) {
    && O.ConfigOk(c) && F.Inv(s.log, init) && !s.log.fsync
    && (forall t: F.Tid :: ThreadOk(c, s, t))
    && RecordsIn(F.Framed(s.log.history)) == Accepted(c, s.done)
  }

  lemma {:induction false} LogInv(s: F.State, step: F.Action, init: bytes)
    requires F.Inv(s, init) && !s.fsync && F.Enabled(s, step)
    ensures F.Inv(F.Next(s, step), init) && !F.Next(s, step).fsync
  {
    F.StepInv(s, step, init);
    hide F.Inv;
  }

  lemma {:induction false} QuietInv(c: O.Config, s: State, step: F.Action, init: bytes)
    requires Inv(c, s, init) && Enabled(c, s, Quiet(step))
    ensures Inv(c, Next(c, s, Quiet(step)), init)
  {
    var s' := Next(c, s, Quiet(step));
    hide O.ConfigOk, F.Inv, F.Next, F.Enabled, A.Carried, ToLock, Accepted, F.Framed, RecordsIn;
    LogInv(s.log, step, init);
    forall t: F.Tid ensures ThreadOk(c, s', t) {
      assert ThreadOk(c, s, t);
      A.QuietCarries(s.log, step, t);
    }
  }

  lemma {:induction false} WriteThread(c: O.Config, s: State, t: F.Tid, sink: F.SinkId, line: bytes, call: O.Call,
                                       u: F.Tid)
    requires O.ConfigOk(c) && Enabled(c, s, Write(t, sink, line, call)) && ThreadOk(c, s, u)
    ensures ThreadOk(c, Next(c, s, Write(t, sink, line, call)), u)
  {
    A.SubmitQuiet(s.log, t, sink, ToLock(c, call).value, line);
    hide O.ConfigOk, F.Next, F.Enabled, A.Carried, ToLock;
  }

  lemma {:induction false} WriteInv(c: O.Config, s: State, t: F.Tid, sink: F.SinkId, line: bytes, call: O.Call,
                                    init: bytes)
    requires Inv(c, s, init) && Enabled(c, s, Write(t, sink, line, call))
    ensures Inv(c, Next(c, s, Write(t, sink, line, call)), init)
  {
    var s' := Next(c, s, Write(t, sink, line, call));
    hide O.ConfigOk, F.Inv, F.Next, F.Enabled, ThreadOk, ToLock, Accepted, F.Framed, RecordsIn;
    LogInv(s.log, F.Submit(t, sink, ToLock(c, call).value, line), init);
    A.SubmitQuiet(s.log, t, sink, ToLock(c, call).value, line);
    forall u: F.Tid ensures ThreadOk(c, s', u) {
      assert ThreadOk(c, s, u);
      WriteThread(c, s, t, sink, line, call, u);
    }
  }

  lemma {:induction false} FramedMore(h: seq<F.Attempt>, a: F.Attempt)
    ensures RecordsIn(F.Framed(h + [a])) == RecordsIn(F.Framed(h)) + if F.IsFramed(a) then [a.record] else []
  {
    hide F.Framed, F.IsFramed;
    F.Snoc(h, a);
  }

  lemma {:induction false} DecideThread(c: O.Config, s: State, step: F.Action, answer: P.SinkAnswer, t: F.Tid)
    requires O.ConfigOk(c) && Enabled(c, s, Decide(step, answer)) && ThreadOk(c, s, t)
    ensures ThreadOk(c, Next(c, s, Decide(step, answer)), t)
  {
    hide O.ConfigOk, F.Next, F.Enabled, A.Carried, ToLock, A.Answers, Finish;
    var a :| F.Next(s.log, step).history == s.log.history + [a] && A.Answers(a, P.Attempt(a.record, answer));
    A.DecideCarries(s.log, step, a);
  }

  lemma {:induction false} DecideAccepts(c: O.Config, s: State, step: F.Action, answer: P.SinkAnswer)
    requires O.ConfigOk(c) && Enabled(c, s, Decide(step, answer)) && ThreadOk(c, s, step.tid)
    requires RecordsIn(F.Framed(s.log.history)) == Accepted(c, s.done)
    ensures var s' := Next(c, s, Decide(step, answer)); RecordsIn(F.Framed(s'.log.history)) == Accepted(c, s'.done)
  {
    var t := step.tid;
    hide O.ConfigOk, F.Next, F.Enabled, A.Carried, ToLock, Accepted, AcceptedOf, F.Framed, RecordsIn, Finish;
    var a :| F.Next(s.log, step).history == s.log.history + [a] && A.Answers(a, P.Attempt(a.record, answer));
    A.DecideCarries(s.log, step, a);
    FramedMore(s.log.history, a);
    DecidedLast(c, s.pending[t], answer);
    AcceptedSnoc(c, s.done, Finish(c, s.pending[t], answer));
  }

  lemma {:induction false} DecideInv(c: O.Config, s: State, step: F.Action, answer: P.SinkAnswer, init: bytes)
    requires Inv(c, s, init) && Enabled(c, s, Decide(step, answer))
    ensures Inv(c, Next(c, s, Decide(step, answer)), init)
  {
    var s' := Next(c, s, Decide(step, answer));
    hide O.ConfigOk, F.Inv, F.Next, F.Enabled, ThreadOk, Accepted, F.Framed, RecordsIn, Finish, A.Answers, FromLock;
    LogInv(s.log, step, init);
    forall u: F.Tid ensures ThreadOk(c, s', u) {
      assert ThreadOk(c, s, u);
      DecideThread(c, s, step, answer, u);
    }
    assert ThreadOk(c, s, step.tid);
    DecideAccepts(c, s, step, answer);
  }

  lemma {:induction false} LocalInv(c: O.Config, s: State, call: O.Call, init: bytes)
    requires Inv(c, s, init) && Enabled(c, s, Local(call))
    ensures Inv(c, Next(c, s, Local(call)), init)
  {
    var s' := Next(c, s, Local(call));
    hide O.ConfigOk, F.Inv, A.Carried, ToLock, Accepted, AcceptedOf, F.Framed, RecordsIn, Ended;
    LocalLeavesNothing(c, call);
    AcceptedSnoc(c, s.done, Ended(c, call));
    assert Accepted(c, s.done) + [] == Accepted(c, s.done);
    forall u: F.Tid ensures ThreadOk(c, s', u) {
      assert ThreadOk(c, s, u);
    }
  }

  /** Every call and every system call keeps the log framed, each thread's record the one its call brought, and the
      framed records those that were accepted, in lock order. */
  lemma {:induction false} StepInv(c: O.Config, s: State, a: Action, init: bytes)
    requires Inv(c, s, init) && Enabled(c, s, a)
    ensures Inv(c, Next(c, s, a), init)
  {
    hide Inv, Next, Enabled;
    match a
    case Quiet(step) => QuietInv(c, s, step, init);
    case Write(t, sink, line, call) => WriteInv(c, s, t, sink, line, call, init);
    case Decide(step, answer) => DecideInv(c, s, step, answer, init);
    case Local(call) => LocalInv(c, s, call, init);
  }

  lemma {:induction false} StartInv(c: O.Config, s: State, init: bytes)
    requires O.ConfigOk(c) && Initial(s, init)
    ensures Inv(c, s, init)
  {
    F.InitialInv(s.log, init);
    hide F.Inv, O.ConfigOk;
    assert F.Framed([]) == [];
  }

  lemma {:induction false} RunInv(c: O.Config, s: State, run: seq<Action>, s': State, init: bytes)
    requires O.ConfigOk(c) && Initial(s, init) && Exec(c, s, run) == Some(s')
    ensures Inv(c, s', init)
  {
    hide O.ConfigOk, Inv, Next, Enabled;
    if run == [] {
      StartInv(c, s, init);
    } else {
      var mid := Exec(c, s, run[..|run| - 1]).value;
      RunInv(c, s, run[..|run| - 1], mid, init);
      StepInv(c, mid, run[|run| - 1], init);
    }
  }

  // ---- what the reader yields -------------------------------------------------------

  /** Reading raises nothing and yields exactly the accepted records, in the order in which they were decided: as many
      as calls marked health healthy, and each tells what its call supplied, or what was wrong with it. A torn tail is
      reported exactly if there is one. */
  ghost predicate AllRead(c: O.Config, s: State, n: nat, got: Reading)
    requires O.ConfigOk(c)
  {
    && got.error.None? && got.truncated == (F.TornTail(s.log) != [])
    && n <= |got.yielded| && E.ReadAs(Accepted(c, s.done), got.yielded[n..])
    && |got.yielded[n..]| == |O.HealthyMarks(O.Marks(c, s.done))| == |HealthyCalls(c, s.done)|
    && forall i :: 0 <= i < |HealthyCalls(c, s.done)| ==> Tells(c, HealthyCalls(c, s.done)[i], got.yielded[n..][i])
  }

  lemma {:induction false} NeverSyncing(s: F.State, init: bytes)
    requires F.Inv(s, init) && !s.fsync
    ensures F.WholeLines(s) == F.LinesOf(F.Framed(s.history))
  {
    if s.lock.Some? {
      assert F.PhaseOk(s, s.lock.value);
    }
  }

  lemma {:induction false} FramedReadAs(h: seq<F.Attempt>)
    requires F.Tidy(h)
    ensures AllGood(F.LinesOf(F.Framed(h))) && E.ReadAs(RecordsIn(F.Framed(h)), MappingsOf(F.LinesOf(F.Framed(h))))
  {
    hide F.Tidy, F.Framed, ReadsAs, IsGood, MappingOf;
    FramedMappings(h);
  }

  /** At every moment of every run of operational calls, in any threads and any interleaving, the reader yields exactly
      the records of the calls that marked health healthy, in lock order, and nothing of a call that degraded or
      raised. */
  lemma {:induction false} HealthyIsReadBack(c: O.Config, s0: State, run: seq<Action>, s: State, init: seq<bytes>)
    requires O.ConfigOk(c) && WellFramed(init) && Initial(s0, Flatten(init)) && Exec(c, s0, run) == Some(s)
    ensures AllRead(c, s, |init|, Read(Some(s.log.file)))
  {
    RunInv(c, s0, run, s, Flatten(init));
    hide O.ConfigOk, Exec, Initial;
    ReadsWholeLines(s.log, init);
    NeverSyncing(s.log, Flatten(init));
    assert F.Tidy(s.log.history);
    FramedReadAs(s.log.history);
    AcceptedCount(c, s.done);
    hide F.Inv, F.Framed, F.WholeLines, Flatten, WellFramed, Read, IsGood, MappingOf, Accepted, ReadsAs, F.TornTail,
         ThreadOk;
    var m := MappingsOf(F.WholeLines(s.log));
    assert (MappingsOf(init) + m)[|init|..] == m;
    HealthyTold(c, s.done, m);
    hide Tells, HealthyCalls;
  }

  function AnswerTo(a: F.Attempt): P.SinkAnswer {
    if a.result == F.Complete then P.Returns else P.Raises(P.Raised(SinkError, 0), false)
  }

  lemma {:induction false} DecisionPossible(c: O.Config, s: State, step: F.Action, a: F.Attempt)
    requires O.ConfigOk(c) && F.Enabled(s.log, step) && !step.Close? && ThreadOk(c, s, step.tid)
    requires F.Next(s.log, step).history == s.log.history + [a] && a.result != F.SyncFailed
    ensures Enabled(c, s, Decide(step, AnswerTo(a)))
  {
    A.DecideCarries(s.log, step, a);
    hide O.ConfigOk, F.Next, F.Enabled, A.Carried, ToLock;
    assert A.Answers(a, P.Attempt(a.record, AnswerTo(a)));
  }

  /** Joining the calls to the log takes no behaviour from the log: in every reachable state each system call that is
      possible there, however it ends, is possible here. */
  lemma {:induction false} SystemCallsFree(c: O.Config, s: State, step: F.Action, init: bytes)
    requires Inv(c, s, init) && F.Enabled(s.log, step) && !step.Submit?
    ensures exists a :: Enabled(c, s, a) && Next(c, s, a).log == F.Next(s.log, step)
  {
    A.DecidesAtMostOne(s.log, step);
    if F.Next(s.log, step).history == s.log.history {
      hide O.ConfigOk, F.Inv, F.Next, F.Enabled, ThreadOk;
      assert Enabled(c, s, Quiet(step)) && Next(c, s, Quiet(step)).log == F.Next(s.log, step);
    } else {
      var a :| F.Next(s.log, step).history == s.log.history + [a];
      assert ThreadOk(c, s, step.tid);
      hide O.ConfigOk, F.Inv, F.Next, F.Enabled, ThreadOk, Finish, Enabled;
      NoSyncFailure(s.log, step, a, init);
      DecisionPossible(c, s, step, a);
      assert Next(c, s, Decide(step, AnswerTo(a))).log == F.Next(s.log, step);
    }
  }

  lemma {:induction false} NoSyncFailure(s: F.State, step: F.Action, a: F.Attempt, init: bytes)
    requires F.Inv(s, init) && !s.fsync && F.Enabled(s, step) && !step.Close?
    requires F.Next(s, step).history == s.history + [a]
    ensures a.result != F.SyncFailed
  {
    assert F.PhaseOk(s, step.tid);
    assert (s.history + [a])[|s.history|] == a;
    hide F.Encodes, F.Written, F.HasPartial, F.Tidy, F.AckedEnd;
  }
}
