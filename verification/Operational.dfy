/** The fail-open operational facade: what one emit does to the sink, the health object and the fallback. */
module Operational {
  import opened Basics
  import opened Records
  import opened LineCodec
  import opened Events
  import opened DefectRecord
  import opened Health
  import Fallback
  import P = AuditProtocol

  datatype Config = Config(
    application: Text,
    emitter: Text,
    registry: map<Text, EventSchema>,
    show: Value -> Text,
    strict: bool
  )

  ghost predicate ConfigOk(c: Config) {
    && ApplicationOk(c.application) && EmitterOk(c.emitter)
    && (forall e :: e in c.registry ==> c.registry[e].eventId == e && SchemaOk(c.registry[e]))
    && DEFECT_EVENT in c.registry && c.registry[DEFECT_EVENT] == DEFECT_SCHEMA
  }

  /** What one emit does: the records handed to the sink, the health mark, the exception that leaves it. */
  datatype Emission = Emission(writes: seq<P.Attempt>, mark: Option<Mark>, escaped: Option<P.Exn>)

  /** The environment's answers to one emit: twice the clock, twice the sink, and what the fallback raised if asked. */
  datatype Answers = Answers(
    clock: P.ClockAnswer,
    sink: P.SinkAnswer,
    defectClock: P.ClockAnswer,
    defectSink: P.SinkAnswer,
    fallback: Option<P.Exn>
  )

  /** An exception that the facade makes itself, about no operation. */
  function Own(cls: ExnClass): P.Exn {
    P.Package(cls, [])
  }

  /** Guard, render, clock, construction of an operational record. */
  function BuildRecord(c: Config, schema: EventSchema, severity: Severity, fields: Fields, clock: P.ClockAnswer)
    : Result<Record, P.Exn>
    requires SchemaOk(schema)
  {
    match ValidateOperational(schema, severity, fields)
    case Err(cls) => Err(Own(cls))
    case Ok(validated) =>
      match clock
      case ClockRaises(e) => Err(e)
      case Time(now) =>
        SelectUnique(schema.fields, fields);
        var record := Record(c.application, c.emitter, schema.eventId, now, validated,
                             Render(schema, validated, c.show), Operational(severity));
        match ConstructionError(record)
        case Some(cls) => Err(Own(cls))
        case None => Ok(record)
  }

  predicate Interrupts(e: Option<P.Exn>) {
    e.Some? && P.ClassOf(e.value) == Interrupt
  }

  /** `_degrade`: health is marked first; whatever the fallback raises is swallowed, unless it is an interrupt. */
  function Degrade(writes: seq<P.Attempt>, kind: FailureKind, fallback: Option<P.Exn>): Emission {
    Emission(writes, Some(Degraded(kind)), if Interrupts(fallback) then fallback else None)
  }

  /** What becomes of a self-report: one attempt; any Exception degrades, only an interrupt leaves. */
  function Reported(built: Result<Record, P.Exn>, answer: P.SinkAnswer, fallback: Option<P.Exn>): Emission {
    match built
    case Err(e) =>
      if P.ClassOf(e) == Interrupt then Emission([], None, Some(e)) else Degrade([], DEFECT_UNWRITABLE, fallback)
    case Ok(record) =>
      var attempt := [P.Attempt(record, answer)];
      match answer
      case Returns => Emission(attempt, Some(Healthy), None)
      case Raises(e, _) =>
        if P.ClassOf(e) == Interrupt then Emission(attempt, None, Some(e))
        else Degrade(attempt, DEFECT_UNWRITABLE, fallback)
  }

  /** `_emit_defect_record`. */
  function EmitDefect(c: Config, event: Option<Text>, kind: DefectKind, a: Answers): Emission
    requires ConfigOk(c)
  {
    DefectFieldsAccepted(event, kind);
    var built := BuildRecord(c, DEFECT_SCHEMA, ERROR, DefectFields(event, kind), a.defectClock);
    Reported(built, a.defectSink, a.fallback)
  }

  function HandleDefect(c: Config, event: Option<Text>, e: P.Exn, kind: DefectKind, a: Answers): Emission
    requires ConfigOk(c)
  {
    if c.strict then Emission([], None, Some(e)) else EmitDefect(c, event, kind, a)
  }

  /** `_write`: a schema error is a defect, a sink error degrades, anything else leaves. */
  function WriteRecord(c: Config, record: Record, event: Option<Text>, a: Answers): Emission
    requires ConfigOk(c)
  {
    var attempt := [P.Attempt(record, a.sink)];
    match a.sink
    case Returns => Emission(attempt, Some(Healthy), None)
    case Raises(e, _) =>
      if P.ClassOf(e) == SchemaError then
        var d := HandleDefect(c, event, e, OVERSIZE, a);
        d.(writes := attempt + d.writes)
      else if P.ClassOf(e) == SinkError then Degrade(attempt, SINK_WRITE, a.fallback)
      else Emission(attempt, None, Some(e))
  }

  /** `_emit`. */
  function Emit(c: Config, severity: Severity, event: Option<Text>, fields: Fields, a: Answers): Emission
    requires ConfigOk(c)
  {
    if event.None? || event.value !in c.registry then HandleDefect(c, event, Own(SchemaError), UNKNOWN_EVENT, a)
    else
      match BuildRecord(c, c.registry[event.value], severity, fields, a.clock)
      case Err(e) =>
        if P.ClassOf(e) == SchemaError then HandleDefect(c, event, e, SCHEMA_VIOLATION, a)
        else if P.ClassOf(e) == ConfigurationError then HandleDefect(c, event, e, RECORD_CONSTRUCTION, a)
        else Emission([], None, Some(e))
      case Ok(record) => WriteRecord(c, record, event, a)
  }

  // ---- totality -----------------------------------------------------------

  /** The call is handled as a defect. */
  predicate IsDefect(c: Config, severity: Severity, event: Option<Text>, fields: Fields, a: Answers) {
    if !AsksClock(c, severity, event, fields) then true
    else if a.clock.ClockRaises? then P.ClassOf(a.clock.e) in {SchemaError, ConfigurationError}
    else if !a.clock.now.utc then true
    else a.sink.Raises? && P.ClassOf(a.sink.e) == SchemaError
  }

  function TickIf(asked: bool, answer: P.ClockAnswer): seq<P.ClockAnswer> {
    if asked then [answer] else []
  }

  /** What the clock was asked, in order: for the call's own record if the guard passes, and for the report of a
      defect. */
  function Ticks(c: Config, severity: Severity, event: Option<Text>, fields: Fields, a: Answers): seq<P.ClockAnswer> {
    TickIf(AsksClock(c, severity, event, fields), a.clock)
    + TickIf(!c.strict && IsDefect(c, severity, event, fields, a), a.defectClock)
  }

  /** The sink could not write the record of the call. */
  predicate SinkFailed(c: Config, severity: Severity, event: Option<Text>, fields: Fields, a: Answers)
    requires forall e :: e in c.registry ==> SchemaOk(c.registry[e])
  {
    Reaches(c, severity, event, fields, a) && a.sink.Raises? && P.ClassOf(a.sink.e) == SinkError
  }

  /** A sink that keeps its contract refuses with a schema or a sink error. */
  predicate SinkAbides(answer: P.SinkAnswer) {
    answer.Raises? ==> P.ClassOf(answer.e) in {SchemaError, SinkError}
  }

  predicate ClockTells(answer: P.ClockAnswer) {
    answer.ClockRaises? ==> P.ClassOf(answer.e) in {SchemaError, ConfigurationError}
  }

  predicate NoInterrupt(a: Answers) {
    && (a.defectClock.ClockRaises? ==> P.ClassOf(a.defectClock.e) != Interrupt)
    && (a.defectSink.Raises? ==> P.ClassOf(a.defectSink.e) != Interrupt)
    && !Interrupts(a.fallback)
  }

  /** The call reaches the sink with its record. */
  predicate Reaches(c: Config, severity: Severity, event: Option<Text>, fields: Fields, a: Answers)
    requires forall e :: e in c.registry ==> SchemaOk(c.registry[e])
  {
    event.Some? && event.value in c.registry && BuildRecord(c, c.registry[event.value], severity, fields, a.clock).Ok?
  }

  /** The call gets past the schema, so the clock is asked. */
  predicate AsksClock(c: Config, severity: Severity, event: Option<Text>, fields: Fields) {
    && event.Some? && event.value in c.registry
    && ValidateOperational(c.registry[event.value], severity, fields).Ok?
  }

  /** An interrupt while a defect is reported, before health could be marked. */
  predicate DefectUnmarked(a: Answers) {
    if a.defectClock.ClockRaises? then P.ClassOf(a.defectClock.e) == Interrupt
    else a.defectClock.now.utc && a.defectSink.Raises? && P.ClassOf(a.defectSink.e) == Interrupt
  }

  predicate DefectWritten(a: Answers) {
    a.defectClock.Time? && a.defectClock.now.utc && a.defectSink.Returns?
  }

  /** The same, or an interrupt from the fallback when the report failed. */
  predicate DefectEscapes(a: Answers) {
    DefectUnmarked(a) || (!DefectWritten(a) && Interrupts(a.fallback))
  }

  /** A sink that breaks its contract, or an interrupt after it refused the record. */
  predicate WriteUnmarked(a: Answers) {
    a.sink.Raises? && if P.ClassOf(a.sink.e) == SchemaError then DefectUnmarked(a) else P.ClassOf(a.sink.e) != SinkError
  }

  predicate WriteEscapes(a: Answers) {
    && a.sink.Raises?
    && if P.ClassOf(a.sink.e) == SchemaError then DefectEscapes(a)
       else P.ClassOf(a.sink.e) == SinkError ==> Interrupts(a.fallback)
  }

  /** The calls that leave no health mark: their own clock or sink is outside its contract, or an interrupt comes
      while a defect is reported. */
  predicate Unmarked(c: Config, severity: Severity, event: Option<Text>, fields: Fields, a: Answers)
    requires forall e :: e in c.registry ==> SchemaOk(c.registry[e])
  {
    if AsksClock(c, severity, event, fields) && !ClockTells(a.clock) then true
    else if Reaches(c, severity, event, fields, a) then WriteUnmarked(a)
    else DefectUnmarked(a)
  }

  /** What a call can fail by in production: the same, or an interrupt from the fallback once health is marked. */
  predicate Escapes(c: Config, severity: Severity, event: Option<Text>, fields: Fields, a: Answers)
    requires forall e :: e in c.registry ==> SchemaOk(c.registry[e])
  {
    if AsksClock(c, severity, event, fields) && !ClockTells(a.clock) then true
    else if Reaches(c, severity, event, fields, a) then WriteEscapes(a)
    else DefectEscapes(a)
  }

  /** The self-report is built exactly when the clock tells a UTC time. */
  lemma {:induction false} DefectBuilds(c: Config, event: Option<Text>, kind: DefectKind, clock: P.ClockAnswer)
    requires ConfigOk(c)
    ensures DefectFieldsOk(event, kind)
    ensures var b := BuildRecord(c, DEFECT_SCHEMA, ERROR, DefectFields(event, kind), clock);
            && (clock.ClockRaises? ==> b == Err(clock.e))
            && (clock.Time? && !clock.now.utc ==> b == Err(Own(ConfigurationError)))
            && (clock.Time? && clock.now.utc ==>
                  b == Ok(DefectReport(c.application, c.emitter, clock.now, event, kind)))
  {
    DefectFieldsAccepted(event, kind);
    hide ValidateOperational, DefectFields, ConstructionError, ApplicationOk, EmitterOk, SchemaOk;
    if clock.Time? {
      DefectConstructible(c.application, c.emitter, clock.now, event, kind);
    }
  }

  ghost predicate DefectFieldsOk(event: Option<Text>, kind: DefectKind) {
    UniqueKeys(DefectFields(event, kind))
  }

  /** The report of a defect can fail only through the clock or the write. */
  ghost predicate DefectEnds(d: Emission, a: Answers) {
    && |d.writes| <= 1
    && (d.mark == Some(Healthy) <==> DefectWritten(a))
    && (d.escaped.Some? <==> DefectEscapes(a))
    && (d.mark.None? <==> DefectUnmarked(a))
    && (d.escaped.None? ==> d.mark.Some?)
    && (d.mark.Some? ==> d.mark.value == Healthy || d.mark.value == Degraded(DEFECT_UNWRITABLE))
    && (d.mark == Some(Healthy) <==> d.writes != [] && d.writes[0].answer.Returns?)
  }

  lemma {:induction false} DefectEnding(c: Config, event: Option<Text>, kind: DefectKind, a: Answers)
    requires ConfigOk(c)
    ensures DefectEnds(EmitDefect(c, event, kind, a), a)
    ensures a.defectClock.Time? && a.defectClock.now.utc ==>
              EmitDefect(c, event, kind, a).writes ==
              [P.Attempt(DefectReport(c.application, c.emitter, a.defectClock.now, event, kind), a.defectSink)]
  {
    hide BuildRecord, DefectFields, SchemaOk, DefectReport, DefectFieldsOk, ConfigOk;
    DefectBuilds(c, event, kind, a.defectClock);
  }

  /** How the report of a defect ends; with an ordinary clock the record it hands to the sink always encodes. */
  lemma {:induction false} DefectContained(c: Config, event: Option<Text>, kind: DefectKind, a: Answers)
    requires ConfigOk(c)
    ensures var d := EmitDefect(c, event, kind, a);
            && DefectEnds(d, a)
            && (a.defectClock.Time? && ShortTime(a.defectClock.now) ==>
                  && d.writes == [P.Attempt(DefectReport(c.application, c.emitter, a.defectClock.now, event, kind),
                                            a.defectSink)]
                  && Constructible(d.writes[0].record) && EncodeLine(d.writes[0].record).Ok?)
  {
    DefectEnding(c, event, kind, a);
    hide DefectEnds, EmitDefect, SchemaOk, EncodeLine, Constructible, DefectReport;
    if a.defectClock.Time? && ShortTime(a.defectClock.now) {
      DefectLineFits(c.application, c.emitter, a.defectClock.now, event, kind);
    }
  }

  /** What fails before the sink is asked: a schema or a configuration error of the facade, or the clock's exception. */
  lemma {:induction false} BuildFails(c: Config, schema: EventSchema, severity: Severity, fields: Fields,
                                      clock: P.ClockAnswer)
    requires SchemaOk(schema)
    ensures var b := BuildRecord(c, schema, severity, fields, clock);
            var guarded := ValidateOperational(schema, severity, fields).Ok?;
            && (b.Err? ==> b.error in {Own(SchemaError), Own(ConfigurationError)}
                           || (guarded && clock.ClockRaises? && b.error == clock.e))
            && (guarded && clock.ClockRaises? ==> b == Err(clock.e))
            && (b.Ok? ==> guarded && clock.Time? && Constructible(b.value) && b.value.kind == Operational(severity))
  {
    hide SchemaOk, Render;
  }

  /** What one call may do: raise and leave no mark only as told, mark health once if it returns, and as a failed write
      only when the sink failed on the call's own record; write at most twice. */
  ghost predicate Lawful(m: Emission, escapes: bool, unmarked: bool, sinkFailed: bool) {
    && (m.escaped.Some? <==> escapes)
    && (m.mark.None? <==> unmarked)
    && (m.escaped.None? ==> m.mark.Some?)
    && (m.mark == Some(Degraded(SINK_WRITE)) <==> sinkFailed)
    && |m.writes| <= 2
    && (m.mark == Some(Healthy) <==> m.writes != [] && m.writes[|m.writes| - 1].answer.Returns?)
  }

  lemma {:induction false} HandledLawful(c: Config, event: Option<Text>, e: P.Exn, kind: DefectKind, a: Answers)
    requires ConfigOk(c) && !c.strict
    ensures Lawful(HandleDefect(c, event, e, kind, a), DefectEscapes(a), DefectUnmarked(a), false)
    ensures |HandleDefect(c, event, e, kind, a).writes| <= 1
  {
    DefectContained(c, event, kind, a);
    hide EmitDefect, DefectEscapes, DefectUnmarked, DefectWritten, ConfigOk;
  }

  lemma {:induction false} WriteLawful(c: Config, record: Record, event: Option<Text>, a: Answers)
    requires ConfigOk(c) && !c.strict
    ensures Lawful(WriteRecord(c, record, event, a), WriteEscapes(a), WriteUnmarked(a),
                   a.sink.Raises? && P.ClassOf(a.sink.e) == SinkError)
  {
    hide HandleDefect, DefectEscapes, DefectUnmarked, ConfigOk;
    if a.sink.Raises? {
      HandledLawful(c, event, a.sink.e, OVERSIZE, a);
    }
  }

  lemma {:induction false} DefectLawful(c: Config, severity: Severity, event: Option<Text>, fields: Fields, a: Answers)
    requires ConfigOk(c) && !c.strict && !Reaches(c, severity, event, fields, a)
    ensures Lawful(Emit(c, severity, event, fields, a), Escapes(c, severity, event, fields, a),
                   Unmarked(c, severity, event, fields, a), false)
  {
    hide BuildRecord, HandleDefect, SchemaOk, ValidateOperational, Constructible, DefectEscapes, DefectUnmarked;
    if event.None? || event.value !in c.registry {
      HandledLawful(c, event, Own(SchemaError), UNKNOWN_EVENT, a);
    } else {
      BuildFails(c, c.registry[event.value], severity, fields, a.clock);
      var e := BuildRecord(c, c.registry[event.value], severity, fields, a.clock).error;
      HandledLawful(c, event, e, SCHEMA_VIOLATION, a);
      HandledLawful(c, event, e, RECORD_CONSTRUCTION, a);
      hide Lawful;
    }
  }

  /** Production, exactly: when a call raises, what it hands to the sink, and that it marks health once if it returns.
      */
  lemma {:induction false} EmitExactly(c: Config, severity: Severity, event: Option<Text>, fields: Fields, a: Answers)
    requires ConfigOk(c) && !c.strict
    ensures Lawful(Emit(c, severity, event, fields, a), Escapes(c, severity, event, fields, a),
                   Unmarked(c, severity, event, fields, a), SinkFailed(c, severity, event, fields, a))
  {
    hide Lawful, WriteRecord, HandleDefect, WriteEscapes, WriteUnmarked, DefectEscapes, DefectUnmarked, SchemaOk,
         BuildRecord, ValidateOperational;
    if Reaches(c, severity, event, fields, a) {
      BuildFails(c, c.registry[event.value], severity, fields, a.clock);
      WriteLawful(c, BuildRecord(c, c.registry[event.value], severity, fields, a.clock).value, event, a);
    } else {
      DefectLawful(c, severity, event, fields, a);
    }
  }

  /** A call's record is built exactly when the guard passes and the clock tells a UTC time. */
  lemma {:induction false} BuildsExactly(c: Config, schema: EventSchema, severity: Severity, fields: Fields,
                                         clock: P.ClockAnswer)
    requires ConfigOk(c) && SchemaOk(schema)
    ensures var b := BuildRecord(c, schema, severity, fields, clock);
            && (b.Ok? <==> && schema.severity == Some(severity) && Passes(schema.fields, fields, false)
                           && clock.Time? && clock.now.utc)
            && (b.Ok? ==> && b.value.application == c.application && b.value.emitter == c.emitter
                          && b.value.event == schema.eventId && b.value.timestamp == clock.now
                          && b.value.fields == Select(schema.fields, fields)
                          && b.value.message == Render(schema, Select(schema.fields, fields), c.show)
                          && b.value.kind == Records.Operational(severity))
            && (if schema.severity == Some(severity) && Passes(schema.fields, fields, false)
                then clock.Time? && !clock.now.utc ==> b == Err(Own(ConfigurationError))
                else b == Err(Own(SchemaError)))
  {
    hide EventIdOk, ApplicationOk, EmitterOk, Render, Select, Acceptable, IsFieldValue, FiniteValue, IsReserved;
    PassesIffAcceptable(schema.fields, fields, false);
    hide Passes;
    if Acceptable(schema.fields, fields, false) {
      GuardedFieldsFitRecord(schema, fields, false);
    }
  }

  /** The records handed to the sink, in order. */
  function RecordsOf(m: Emission): (r: seq<Record>)
    ensures |r| == |m.writes|
  {
    seq(|m.writes|, i requires 0 <= i < |m.writes| => m.writes[i].record)
  }

  /** In production each kind of defect is reported as what it is, by one record naming it, after the refused record
      if there was one. */
  lemma {:induction false} DefectsAreNamed(c: Config, severity: Severity, event: Option<Text>, fields: Fields,
                                           a: Answers)
    requires ConfigOk(c) && !c.strict && a.defectClock.Time? && a.defectClock.now.utc
    ensures var sent := RecordsOf(Emit(c, severity, event, fields, a));
            var known := event.Some? && event.value in c.registry;
            var accepted := AsksClock(c, severity, event, fields);
            && (!known ==> sent == [Report(c, event, UNKNOWN_EVENT, a)])
            && (known && !accepted ==> sent == [Report(c, event, SCHEMA_VIOLATION, a)])
            && (accepted && a.clock.Time? && !a.clock.now.utc ==> sent == [Report(c, event, RECORD_CONSTRUCTION, a)])
            && (accepted && a.clock.Time? && a.clock.now.utc ==>
                  && Reaches(c, severity, event, fields, a)
                  && sent == [BuildRecord(c, c.registry[event.value], severity, fields, a.clock).value]
                             + (if a.sink.Raises? && P.ClassOf(a.sink.e) == SchemaError
                                then [Report(c, event, OVERSIZE, a)] else []))
  {
    hide Passes, Acceptable;
    if event.Some? && event.value in c.registry {
      PassesIffAcceptable(c.registry[event.value].fields, fields, false);
      BuildsExactly(c, c.registry[event.value], severity, fields, a.clock);
      OversizeSends(c, severity, event, fields, a);
    }
    hide WriteRecord, HandleDefect;
    forall e, kind ensures RecordsOf(HandleDefect(c, event, e, kind, a)) == [Report(c, event, kind, a)] {
      DefectSends(c, event, e, kind, a);
    }
    hide BuildRecord, ConfigOk, Select, Render, Report, RecordsOf;
  }

  function Report(c: Config, event: Option<Text>, kind: DefectKind, a: Answers): Record
    requires a.defectClock.Time?
  {
    DefectReport(c.application, c.emitter, a.defectClock.now, event, kind)
  }

  lemma {:induction false} DefectSends(c: Config, event: Option<Text>, e: P.Exn, kind: DefectKind, a: Answers)
    requires ConfigOk(c) && !c.strict && a.defectClock.Time? && a.defectClock.now.utc
    ensures RecordsOf(HandleDefect(c, event, e, kind, a)) == [Report(c, event, kind, a)]
  {
    DefectBuilds(c, event, kind, a.defectClock);
    hide BuildRecord, DefectFields, ApplicationOk, EmitterOk, SchemaOk, DefectReport;
  }

  lemma {:induction false} OversizeSends(c: Config, severity: Severity, event: Option<Text>, fields: Fields, a: Answers)
    requires ConfigOk(c) && !c.strict && a.defectClock.Time? && a.defectClock.now.utc
    ensures Reaches(c, severity, event, fields, a) ==>
              var record := BuildRecord(c, c.registry[event.value], severity, fields, a.clock).value;
              RecordsOf(WriteRecord(c, record, event, a)) ==
              [record] + (if a.sink.Raises? && P.ClassOf(a.sink.e) == SchemaError
                          then [Report(c, event, OVERSIZE, a)] else [])
  {
    hide BuildRecord, HandleDefect, ConfigOk, Report;
    if a.sink.Raises? && P.ClassOf(a.sink.e) == SchemaError {
      DefectSends(c, event, a.sink.e, OVERSIZE, a);
      assert RecordsOf(HandleDefect(c, event, a.sink.e, OVERSIZE, a))[0] == Report(c, event, OVERSIZE, a);
    }
  }

  /** Fail open: with a sink that keeps its contract and a clock that answers, production never raises. */
  lemma {:induction false} NeverRaises(c: Config, severity: Severity, event: Option<Text>, fields: Fields, a: Answers)
    requires ConfigOk(c) && !c.strict && ClockTells(a.clock) && SinkAbides(a.sink) && NoInterrupt(a)
    ensures var m := Emit(c, severity, event, fields, a);
            m.escaped.None? && m.mark.Some? && |m.writes| <= 2
  {
    EmitExactly(c, severity, event, fields, a);
    hide BuildRecord, Emit, ConfigOk, ValidateOperational;
  }

  /** What a strict call raises: its defect, whatever its clock raised, a refusal of its record that is no failed write,
      and after a failed write an interrupt from the fallback. */
  function StrictEscape(c: Config, severity: Severity, event: Option<Text>, fields: Fields, a: Answers): Option<P.Exn> {
    if !AsksClock(c, severity, event, fields) then Some(Own(SchemaError))
    else if a.clock.ClockRaises? then Some(a.clock.e)
    else if !a.clock.now.utc then Some(Own(ConfigurationError))
    else if a.sink.Returns? then None
    else if P.ClassOf(a.sink.e) == SinkError then if Interrupts(a.fallback) then a.fallback else None
    else Some(a.sink.e)
  }

  lemma {:induction false} StrictBuild(c: Config, severity: Severity, event: Option<Text>, fields: Fields, a: Answers)
    requires ConfigOk(c) && event.Some? && event.value in c.registry
    ensures var b := BuildRecord(c, c.registry[event.value], severity, fields, a.clock);
            if !AsksClock(c, severity, event, fields) then b == Err(Own(SchemaError))
            else if a.clock.ClockRaises? then b == Err(a.clock.e)
            else if !a.clock.now.utc then b == Err(Own(ConfigurationError))
            else b.Ok?
  {
    hide Passes, Acceptable;
    PassesIffAcceptable(c.registry[event.value].fields, fields, false);
    BuildsExactly(c, c.registry[event.value], severity, fields, a.clock);
    BuildFails(c, c.registry[event.value], severity, fields, a.clock);
    hide ConfigOk, BuildRecord, Select, Constructible, Render;
  }

  /** How a call goes on once its record is built or refused, and what the clock is asked by then. */
  ghost predicate GoesOn(c: Config, severity: Severity, event: Option<Text>, fields: Fields, a: Answers)
    requires ConfigOk(c) && event.Some? && event.value in c.registry
  {
    var m, ticks := Emit(c, severity, event, fields, a), Ticks(c, severity, event, fields, a);
    var asked := TickIf(ValidateOperational(c.registry[event.value], severity, fields).Ok?, a.clock);
    match BuildRecord(c, c.registry[event.value], severity, fields, a.clock)
    case Ok(record) =>
      && m == WriteRecord(c, record, event, a)
      && ticks == asked + TickIf(!c.strict && a.sink.Raises? && P.ClassOf(a.sink.e) == SchemaError, a.defectClock)
    case Err(e) =>
      var cls := P.ClassOf(e);
      if cls == SchemaError || cls == ConfigurationError then
        && m == HandleDefect(c, event, e, if cls == SchemaError then SCHEMA_VIOLATION else RECORD_CONSTRUCTION, a)
        && ticks == asked + TickIf(!c.strict, a.defectClock)
      else m == Emission([], None, Some(e)) && ticks == asked
  }

  lemma {:induction false} UnknownGoesOn(c: Config, severity: Severity, event: Option<Text>, fields: Fields, a: Answers)
    requires ConfigOk(c) && (event.None? || event.value !in c.registry)
    ensures Emit(c, severity, event, fields, a) == HandleDefect(c, event, Own(SchemaError), UNKNOWN_EVENT, a)
    ensures Ticks(c, severity, event, fields, a) == TickIf(!c.strict, a.defectClock)
  {
    hide HandleDefect, ConfigOk;
  }

  lemma {:induction false} GoingOn(c: Config, severity: Severity, event: Option<Text>, fields: Fields, a: Answers)
    requires ConfigOk(c) && event.Some? && event.value in c.registry
    ensures GoesOn(c, severity, event, fields, a)
  {
    StrictBuild(c, severity, event, fields, a);
    hide BuildRecord, WriteRecord, HandleDefect, ConfigOk, ValidateOperational;
  }

  /** Strict mode, exactly: what a call raises, that it hands over its record at most once, and that it marks health
      exactly if the record was accepted or failed to be written. */
  lemma {:induction false} StrictExactly(c: Config, severity: Severity, event: Option<Text>, fields: Fields, a: Answers)
    requires ConfigOk(c) && c.strict
    ensures var m := Emit(c, severity, event, fields, a);
            && m.escaped == StrictEscape(c, severity, event, fields, a)
            && |m.writes| == (if Reaches(c, severity, event, fields, a) then 1 else 0)
            && m.mark == (if SinkFailed(c, severity, event, fields, a) then Some(Degraded(SINK_WRITE))
                          else if m.escaped.Some? then None else Some(Healthy))
  {
    if event.Some? && event.value in c.registry {
      StrictBuild(c, severity, event, fields, a);
    }
    hide BuildRecord, EmitDefect, SchemaOk, ValidateOperational;
  }

  lemma {:induction false} StrictWrites(c: Config, severity: Severity, event: Option<Text>, fields: Fields, a: Answers)
    requires ConfigOk(c) && c.strict
    ensures var m := Emit(c, severity, event, fields, a);
            && |m.writes| <= 1
            && (m.mark == Some(Healthy) <==> m.writes != [] && m.writes[|m.writes| - 1].answer.Returns?)
  {
    if event.Some? && event.value in c.registry {
      StrictBuild(c, severity, event, fields, a);
    }
    hide BuildRecord, EmitDefect, SchemaOk, ValidateOperational;
  }

  /** Strict mode still contains a failed write: a sink error leaves a call exactly if the clock raised it, and with a
      clock and a sink that keep their contracts only defects leave. */
  lemma {:induction false} StrictContainsSinkErrors(c: Config, severity: Severity, event: Option<Text>,
                                                    fields: Fields, a: Answers)
    requires ConfigOk(c) && c.strict
    ensures var m := Emit(c, severity, event, fields, a);
            && (m.escaped.Some? && P.ClassOf(m.escaped.value) == SinkError <==>
                  AsksClock(c, severity, event, fields) && a.clock.ClockRaises? && P.ClassOf(a.clock.e) == SinkError)
            && (SinkFailed(c, severity, event, fields, a) ==>
                  m.mark == Some(Degraded(SINK_WRITE)) && (m.escaped.Some? <==> Interrupts(a.fallback)))
            && (ClockTells(a.clock) && SinkAbides(a.sink) && !Interrupts(a.fallback) && m.escaped.Some? ==>
                  P.ClassOf(m.escaped.value) in {SchemaError, ConfigurationError})
  {
    StrictExactly(c, severity, event, fields, a);
    if event.Some? && event.value in c.registry {
      StrictBuild(c, severity, event, fields, a);
    }
    hide Emit, BuildRecord, SchemaOk, ValidateOperational;
  }

  // ---- inputs that show it ---------------------------------------------------

  const SAMPLE_EVENT := Lit("a.b")
  const SAMPLE_SCHEMA := EventSchema(SAMPLE_EVENT, Some(INFO), None, [], None)

  function Sample(strict: bool): Config {
    Config(Lit("app"), Lit("app"), map[DEFECT_EVENT := DEFECT_SCHEMA, SAMPLE_EVENT := SAMPLE_SCHEMA], _ => [], strict)
  }

  /** Answers of a clock that raises an exception of this class. */
  function BrokenClock(cls: ExnClass): Answers {
    Answers(P.ClockRaises(P.Raised(cls, 0)), P.Returns, P.ClockRaises(P.Raised(cls, 0)), P.Returns, None)
  }

  lemma {:induction false} SampleOk(strict: bool)
    ensures ConfigOk(Sample(strict)) && AsksClock(Sample(strict), INFO, Some(SAMPLE_EVENT), [])
  {
    DefectSchemaOk();
    assert |DEFECT_EVENT| != |SAMPLE_EVENT|;
    assert SchemaOk(SAMPLE_SCHEMA) by {
      assert SAMPLE_EVENT[1] == DOT;
    }
    hide SchemaOk;
  }

  /** In production a valid call raises what a broken clock raises, an OSError say. */
  lemma {:induction false} ClockErrorEscapes()
    ensures ConfigOk(Sample(false))
    ensures Emit(Sample(false), INFO, Some(SAMPLE_EVENT), [], BrokenClock(OtherException)) ==
            Emission([], None, Some(P.Raised(OtherException, 0)))
  {
    SampleOk(false);
    StrictBuild(Sample(false), INFO, Some(SAMPLE_EVENT), [], BrokenClock(OtherException));
    hide BuildRecord, ConfigOk, SchemaOk;
    assert DEFECT_EVENT != SAMPLE_EVENT by { assert |DEFECT_EVENT| != |SAMPLE_EVENT|; }
  }

  /** In strict mode a valid call raises the sink error that a broken clock raises. */
  lemma {:induction false} ClockSinkErrorEscapes()
    ensures ConfigOk(Sample(true))
    ensures Emit(Sample(true), INFO, Some(SAMPLE_EVENT), [], BrokenClock(SinkError)).escaped ==
            Some(P.Raised(SinkError, 0))
  {
    SampleOk(true);
    StrictExactly(Sample(true), INFO, Some(SAMPLE_EVENT), [], BrokenClock(SinkError));
    hide Emit, ConfigOk, AsksClock;
  }

  // ---- a run of calls -----------------------------------------------------

  datatype Call = Call(severity: Severity, event: Option<Text>, fields: Fields, answers: Answers)

  /** The marks a run makes on the health object, in order. */
  function Marks(c: Config, calls: seq<Call>): seq<Mark>
    requires ConfigOk(c)
  {
    if calls == [] then []
    else
      var last := calls[|calls| - 1];
      var m := Emit(c, last.severity, last.event, last.fields, last.answers).mark;
      Marks(c, calls[..|calls| - 1]) + if m.Some? then [m.value] else []
  }

  ghost predicate AllAbide(calls: seq<Call>) {
    forall i :: 0 <= i < |calls| ==>
      ClockTells(calls[i].answers.clock) && SinkAbides(calls[i].answers.sink) && NoInterrupt(calls[i].answers)
  }

  ghost function HealthyMarks(marks: seq<Mark>): set<nat> {
    set i: nat | i < |marks| && marks[i].Healthy?
  }

  lemma {:induction false} FailuresSnoc(marks: seq<Mark>)
    requires marks != []
    ensures |Failures(marks)| == |Failures(marks[..|marks| - 1])| + if marks[|marks| - 1].Degraded? then 1 else 0
  {
    hide Recoveries;
    MarkCounts(marks);
  }

  lemma {:induction false} HealthySnoc(marks: seq<Mark>)
    requires marks != []
    ensures |HealthyMarks(marks)| == |HealthyMarks(marks[..|marks| - 1])| + if marks[|marks| - 1].Healthy? then 1 else 0
  {
    var n := |marks| - 1;
    assert HealthyMarks(marks) == HealthyMarks(marks[..n]) + if marks[n].Healthy? then {n} else {};
  }

  lemma {:induction false} MarksSplit(marks: seq<Mark>)
    ensures |Failures(marks)| + |HealthyMarks(marks)| == |marks|
  {
    if marks == [] {
      assert Failures(marks) == {} && HealthyMarks(marks) == {};
    } else {
      hide Failures, HealthyMarks;
      MarksSplit(marks[..|marks| - 1]);
      FailuresSnoc(marks);
      HealthySnoc(marks);
    }
  }

  /** The calls of a run that leave no mark, because an exception left them before health could be marked. */
  ghost function UnmarkedCalls(c: Config, calls: seq<Call>): set<nat>
    requires ConfigOk(c)
  {
    set i: nat | i < |calls| && LeavesUnmarked(c, calls[i])
  }

  predicate LeavesUnmarked(c: Config, call: Call)
    requires forall e :: e in c.registry ==> SchemaOk(c.registry[e])
  {
    Unmarked(c, call.severity, call.event, call.fields, call.answers)
  }

  /** Over every production run on a fresh health object every call is accounted for: failures, successes and the calls
      that an exception left before a mark add up to the calls. */
  lemma {:induction false} EveryCallAccounted(c: Config, calls: seq<Call>)
    requires ConfigOk(c) && !c.strict
    ensures var marks := Marks(c, calls);
            After(marks).totalFailures + |HealthyMarks(marks)| + |UnmarkedCalls(c, calls)| == |calls|
  {
    hide ConfigOk, UnmarkedCalls, Marks, HealthyMarks, Failures, Recoveries;
    MarkedOrNot(c, calls);
    MarksSplit(Marks(c, calls));
    FaithfulFold(Marks(c, calls));
  }

  lemma {:induction false} UnmarkedSnoc(c: Config, calls: seq<Call>)
    requires ConfigOk(c) && calls != []
    ensures |UnmarkedCalls(c, calls)| ==
            |UnmarkedCalls(c, calls[..|calls| - 1])| + if LeavesUnmarked(c, calls[|calls| - 1]) then 1 else 0
  {
    hide LeavesUnmarked, SchemaOk;
    var n := |calls| - 1;
    assert UnmarkedCalls(c, calls) == UnmarkedCalls(c, calls[..n]) + if LeavesUnmarked(c, calls[n]) then {n} else {};
  }

  lemma {:induction false} MarkedOrNot(c: Config, calls: seq<Call>)
    requires ConfigOk(c) && !c.strict
    ensures |Marks(c, calls)| + |UnmarkedCalls(c, calls)| == |calls|
  {
    if calls == [] {
      assert UnmarkedCalls(c, calls) == {};
    } else {
      var n := |calls| - 1;
      hide SchemaOk, Emit, Unmarked, UnmarkedCalls;
      MarkedOrNot(c, calls[..n]);
      UnmarkedSnoc(c, calls);
      EmitExactly(c, calls[n].severity, calls[n].event, calls[n].fields, calls[n].answers);
    }
  }

  /** With clocks and sinks that keep their contracts, and no interrupt, every call leaves a mark. */
  lemma {:induction false} OneMarkEach(c: Config, calls: seq<Call>)
    requires ConfigOk(c) && !c.strict && AllAbide(calls)
    ensures |Marks(c, calls)| == |calls|
  {
    hide ConfigOk, Emit, ClockTells, SinkAbides, NoInterrupt;
    if calls != [] {
      var n := |calls| - 1;
      OneMarkEach(c, calls[..n]);
      NeverRaises(c, calls[n].severity, calls[n].event, calls[n].fields, calls[n].answers);
    }
  }
}
