/** The operational facade as an object over its sink, its health object and its fallback. */
module OperationalLog {
  import opened Basics
  import opened Json
  import opened Records
  import opened Events
  import opened DefectRecord
  import opened Health
  import opened Fallback
  import L = AuditLog
  import P = AuditProtocol
  import O = Operational

  /** An operational sink that may answer as it likes. */
  class Sink {
    var attempts: seq<P.Attempt>

    constructor ()
      ensures attempts == []
    {
      attempts := [];
    }

    method Write(record: Record) returns (answer: P.SinkAnswer)
      modifies this
      ensures attempts == old(attempts) + [P.Attempt(record, answer)]
    {
      answer := *;
      attempts := attempts + [P.Attempt(record, answer)];
    }
  }

  function FailureText(kind: FailureKind): Text {
    Lit("operational sink degraded (")
    + (match kind
       case SINK_WRITE => Lit("sink_write")
       case DEFECT_UNWRITABLE => Lit("defect_unwritable"))
    + Lit(")")
  }

  /** The words of the fallback line, by the kind of failure. */
  lemma {:induction false} FailureWords()
    ensures FailureText(SINK_WRITE) == Lit("operational sink degraded (sink_write)")
    ensures FailureText(DEFECT_UNWRITABLE) == Lit("operational sink degraded (defect_unwritable)")
  {
    assert "operational sink degraded (sink_write)" == "operational sink degraded (" + "sink_write" + ")";
    assert "operational sink degraded (defect_unwritable)" == "operational sink degraded (" + "defect_unwritable" + ")";
  }

  /** The fallback after one emit: a line only if it degraded, and none from inside another line's write. */
  function FallbackAfter(l: Limits, reentrant: bool, before: Meter, mark: Option<Mark>, reading: Reading): Meter {
    if mark.Some? && mark.value.Degraded? && !reentrant
    then Metered(l, before, FailureText(mark.value.kind), reading)
    else before
  }

  function HealthAfter(before: HealthSnapshot, mark: Option<Mark>): HealthSnapshot {
    if mark.Some? then Marked(before, mark.value) else before
  }

  class OperationalLog {
    const application: Text
    const emitter: Text
    const registry: EventRegistry
    const sink: Sink
    const health: LoggingHealth
    const fallback: StderrFallback
    const clock: L.Clock
    const show: Value -> Text
    const strict: bool

    ghost predicate Valid()
      reads this, registry
    {
      && registry.Valid() && ApplicationOk(application) && EmitterOk(emitter)
      && DEFECT_EVENT in registry.schemas && registry.schemas[DEFECT_EVENT] == DEFECT_SCHEMA
    }

    ghost function Settings(): (c: O.Config)
      reads this, registry
      requires Valid()
      ensures O.ConfigOk(c)
    {
      O.Config(application, emitter, registry.schemas, show, strict)
    }

    constructor (application: Text, emitter: Text, registry: EventRegistry, sink: Sink, health: LoggingHealth,
                 fallback: StderrFallback, clock: L.Clock, show: Value -> Text, strict: bool)
      requires ApplicationOk(application) && EmitterOk(emitter) && registry.Valid()
      ensures Valid() <==> DEFECT_EVENT in registry.schemas && registry.schemas[DEFECT_EVENT] == DEFECT_SCHEMA
      ensures this.registry == registry && this.sink == sink && this.health == health && this.fallback == fallback
      ensures this.clock == clock && this.strict == strict && this.show == show
      ensures this.application == application && this.emitter == emitter
    {
      this.application, this.emitter, this.registry, this.sink := application, emitter, registry, sink;
      this.health, this.fallback, this.clock, this.show, this.strict := health, fallback, clock, show, strict;
    }

    method Build(schema: EventSchema, severity: Severity, fields: Fields)
      returns (r: Result<Record, P.Exn>, ghost told: P.ClockAnswer)
      requires Valid() && SchemaOk(schema)
      modifies clock
      ensures r == O.BuildRecord(Settings(), schema, severity, fields, told)
      ensures clock.said == old(clock.said) + O.TickIf(ValidateOperational(schema, severity, fields).Ok?, told)
    {
      assert DistinctNames(schema.fields);
      hide SchemaOk, ConstructionError, Acceptable, Select, Render;
      if schema.severity != Some(severity) {
        return Err(O.Own(SchemaError)), *;
      }
      var guarded := GuardFields(schema.fields, fields, false);
      if guarded.Err? {
        return Err(O.Own(guarded.error)), *;
      }
      var message := Render(schema, guarded.value, show);
      var answer := clock.Now();
      told := answer;
      if answer.ClockRaises? {
        return Err(answer.e), told;
      }
      SelectUnique(schema.fields, fields);
      var record := Record(application, emitter, schema.eventId, answer.now, guarded.value, message,
                           Operational(severity));
      var error := ConstructionError(record);
      return if error.Some? then Err(O.Own(error.value)) else Ok(record), told;
    }

    /** `_degrade`: what leaves the fallback is swallowed, unless it is an interrupt. */
    method Degrade(kind: FailureKind, ghost before: O.Answers)
      returns (escaped: Option<P.Exn>, ghost a: O.Answers, ghost reading: Reading)
      modifies health, fallback
      ensures a == before.(fallback := a.fallback)
      ensures escaped == O.Degrade([], kind, a.fallback).escaped
      ensures if old(fallback.reentrant) then a.fallback.None? else MayLeave(reading, a.fallback)
      ensures health.View() == Marked(old(health.View()), Degraded(kind))
      ensures fallback.reentrant == old(fallback.reentrant)
      ensures fallback.View() == FallbackAfter(fallback.Bounds(), old(fallback.reentrant), old(fallback.View()),
                                               Some(Degraded(kind)), reading)
    {
      health.MarkDegraded(kind);
      var now: Reading := *;
      var raised := fallback.Emit(FailureText(kind), now);
      a, reading := before.(fallback := raised), now;
      escaped := if O.Interrupts(raised) then raised else None;
    }

    /** `_emit_defect_record`. */
    method EmitDefect(event: Option<Text>, kind: DefectKind, ghost before: O.Answers)
      returns (escaped: Option<P.Exn>, ghost a: O.Answers, ghost reading: Reading)
      requires Valid()
      modifies sink, health, fallback, clock
      ensures a.clock == before.clock && a.sink == before.sink
      ensures Did(old(sink.attempts), old(health.View()), old(fallback.reentrant), old(fallback.View()), escaped,
                  reading,
                  O.EmitDefect(Settings(), event, kind, a))
      ensures clock.said == old(clock.said) + [a.defectClock]
    {
      DefectSchemaOk();
      DefectFieldsAccepted(event, kind);
      hide SchemaOk, O.BuildRecord, DefectFields, Metered, Marked;
      a, reading := before, *;
      var built;
      ghost var told;
      built, told := Build(DEFECT_SCHEMA, ERROR, DefectFields(event, kind));
      a := a.(defectClock := told);
      var failure := if built.Err? then Some(built.error) else None;
      if built.Ok? {
        var answer := sink.Write(built.value);
        a := a.(defectSink := answer);
        if answer.Raises? {
          failure := Some(answer.e);
        }
      }
      if failure.None? {
        health.MarkHealthy();
        return None, a, reading;
      }
      if P.ClassOf(failure.value) == Interrupt {
        return failure, a, reading;
      }
      escaped, a, reading := Degrade(DEFECT_UNWRITABLE, a);
    }

    /** The sink, the health object, the fallback and the caller have seen exactly this emission. */
    ghost predicate Did(attempts: seq<P.Attempt>, before: HealthSnapshot, reentrant: bool, meter: Meter,
                        escaped: Option<P.Exn>, reading: Reading, m: O.Emission)
      reads sink, health, fallback
    {
      && sink.attempts == attempts + m.writes
      && health.View() == HealthAfter(before, m.mark)
      && fallback.reentrant == reentrant
      && fallback.View() == FallbackAfter(fallback.Bounds(), reentrant, meter, m.mark, reading)
      && escaped == m.escaped
    }

    lemma {:induction false} UntouchedDid(m: O.Emission, reading: Reading)
      requires m.writes == [] && m.mark.None?
      ensures Did(sink.attempts, health.View(), fallback.reentrant, fallback.View(), m.escaped, reading, m)
    {
    }

    method HandleDefect(event: Option<Text>, e: P.Exn, kind: DefectKind, ghost before: O.Answers)
      returns (escaped: Option<P.Exn>, ghost a: O.Answers, ghost reading: Reading)
      requires Valid()
      modifies sink, health, fallback, clock
      ensures a.clock == before.clock && a.sink == before.sink
      ensures Did(old(sink.attempts), old(health.View()), old(fallback.reentrant), old(fallback.View()), escaped,
                  reading,
                  O.HandleDefect(Settings(), event, e, kind, a))
      ensures clock.said == old(clock.said) + O.TickIf(!strict, a.defectClock)
    {
      hide O.EmitDefect;
      if strict {
        return Some(e), before, *;
      }
      escaped, a, reading := EmitDefect(event, kind, before);
    }

    /** `info`, `warning`, `error` and `critical`, by severity: the whole effect of one call, whatever it meets. */
    method Emit(severity: Severity, event: Option<Text>, fields: Fields)
      returns (escaped: Option<P.Exn>, ghost a: O.Answers, ghost reading: Reading)
      requires Valid()
      modifies sink, health, fallback, clock
      ensures Did(old(sink.attempts), old(health.View()), old(fallback.reentrant), old(fallback.View()), escaped,
                  reading,
                  O.Emit(Settings(), severity, event, fields, a))
      ensures clock.said == old(clock.said) + O.Ticks(Settings(), severity, event, fields, a)
    {
      hide SchemaOk, O.BuildRecord, O.HandleDefect, O.WriteRecord, Metered, Marked, O.Emit, O.Ticks, O.TickIf,
           O.AsksClock, O.ConfigOk, ValidateOperational, Did;
      a, reading := *, *;
      var found := registry.Get(event);
      if found.Err? {
        escaped, a, reading := HandleDefect(event, O.Own(found.error), UNKNOWN_EVENT, a);
        O.UnknownGoesOn(Settings(), severity, event, fields, a);
        return;
      }
      var built;
      ghost var told;
      built, told := Build(found.value, severity, fields);
      ghost var asked := O.TickIf(ValidateOperational(found.value, severity, fields).Ok?, told);
      a := a.(clock := told);
      if built.Ok? {
        escaped, a, reading := WriteRecord(built.value, event, a);
        O.GoingOn(Settings(), severity, event, fields, a);
        ghost var refused := !strict && a.sink.Raises? && P.ClassOf(a.sink.e) == SchemaError;
        Assoc(old(clock.said), asked, O.TickIf(refused, a.defectClock));
        return;
      }
      var cls := P.ClassOf(built.error);
      if cls != SchemaError && cls != ConfigurationError {
        O.GoingOn(Settings(), severity, event, fields, a);
        UntouchedDid(O.Emission([], None, Some(built.error)), reading);
        return Some(built.error), a, reading;
      }
      escaped, a, reading :=
        HandleDefect(event, built.error, if cls == SchemaError then SCHEMA_VIOLATION else RECORD_CONSTRUCTION, a);
      O.GoingOn(Settings(), severity, event, fields, a);
      Assoc(old(clock.said), asked, O.TickIf(!strict, a.defectClock));
    }

    /** `_write`: the sink's refusals by class. */
    method WriteRecord(record: Record, event: Option<Text>, ghost before: O.Answers)
      returns (escaped: Option<P.Exn>, ghost a: O.Answers, ghost reading: Reading)
      requires Valid()
      modifies sink, health, fallback, clock
      ensures a.clock == before.clock
      ensures Did(old(sink.attempts), old(health.View()), old(fallback.reentrant), old(fallback.View()), escaped,
                  reading,
                  O.WriteRecord(Settings(), record, event, a))
      ensures clock.said ==
              old(clock.said)
              + O.TickIf(!strict && a.sink.Raises? && P.ClassOf(a.sink.e) == SchemaError, a.defectClock)
    {
      hide SchemaOk, O.BuildRecord, O.HandleDefect, Metered, Marked;
      a, reading := before, *;
      var answer := sink.Write(record);
      a := a.(sink := answer);
      if answer.Returns? {
        health.MarkHealthy();
        return None, a, reading;
      }
      if P.ClassOf(answer.e) == SchemaError {
        escaped, a, reading := HandleDefect(event, answer.e, OVERSIZE, a);
        ghost var defect := O.HandleDefect(Settings(), event, answer.e, OVERSIZE, a);
        Assoc(old(sink.attempts), [P.Attempt(record, answer)], defect.writes);
        return;
      }
      if P.ClassOf(answer.e) == SinkError {
        escaped, a, reading := Degrade(SINK_WRITE, a);
        return;
      }
      return Some(answer.e), a, reading;
    }
  }

  /** Construction of the facade: names checked, and the package's own event registered unless the registry has it. The
      facade is the one modelled here unless that name was taken by a different schema. */
  method OpenOperationalLog(application: Text, emitter: Text, registry: EventRegistry, sink: Sink,
                            health: LoggingHealth,
                            fallback: StderrFallback, clock: L.Clock, show: Value -> Text, strict: bool)
    returns (r: Result<OperationalLog, ExnClass>)
    requires registry.Valid()
    modifies registry
    ensures registry.Valid()
    ensures r.Ok? <==> ApplicationOk(application) && EmitterOk(emitter)
    ensures r.Err? ==> r.error == ConfigurationError && registry.schemas == old(registry.schemas)
    ensures r.Ok? ==> fresh(r.value) && r.value.registry == registry && r.value.sink == sink && r.value.clock == clock
    ensures r.Ok? ==> registry.schemas == if DEFECT_EVENT in old(registry.schemas) then old(registry.schemas)
                                          else old(registry.schemas)[DEFECT_EVENT := DEFECT_SCHEMA]
    ensures r.Ok? ==> (r.value.Valid() <==> DEFECT_EVENT !in old(registry.schemas)
                                            || old(registry.schemas)[DEFECT_EVENT] == DEFECT_SCHEMA)
  {
    hide SchemaOk;
    if !ApplicationOk(application) || !EmitterOk(emitter) {
      return Err(ConfigurationError);
    }
    if DEFECT_EVENT !in registry.schemas {
      DefectSchemaOk();
      DefectNamespace();
      var registered := registry.RegisterReserved(DEFECT_SCHEMA);
    }
    var log := new OperationalLog(application, emitter, registry, sink, health, fallback, clock, show, strict);
    return Ok(log);
  }

  lemma {:induction false} SegmentBefore(head: Text, rest: Text)
    requires DOT !in head
    ensures FirstSegment(head + [DOT] + rest) == head
  {
    var e := head + [DOT] + rest;
    if head != [] {
      SegmentBefore(head[1..], rest);
      assert e[1..] == head[1..] + [DOT] + rest;
    }
  }

  /** The self-report lives in the package's own namespace, where no consumer can register. */
  lemma {:induction false} DefectNamespace()
    ensures FirstSegment(DEFECT_EVENT) == RESERVED_EVENT_NAMESPACE
  {
    DefectEventParts();
    var rest := Lit("operational") + [DOT] + Lit("defect");
    assert DEFECT_EVENT == Lit("nmlogging") + [DOT] + rest;
    SegmentBefore(Lit("nmlogging"), rest);
  }
}
