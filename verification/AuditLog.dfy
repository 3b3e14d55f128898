/** The audit facade and its handles as objects. Every call is proved to be one step of the protocol machine. */
module AuditLog {
  import opened Basics
  import opened Records
  import opened Events
  import P = AuditProtocol

  /** The system clock, or any other: it may answer or raise as it likes. `said` lists what it was really asked. */
  class Clock {
    ghost var said: seq<P.ClockAnswer>

    constructor ()
      ensures said == []
    {
      said := [];
    }

    method Now() returns (answer: P.ClockAnswer)
      modifies this
      ensures said == old(said) + [answer]
    {
      answer := *;
      said := said + [answer];
    }
  }

  /** A durable sink that keeps no promise but to be told every record. */
  class AuditSink {
    var attempts: seq<P.Attempt>

    constructor ()
      ensures attempts == []
    {
      attempts := [];
    }

    method Append(record: Record) returns (answer: P.SinkAnswer)
      modifies this
      ensures attempts == old(attempts) + [P.Attempt(record, answer)]
    {
      answer := *;
      attempts := attempts + [P.Attempt(record, answer)];
    }
  }

  class AuditLog {
    const application: Text
    const emitter: Text
    const registry: EventRegistry
    const sink: AuditSink
    const clock: Clock
    const show: Value -> Text
    ghost var model: P.State

    /** The state of every handle is known to the model. The sink may serve other logs as well. */
    ghost predicate Valid()
      reads this, registry
    {
      registry.Valid() && ApplicationOk(application) && EmitterOk(emitter) && P.OpsOk(model)
    }

    ghost function Settings(): (c: P.Config)
      reads this, registry
      requires Valid()
      ensures P.ConfigOk(c)
    {
      P.Config(application, emitter, registry.schemas, show)
    }

    constructor (application: Text, emitter: Text, registry: EventRegistry, sink: AuditSink, clock: Clock,
                 show: Value -> Text)
      requires ApplicationOk(application) && EmitterOk(emitter) && registry.Valid()
      ensures Valid() && this.registry == registry && this.sink == sink && this.clock == clock && model == P.START
    {
      this.application, this.emitter, this.registry, this.sink := application, emitter, registry, sink;
      this.clock, this.show := clock, show;
      model := P.START;
    }

    /** The guard of one stage. */
    method Guard(schema: EventSchema, stage: Stage, fields: Fields) returns (r: Result<seq<(Text, Value)>, ExnClass>)
      ensures r == ValidateAudit(schema, fields, stage)
    {
      hide Acceptable, Select;
      if schema.category.None? {
        return Err(SchemaError);
      }
      r := GuardFields(schema.fields, fields, stage == OUTCOME);
    }

    /** Render, clock and record construction on guarded fields, in that order. */
    method Build(schema: EventSchema, actor: Text, stage: Stage, id: Text, outcome: Option<Outcome>,
                 validated: seq<(Text, Value)>, ghost fields: Fields)
      returns (r: Result<Record, P.Exn>, ghost told: P.ClockAnswer)
      requires Valid() && SchemaOk(schema) && ValidateAudit(schema, fields, stage) == Ok(validated)
      modifies clock
      ensures r == P.BuildRecord(Settings(), schema, actor, stage, id, outcome, fields, told)
      ensures clock.said == old(clock.said) + [told]
    {
      assert DistinctNames(schema.fields);
      hide SchemaOk, ConstructionError, Acceptable, Select, Render;
      var message := Render(schema, validated, show);
      var answer := clock.Now();
      told := answer;
      if answer.ClockRaises? {
        return Err(answer.e), told;
      }
      SelectUnique(schema.fields, fields);
      var record := Record(application, emitter, schema.eventId, answer.now, validated, message,
                           Audit(schema.category.value, actor, stage, Some(id), outcome));
      var error := ConstructionError(record);
      return if error.Some? then Err(P.Package(error.value, id)) else Ok(record), told;
    }

    /** Nothing was recorded, and the clock was not asked. */
    ghost predicate Refused(before: P.State, attempts: seq<P.Attempt>, ticks: seq<P.ClockAnswer>,
                            r: Result<AuditOperation, P.Exn>, e: P.Exn)
      reads this, sink, clock
    {
      r == Err(e) && model == before && sink.attempts == attempts && clock.said == ticks
    }

    /** One intent step of the protocol was taken: by the model, by the sink, and in what the caller gets; the clock was
        asked exactly if the guard passed and there was an id. */
    ghost predicate Began(c: P.Config, before: P.State, attempts: seq<P.Attempt>, ticks: seq<P.ClockAnswer>,
                          event: Text, actor: Text, fields: Fields, ids: P.IdAnswer, told: P.ClockAnswer,
                          answer: P.SinkAnswer, r: Result<AuditOperation, P.Exn>)
      requires P.ConfigOk(c) && P.OpsOk(before) && event in c.registry && (ids.Fresh? ==> ids.id !in before.used)
      reads this, registry, sink, clock
      reads if r.Ok? then {r.value} else {}, if r.Ok? then {r.value.log, r.value.log.registry} else {}
    {
      var x := P.IntentStep(c, c.registry[event], actor, fields, ids, told, answer);
      && sink.attempts == P.Appended(attempts, x.attempt)
      && clock.said == ticks + (if ids.Fresh? && ValidateAudit(c.registry[event], fields, INTENT).Ok? then [told]
                                else [])
      && model == (if ids.FactoryRaises? then before
                   else P.Next(c, before, P.Intent(event, actor, fields, ids.id, told, answer)))
      && match x.state
         case None => r == Err(x.raised.value)
         case Some(op) =>
           && r.Ok? && ids.Fresh? && r.value.log == this && r.value.Valid()
           && r.value.operationId == ids.id && r.value.View() == op
    }

    /** `intent`; `ids` is the factory's next answer. A handle comes back only if the sink acknowledged the record. */
    method Intent(event: Text, actor: Text, fields: Fields, ids: P.IdAnswer)
      returns (r: Result<AuditOperation, P.Exn>, ghost told: P.ClockAnswer, ghost answer: P.SinkAnswer)
      requires Valid() && (ids.Fresh? ==> ids.id !in model.used)
      modifies this, sink, clock
      ensures Valid()
      ensures event !in registry.schemas ==>
                Refused(old(model), old(sink.attempts), old(clock.said), r, P.Package(SchemaError, P.IdText(ids)))
      ensures event in registry.schemas ==>
                Began(old(Settings()), old(model), old(sink.attempts), old(clock.said), event, actor, fields, ids, told,
                      answer, r)
      ensures r.Ok? ==> fresh(r.value)
    {
      hide SchemaOk, P.BuildRecord, ValidateAudit;
      told, answer := *, *;
      var found := registry.Get(Some(event));
      if found.Err? {
        return Err(P.Package(found.error, P.IdText(ids))), told, answer;
      }
      ghost var before := Settings();
      var schema := found.value;
      var validated := Guard(schema, INTENT, fields);
      if validated.Err? {
        GuardRefuses(before, schema, actor, ids, fields, told, answer);
        if ids.Fresh? {
          model := P.Next(before, model, P.Intent(event, actor, fields, ids.id, told, answer));
        }
        return Err(P.Package(validated.error, P.IdText(ids))), told, answer;
      }
      if ids.FactoryRaises? {
        return Err(ids.e), told, answer;
      }
      var id := ids.id;
      var built;
      built, told := Build(schema, actor, INTENT, id, None, validated.value, fields);
      if built.Err? {
        model := P.Next(before, model, P.Intent(event, actor, fields, id, told, answer));
        return Err(built.error), told, answer;
      }
      var sinkAnswer := sink.Append(built.value);
      answer := sinkAnswer;
      P.NextOpsOk(before, model, P.Intent(event, actor, fields, id, told, answer));
      model := P.Next(before, model, P.Intent(event, actor, fields, id, told, answer));
      if sinkAnswer.Raises? {
        return Err(P.Normalize(id, sinkAnswer.e)), told, answer;
      }
      var op := new AuditOperation(this, schema, actor, id);
      return Ok(op), told, answer;
    }

    /** `operation`: an event that the automatic indeterminate could not finish is refused before anything is written.
        */
    method Operation(event: Text, actor: Text, fields: Fields, ids: P.IdAnswer)
      returns (r: Result<AuditOperation, P.Exn>, ghost told: P.ClockAnswer, ghost answer: P.SinkAnswer)
      requires Valid() && (ids.Fresh? ==> ids.id !in model.used)
      modifies this, sink, clock
      ensures Valid()
      ensures event !in registry.schemas ==>
                Refused(old(model), old(sink.attempts), old(clock.said), r, P.Package(SchemaError, P.IdText(ids)))
      ensures event in registry.schemas && !SupportsContextManager(registry.schemas[event]) ==>
                Refused(old(model), old(sink.attempts), old(clock.said), r, P.Package(UsageError, P.IdText(ids)))
      ensures event in registry.schemas && SupportsContextManager(registry.schemas[event]) ==>
                Began(old(Settings()), old(model), old(sink.attempts), old(clock.said), event, actor, fields, ids, told,
                      answer, r)
      ensures r.Ok? ==> fresh(r.value)
    {
      hide SchemaOk, P.BuildRecord, SupportsContextManager, P.Next, Began;
      var found := registry.Get(Some(event));
      if found.Err? {
        return Err(P.Package(found.error, P.IdText(ids))), *, *;
      }
      if !SupportsContextManager(found.value) {
        return Err(P.Package(UsageError, P.IdText(ids))), *, *;
      }
      r, told, answer := Intent(event, actor, fields, ids);
    }
  }

  /** A call that the guard refuses asks neither the clock nor the sink. */
  lemma {:induction false} GuardRefuses(c: P.Config, schema: EventSchema, actor: Text, ids: P.IdAnswer, fields: Fields,
                                        clock: P.ClockAnswer, answer: P.SinkAnswer)
    requires SchemaOk(schema) && ValidateAudit(schema, fields, INTENT).Err?
    ensures P.IntentStep(c, schema, actor, fields, ids, clock, answer) ==
            P.Step(None, None, Some(P.Package(ValidateAudit(schema, fields, INTENT).error, P.IdText(ids))))
  {
  }

  datatype Phase = OPEN | FINALISED | FINALISATION_FAILED

  class AuditOperation {
    const log: AuditLog
    const schema: EventSchema
    const actor: Text
    const operationId: Text
    var state: Phase
    var finalisationException: Option<P.Exn>

    ghost predicate Valid()
      reads this, log, log.registry
    {
      && log.Valid()
      && (state == FINALISATION_FAILED <==> finalisationException.Some?)
      && operationId in log.model.ops && log.model.ops[operationId] == View()
    }

    ghost function View(): P.Op
      reads this
      requires state == FINALISATION_FAILED ==> finalisationException.Some?
    {
      P.Op(schema, actor, match state
                          case OPEN => P.Open
                          case FINALISED => P.Finalised
                          case FINALISATION_FAILED => P.FinalisationFailed(finalisationException.value))
    }

    constructor (log: AuditLog, schema: EventSchema, actor: Text, operationId: Text)
      ensures this.log == log && this.schema == schema && this.actor == actor && this.operationId == operationId
      ensures state == OPEN && finalisationException == None
    {
      this.log, this.schema, this.actor, this.operationId := log, schema, actor, operationId;
      state, finalisationException := OPEN, None;
    }

    /** The clock is asked exactly if the guard of the outcome passes. */
    function Ticks(fields: Fields, told: P.ClockAnswer): seq<P.ClockAnswer> {
      if ValidateAudit(schema, fields, OUTCOME).Ok? then [told] else []
    }

    /** `_append_outcome`: what it raises is not yet classified. */
    method AppendOutcome(outcome: Outcome, fields: Fields)
      returns (raised: Option<P.Exn>, ghost told: P.ClockAnswer, ghost answer: P.SinkAnswer)
      requires Valid()
      modifies log.sink, log.clock
      ensures log.clock.said == old(log.clock.said) + Ticks(fields, told)
      ensures var built := P.BuildRecord(log.Settings(), schema, actor, OUTCOME, operationId, Some(outcome), fields,
                                         told);
              match built
              case Err(e) => raised == Some(e) && log.sink.attempts == old(log.sink.attempts)
              case Ok(record) =>
                && log.sink.attempts == old(log.sink.attempts) + [P.Attempt(record, answer)]
                && raised == if answer.Raises? then Some(answer.e) else None
    {
      hide SchemaOk, ValidateAudit, ConstructionError, Render;
      told, answer := *, *;
      var validated := log.Guard(schema, OUTCOME, fields);
      if validated.Err? {
        return Some(P.Package(validated.error, operationId)), told, answer;
      }
      var built;
      built, told := log.Build(schema, actor, OUTCOME, operationId, Some(outcome), validated.value, fields);
      if built.Err? {
        return Some(built.error), told, answer;
      }
      var sinkAnswer := log.sink.Append(built.value);
      return if sinkAnswer.Raises? then Some(sinkAnswer.e) else None, told, sinkAnswer;
    }

    /** `_finalise`, behind success, failure and indeterminate. */
    method Finalise(outcome: Outcome, fields: Fields)
      returns (raised: Option<P.Exn>, ghost told: P.ClockAnswer, ghost answer: P.SinkAnswer)
      requires Valid()
      modifies this, log, log.sink, log.clock
      ensures Valid()
      ensures log.model == P.Next(old(log.Settings()), old(log.model),
                                  P.Finalise(operationId, outcome, fields, told, answer))
      ensures log.clock.said == old(log.clock.said) + if old(state) == OPEN then Ticks(fields, told) else []
      ensures var x := P.FinaliseStep(old(log.Settings()), old(View()), operationId, outcome, fields, told, answer);
              raised == x.raised && log.sink.attempts == P.Appended(old(log.sink.attempts), x.attempt)
    {
      hide SchemaOk, P.BuildRecord;
      ghost var before := log.Settings();
      if state != OPEN {
        assert log.model.ops[operationId := View()] == log.model.ops;
        return Some(P.Package(UsageError, operationId)), *, *;
      }
      raised, told, answer := AppendOutcome(outcome, fields);
      P.NextOpsOk(before, log.model, P.Finalise(operationId, outcome, fields, told, answer));
      log.model := P.Next(before, log.model, P.Finalise(operationId, outcome, fields, told, answer));
      if raised.None? {
        state := FINALISED;
        return;
      }
      state, finalisationException := FINALISATION_FAILED, raised;
      if P.ClassOf(raised.value) == PersistenceError {
        finalisationException := Some(P.Normalized(operationId, raised.value));
        raised := finalisationException;
      }
    }

    /** `__exit__`: the exception the `with` statement ends with, `exc` having escaped its body. */
    method Exit(exc: Option<P.Exn>)
      returns (raised: Option<P.Exn>, ghost told: P.ClockAnswer, ghost answer: P.SinkAnswer)
      requires Valid()
      modifies this, log, log.sink, log.clock
      ensures Valid()
      ensures log.model == P.Next(old(log.Settings()), old(log.model), P.Exit(operationId, exc, told, answer))
      ensures log.clock.said == old(log.clock.said) + if old(state) == OPEN && exc.Some? then Ticks([], told) else []
      ensures var x := P.ExitStep(old(log.Settings()), old(View()), operationId, exc, told, answer);
              raised == x.raised && log.sink.attempts == P.Appended(old(log.sink.attempts), x.attempt)
    {
      hide SchemaOk, P.BuildRecord;
      assert log.model.ops[operationId := View()] == log.model.ops;
      if state == FINALISED {
        return exc, *, *;
      }
      if state == FINALISATION_FAILED {
        if exc.None? {
          return finalisationException, *, *;
        }
        if exc == finalisationException {
          return exc, *, *;
        }
        return Some(P.FinalisationFailure(exc.value, finalisationException.value, operationId)), *, *;
      }
      if exc.None? {
        return Some(P.Package(UsageError, operationId)), *, *;
      }
      raised, told, answer := Finalise(INDETERMINATE, []);
      if raised.None? {
        raised := exc;
      } else if P.ClassOf(raised.value) != Interrupt {
        raised := Some(P.FinalisationFailure(exc.value, finalisationException.value, operationId));
      }
    }
  }

  /** Construction of the facade: a bad application or emitter is refused, and nothing was written either way. */
  method OpenAuditLog(application: Text, emitter: Text, registry: EventRegistry, sink: AuditSink, clock: Clock,
                      show: Value -> Text)
    returns (r: Result<AuditLog, ExnClass>)
    requires registry.Valid()
    ensures r.Ok? <==> ApplicationOk(application) && EmitterOk(emitter)
    ensures r.Err? ==> r.error == ConfigurationError
    ensures r.Ok? ==> fresh(r.value) && r.value.Valid() && r.value.model == P.START
                      && r.value.registry == registry && r.value.sink == sink && r.value.clock == clock
  {
    if !ApplicationOk(application) || !EmitterOk(emitter) {
      return Err(ConfigurationError);
    }
    var log := new AuditLog(application, emitter, registry, sink, clock, show);
    return Ok(log);
  }
}
