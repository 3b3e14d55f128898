/** The intent/outcome protocol: what each audit call does to one operation, and every run of many operations. */
module AuditProtocol {
  import opened Basics
  import opened Records
  import opened Events
  import opened LineCodec
  import G = Grammars

  /** An exception object; equality stands for identity. Raised comes from a sink, a clock or a body; Package is
      raised by the facade for one operation; the last two are the facade's own audit errors. */
  datatype Exn =
    | Raised(cls: ExnClass, serial: nat)
    | Package(cls: ExnClass, operationId: Text)
    | Normalized(operationId: Text, original: Exn)
    | FinalisationFailure(body: Exn, finalisation: Exn, operationId: Text)

  function ClassOf(e: Exn): ExnClass {
    match e
    case Raised(cls, _) => cls
    case Package(cls, _) => cls
    case Normalized(_, _) => PersistenceError
    case FinalisationFailure(_, _, _) => FinalisationError
  }

  /** What the environment answers: the clock, and a sink that may raise anything, before or after writing. */
  datatype ClockAnswer = Time(now: Timestamp) | ClockRaises(e: Exn)
  datatype SinkAnswer = Returns | Raises(e: Exn, wrote: bool)

  /** The factory of operation ids: it may raise too. */
  datatype IdAnswer = Fresh(id: Text) | FactoryRaises(e: Exn)

  /** The id an operation has got, the empty text while it has none. */
  function IdText(ids: IdAnswer): Text {
    if ids.Fresh? then ids.id else []
  }

  /** The construction-time choices of one AuditLog. */
  datatype Config = Config(
    application: Text,
    emitter: Text,
    registry: map<Text, EventSchema>,
    show: Value -> Text
  )

  ghost predicate ConfigOk(c: Config) {
    && ApplicationOk(c.application) && EmitterOk(c.emitter)
    && forall e :: e in c.registry ==> c.registry[e].eventId == e && SchemaOk(c.registry[e])
  }

  /** One call of `sink.append`. */
  datatype Attempt = Attempt(record: Record, answer: SinkAnswer)

  datatype OpState = Open | Finalised | FinalisationFailed(stored: Exn)

  datatype Op = Op(schema: EventSchema, actor: Text, state: OpState)

  /** Guard, render, clock, construction: the record of one stage, or the exception raised on the way. */
  function BuildRecord(c: Config, schema: EventSchema, actor: Text, stage: Stage, id: Text,
                       outcome: Option<Outcome>, fields: Fields, clock: ClockAnswer): Result<Record, Exn>
    requires SchemaOk(schema)
  {
    match ValidateAudit(schema, fields, stage)
    case Err(cls) => Err(Package(cls, id))
    case Ok(validated) =>
      match clock
      case ClockRaises(e) => Err(e)
      case Time(now) =>
        SelectUnique(schema.fields, fields);
        var record := Record(c.application, c.emitter, schema.eventId, now, validated,
                             Render(schema, validated, c.show),
                             Audit(schema.category.value, actor, stage, Some(id), outcome));
        match ConstructionError(record)
        case Some(cls) => Err(Package(cls, id))
        case None => Ok(record)
  }

  /** A persistence failure leaves the facade as its own error; anything else keeps its type. */
  function Normalize(id: Text, e: Exn): Exn {
    if ClassOf(e) == PersistenceError then Normalized(id, e) else e
  }

  // ---- one call -----------------------------------------------------------

  /** The new state, the append made if any, and the exception raised if any. */
  datatype Step<+S> = Step(state: S, attempt: Option<Attempt>, raised: Option<Exn>)

  /** `intent` on a registered event: guard, id, clock, append; a handle only if the append returned. */
  function IntentStep(c: Config, schema: EventSchema, actor: Text, fields: Fields, ids: IdAnswer,
                      clock: ClockAnswer, sink: SinkAnswer): Step<Option<Op>>
    requires SchemaOk(schema)
  {
    match ids
    case FactoryRaises(e) =>
      (match ValidateAudit(schema, fields, INTENT)
       case Err(cls) => Step(None, None, Some(Package(cls, [])))
       case Ok(_) => Step(None, None, Some(e)))
    case Fresh(id) =>
      match BuildRecord(c, schema, actor, INTENT, id, None, fields, clock)
      case Err(e) => Step(None, None, Some(e))
      case Ok(record) =>
        match sink
        case Returns => Step(Some(Op(schema, actor, Open)), Some(Attempt(record, sink)), None)
        case Raises(e, _) => Step(None, Some(Attempt(record, sink)), Some(Normalize(id, e)))
  }

  /** `_finalise`: one attempt from the open state, none from any other. */
  function FinaliseStep(c: Config, op: Op, id: Text, outcome: Outcome, fields: Fields,
                        clock: ClockAnswer, sink: SinkAnswer): Step<Op>
    requires SchemaOk(op.schema)
  {
    if op.state != Open then Step(op, None, Some(Package(UsageError, id)))
    else
      match BuildRecord(c, op.schema, op.actor, OUTCOME, id, Some(outcome), fields, clock)
      case Err(e) => Step(op.(state := FinalisationFailed(Normalize(id, e))), None, Some(Normalize(id, e)))
      case Ok(record) =>
        match sink
        case Returns => Step(op.(state := Finalised), Some(Attempt(record, sink)), None)
        case Raises(e, _) =>
          Step(op.(state := FinalisationFailed(Normalize(id, e))), Some(Attempt(record, sink)), Some(Normalize(id, e)))
  }

  /** `__exit__`: what the `with` statement ends with, `exc` being what escaped its body. */
  function ExitStep(c: Config, op: Op, id: Text, exc: Option<Exn>, clock: ClockAnswer, sink: SinkAnswer): Step<Op>
    requires SchemaOk(op.schema)
  {
    match op.state
    case Finalised => Step(op, None, exc)
    case FinalisationFailed(stored) =>
      if exc.None? then Step(op, None, Some(stored))
      else if exc.value == stored then Step(op, None, exc)
      else Step(op, None, Some(FinalisationFailure(exc.value, stored, id)))
    case Open =>
      if exc.None? then Step(op, None, Some(Package(UsageError, id)))
      else
        var auto := FinaliseStep(c, op, id, INDETERMINATE, [], clock, sink);
        if auto.raised.None? then Step(auto.state, auto.attempt, exc)
        else if ClassOf(auto.raised.value) == Interrupt then auto
        else Step(auto.state, auto.attempt, Some(FinalisationFailure(exc.value, auto.raised.value, id)))
  }

  /** The actor and id that a record of a begun operation must have. */
  ghost predicate Fits(actor: Text, id: Text) {
    G.Accountable(actor) && !G.AllSpace(id)
  }

  lemma {:induction false} FitsExactly(actor: Text, id: Text)
    ensures Fits(actor, id) <==> ActorOk(actor) && Strip(id) != []
  {
    G.ActorExactly(actor);
    G.NothingLeft(id);
    hide ActorOk, Strip, G.Accountable, G.AllSpace;
  }

  /** A record of a stage is built exactly when the guard passes, the clock tells a UTC time, and the actor, the id
      and the outcome suit the stage; it then says what the call said. Guarded fields never fail construction. */
  lemma {:induction false} BuildsExactly(c: Config, schema: EventSchema, actor: Text, stage: Stage, id: Text,
                                         outcome: Option<Outcome>, fields: Fields, clock: ClockAnswer)
    requires ConfigOk(c) && SchemaOk(schema)
    ensures var b := BuildRecord(c, schema, actor, stage, id, outcome, fields, clock);
            && (b.Ok? <==> && schema.category.Some? && Passes(schema.fields, fields, stage == OUTCOME)
                           && clock.Time? && clock.now.utc
                           && Fits(actor, id) && stage != COMPLETE && (outcome.Some? <==> stage == OUTCOME))
            && (b.Ok? ==> && b.value.application == c.application && b.value.emitter == c.emitter
                          && b.value.event == schema.eventId && b.value.timestamp == clock.now
                          && b.value.fields == Select(schema.fields, fields)
                          && b.value.message == Render(schema, Select(schema.fields, fields), c.show)
                          && b.value.kind == Audit(schema.category.value, actor, stage, Some(id), outcome))
  {
    hide ActorOk, Strip, Fits, EventIdOk, ApplicationOk, EmitterOk, Render, Select, Acceptable, IsFieldValue,
         FiniteValue, IsReserved;
    FitsExactly(actor, id);
    PassesIffAcceptable(schema.fields, fields, stage == OUTCOME);
    hide Passes;
    if Acceptable(schema.fields, fields, stage == OUTCOME) {
      GuardedFieldsFitRecord(schema, fields, stage == OUTCOME);
    }
  }

  /** `e` leaves the finalisation of an open operation, and is kept: as the very object it is. */
  ghost predicate FailsWith(x: Step<Op>, op: Op, e: Exn) {
    x.raised == Some(e) && x.state == Op(op.schema, op.actor, FinalisationFailed(e))
  }

  /** What an exception from outside comes to: a persistence error is wrapped once, around itself, and names the
      operation; anything else, an interrupt included, stays the object it is. */
  ghost predicate FailsThrough(x: Step<Op>, op: Op, id: Text, e: Exn) {
    && (ClassOf(e) != PersistenceError ==> FailsWith(x, op, e))
    && (ClassOf(e) == PersistenceError ==> FailsWith(x, op, Normalized(id, e)))
  }

  /** What a finalisation raises and keeps, by what happened: the guard's refusal, the clock's exception, the record's
      refusal, the sink's exception; and otherwise nothing. */
  lemma {:induction false} FinaliseSays(c: Config, op: Op, id: Text, outcome: Outcome, fields: Fields,
                                        clock: ClockAnswer, sink: SinkAnswer)
    requires ConfigOk(c) && SchemaOk(op.schema)
    ensures var x := FinaliseStep(c, op, id, outcome, fields, clock, sink);
            if op.state != Open then x == Step(op, None, Some(Package(UsageError, id)))
            else if op.schema.category.None? || !Passes(op.schema.fields, fields, true) then
              x.attempt.None? && FailsWith(x, op, Package(SchemaError, id))
            else if clock.ClockRaises? then x.attempt.None? && FailsThrough(x, op, id, clock.e)
            else if !clock.now.utc || !Fits(op.actor, id) then
              x.attempt.None? && FailsWith(x, op, Package(ConfigurationError, id))
            else if sink.Raises? then
              x.attempt.Some? && x.attempt.value.answer == sink && FailsThrough(x, op, id, sink.e)
            else && x.attempt.Some? && x.attempt.value.answer == sink
                 && x.raised.None? && x.state == Op(op.schema, op.actor, Finalised)
  {
    hide Passes, Acceptable, ConfigOk, ActorOk, Strip, Fits, Select, Render;
    BuildsExactly(c, op.schema, op.actor, OUTCOME, id, Some(outcome), fields, clock);
    BuildErrors(c, op.schema, op.actor, OUTCOME, id, Some(outcome), fields, clock);
    hide BuildRecord, SchemaOk;
  }

  /** Which exception keeps a record from being built. */
  lemma {:induction false} BuildErrors(c: Config, schema: EventSchema, actor: Text, stage: Stage, id: Text,
                                       outcome: Option<Outcome>, fields: Fields, clock: ClockAnswer)
    requires ConfigOk(c) && SchemaOk(schema)
    ensures var b := BuildRecord(c, schema, actor, stage, id, outcome, fields, clock);
            if schema.category.None? || !Passes(schema.fields, fields, stage == OUTCOME) then
              b == Err(Package(SchemaError, id))
            else if clock.ClockRaises? then b == Err(clock.e)
            else b.Err? ==> b == Err(Package(ConfigurationError, id))
  {
    hide ActorOk, Strip, EventIdOk, ApplicationOk, EmitterOk, Render, Select, Acceptable, IsFieldValue, FiniteValue,
         IsReserved;
    PassesIffAcceptable(schema.fields, fields, stage == OUTCOME);
    hide Passes;
    if Acceptable(schema.fields, fields, stage == OUTCOME) {
      GuardedFieldsFitRecord(schema, fields, stage == OUTCOME);
    }
  }

  /** Nothing was recorded, or nothing acknowledged, and this left `intent`. */
  ghost predicate IntentFails(x: Step<Option<Op>>, e: Exn) {
    x.state.None? && x.raised == Some(e)
  }

  /** What `intent` raises, by what happened, in the order in which it can. */
  lemma {:induction false} IntentSays(c: Config, schema: EventSchema, actor: Text, fields: Fields, ids: IdAnswer,
                                      clock: ClockAnswer, sink: SinkAnswer)
    requires ConfigOk(c) && SchemaOk(schema)
    ensures var x := IntentStep(c, schema, actor, fields, ids, clock, sink);
            if schema.category.None? || !Passes(schema.fields, fields, false) then
              x.attempt.None? && IntentFails(x, Package(SchemaError, IdText(ids)))
            else if ids.FactoryRaises? then x.attempt.None? && IntentFails(x, ids.e)
            else if clock.ClockRaises? then x.attempt.None? && IntentFails(x, clock.e)
            else if !clock.now.utc || !Fits(actor, ids.id) then
              x.attempt.None? && IntentFails(x, Package(ConfigurationError, ids.id))
            else
              && x.attempt.Some? && x.attempt.value.answer == sink
              && match sink
                 case Returns => x.state == Some(Op(schema, actor, Open)) && x.raised.None?
                 case Raises(e, _) =>
                   IntentFails(x, if ClassOf(e) == PersistenceError then Normalized(ids.id, e) else e)
  {
    hide Passes, Acceptable, ConfigOk, ActorOk, Strip, Fits, Select, Render;
    PassesIffAcceptable(schema.fields, fields, false);
    if ids.Fresh? {
      BuildsExactly(c, schema, actor, INTENT, ids.id, None, fields, clock);
      BuildErrors(c, schema, actor, INTENT, ids.id, None, fields, clock);
    }
    hide BuildRecord, SchemaOk;
  }

  /** What leaves the exit of an open operation when the automatic indeterminate failed with `e`: an interrupt by
      itself, as the object it is; anything else together with the body's exception, wrapped first if it is a
      persistence error. */
  ghost predicate ExitFailsThrough(x: Step<Op>, op: Op, id: Text, body: Exn, e: Exn) {
    var kept := if ClassOf(e) == PersistenceError then Normalized(id, e) else e;
    && x.state == Op(op.schema, op.actor, FinalisationFailed(kept))
    && x.raised == Some(if ClassOf(e) == Interrupt then e else FinalisationFailure(body, kept, id))
  }

  /** What the exit raises, by what happened. */
  lemma {:induction false} ExitSays(c: Config, op: Op, id: Text, exc: Option<Exn>, clock: ClockAnswer, sink: SinkAnswer)
    requires ConfigOk(c) && SchemaOk(op.schema)
    ensures var x := ExitStep(c, op, id, exc, clock, sink);
            match op.state
            case Finalised => x == Step(op, None, exc)
            case FinalisationFailed(f) =>
              var left := if exc.None? || exc.value == f then f else FinalisationFailure(exc.value, f, id);
              x == Step(op, None, Some(left))
            case Open =>
              if exc.None? then x == Step(op, None, Some(Package(UsageError, id)))
              else if op.schema.category.None? || !SupportsContextManager(op.schema) then
                x.attempt.None? && ExitFailsThrough(x, op, id, exc.value, Package(SchemaError, id))
              else if clock.ClockRaises? then x.attempt.None? && ExitFailsThrough(x, op, id, exc.value, clock.e)
              else if !clock.now.utc || !Fits(op.actor, id) then
                x.attempt.None? && ExitFailsThrough(x, op, id, exc.value, Package(ConfigurationError, id))
              else if sink.Raises? then x.attempt.Some? && ExitFailsThrough(x, op, id, exc.value, sink.e)
              else x.attempt.Some? && x.raised == exc && x.state == Op(op.schema, op.actor, Finalised)
  {
    hide Passes, Acceptable;
    NoFields(op.schema.fields, true);
    PassesIffAcceptable(op.schema.fields, [], true);
    FinaliseSays(c, op, id, INDETERMINATE, [], clock, sink);
    hide ConfigOk, SchemaOk, FinaliseStep, Fits;
  }

  /** What `intent` passes on as it is: the exception of the id factory, or else of the clock, on accepted fields. */
  function PassedOn(schema: EventSchema, fields: Fields, ids: IdAnswer, clock: ClockAnswer): Option<Exn> {
    if ValidateAudit(schema, fields, INTENT).Err? then None
    else if ids.FactoryRaises? then Some(ids.e)
    else if clock.ClockRaises? then Some(clock.e)
    else None
  }

  /** A persistence error that is not the facade's own. */
  predicate Foreign(e: Option<Exn>) {
    e.Some? && ClassOf(e.value) == PersistenceError && !e.value.Normalized?
  }

  /** A persistence error, if it is one, is the facade's own and names the operation. */
  predicate OwnIfPersistence(e: Exn, id: Text) {
    ClassOf(e) == PersistenceError ==> e.Normalized? && e.operationId == id
  }

  /** A persistence error that is not the facade's own leaves `intent` exactly if the id factory or the clock raised it
      on accepted fields; any other is the facade's own. */
  lemma {:induction false} PersistenceErrorsLeaving(c: Config, schema: EventSchema, actor: Text, fields: Fields,
                                                    ids: IdAnswer, clock: ClockAnswer, sink: SinkAnswer)
    requires SchemaOk(schema)
    ensures var x := IntentStep(c, schema, actor, fields, ids, clock, sink);
            var passedOn := PassedOn(schema, fields, ids, clock);
            && (Foreign(x.raised) <==> Foreign(passedOn))
            && (passedOn.Some? ==> x.raised == passedOn && x.attempt.None?)
            && (passedOn.None? && x.raised.Some? ==> OwnIfPersistence(x.raised.value, IdText(ids)))
  {
    hide SchemaOk, Render, Acceptable, Select;
  }

  /** What a failed finalisation keeps, if it is a persistence error, is the facade's own. */
  predicate StoredOwn(op: Op, id: Text) {
    op.state.FinalisationFailed? ==> OwnIfPersistence(op.state.stored, id)
  }

  /** No persistence error leaves `_finalise` but the facade's own, and none is kept. */
  lemma {:induction false} FinaliseOwn(c: Config, op: Op, id: Text, outcome: Outcome, fields: Fields,
                                       clock: ClockAnswer, sink: SinkAnswer)
    requires SchemaOk(op.schema) && StoredOwn(op, id)
    ensures var x := FinaliseStep(c, op, id, outcome, fields, clock, sink);
            StoredOwn(x.state, id) && (x.raised.Some? ==> OwnIfPersistence(x.raised.value, id))
  {
    hide SchemaOk, BuildRecord;
  }

  /** A persistence error that leaves `__exit__` is the one that escaped the body, or the facade's own. */
  lemma {:induction false} ExitOwn(c: Config, op: Op, id: Text, exc: Option<Exn>, clock: ClockAnswer, sink: SinkAnswer)
    requires SchemaOk(op.schema) && StoredOwn(op, id)
    ensures var x := ExitStep(c, op, id, exc, clock, sink);
            StoredOwn(x.state, id) && (x.raised.Some? && x.raised != exc ==> OwnIfPersistence(x.raised.value, id))
  {
    hide SchemaOk, BuildRecord;
    FinaliseOwn(c, op, id, INDETERMINATE, [], clock, sink);
  }

  const SAMPLE_EVENT := Lit("a.b")
  const SAMPLE_SCHEMA := EventSchema(SAMPLE_EVENT, None, Some(ADMIN), [], None)
  const SAMPLE := Config(Lit("app"), Lit("app"), map[SAMPLE_EVENT := SAMPLE_SCHEMA], _ => [])

  lemma {:induction false} SampleOk()
    ensures ConfigOk(SAMPLE) && SchemaOk(SAMPLE_SCHEMA)
    ensures ValidateAudit(SAMPLE_SCHEMA, [], INTENT) == Ok([])
  {
    assert SchemaOk(SAMPLE_SCHEMA) by {
      assert SAMPLE_EVENT[1] == DOT;
    }
    assert Select(SAMPLE_SCHEMA.fields, []) == [];
  }

  /** A valid call of `intent` whose clock raises a persistence error: the caller gets the clock's own exception. */
  lemma {:induction false} ClockErrorPassedOn(actor: Text, id: Text, sink: SinkAnswer)
    ensures ConfigOk(SAMPLE) && SchemaOk(SAMPLE_SCHEMA)
    ensures var e := Raised(PersistenceError, 0);
            && Foreign(Some(e))
            && IntentStep(SAMPLE, SAMPLE_SCHEMA, actor, [], Fresh(id), ClockRaises(e), sink).raised == Some(e)
  {
    SampleOk();
  }

  /** The same of the id factory, whatever the clock would have said. */
  lemma {:induction false} FactoryErrorPassedOn(actor: Text, clock: ClockAnswer, sink: SinkAnswer)
    ensures ConfigOk(SAMPLE) && SchemaOk(SAMPLE_SCHEMA)
    ensures var e := Raised(PersistenceError, 0);
            && Foreign(Some(e))
            && IntentStep(SAMPLE, SAMPLE_SCHEMA, actor, [], FactoryRaises(e), clock, sink).raised == Some(e)
  {
    SampleOk();
  }

  // ---- the automatic indeterminate ----------------------------------------

  /** For a handle that `operation()` returned, the automatic indeterminate can fail only through the clock
      or the sink: guard, rendering and record construction all pass. */
  lemma {:induction false} AutomaticIndeterminateBuilds(c: Config, schema: EventSchema, actor: Text, fields: Fields,
                                                        id: Text, start: ClockAnswer, startSink: SinkAnswer,
                                                        clock: ClockAnswer)
    requires ConfigOk(c) && SchemaOk(schema) && SupportsContextManager(schema)
    requires IntentStep(c, schema, actor, fields, Fresh(id), start, startSink).state.Some?
    ensures BuildRecord(c, schema, actor, OUTCOME, id, Some(INDETERMINATE), [], clock).Ok? <==>
              clock.Time? && clock.now.utc
  {
    hide IsReserved, EventIdOk, ActorOk, ApplicationOk, EmitterOk, Strip, Render, Select, Acceptable;
    NoFields(schema.fields, true);
    assert Acceptable(schema.fields, [], true);
    assert BuildRecord(c, schema, actor, INTENT, id, None, fields, start).Ok?;
    assert ActorOk(actor) && Strip(id) != [];
  }

  /** So, for every handle that `operation()` returned, the exit with an exception in flight re-raises it unchanged
      exactly if clock and sink did their part; otherwise the failure is kept, and leaves by itself if it is an
      interrupt and together with the body's exception if not. */
  lemma {:induction false} AutomaticIndeterminateExit(c: Config, schema: EventSchema, actor: Text, fields: Fields,
                                                      id: Text,
                                                      start: ClockAnswer, startSink: SinkAnswer,
                                                      body: Exn, clock: ClockAnswer, sink: SinkAnswer)
    requires ConfigOk(c) && SchemaOk(schema) && SupportsContextManager(schema)
    requires IntentStep(c, schema, actor, fields, Fresh(id), start, startSink).state.Some?
    ensures var op := IntentStep(c, schema, actor, fields, Fresh(id), start, startSink).state.value;
            var x := ExitStep(c, op, id, Some(body), clock, sink);
            && (x.attempt.Some? <==> clock.Time? && clock.now.utc)
            && (x.attempt.Some? ==> OutcomeOf(x.attempt.value, op, id)
                                    && x.attempt.value.record.kind.outcome == Some(INDETERMINATE))
            && (if clock.Time? && clock.now.utc && sink.Returns?
                then x.raised == Some(body) && x.state.state == Finalised
                else && x.state.state.FinalisationFailed?
                     && var f := x.state.state.stored;
                        x.raised == Some(if ClassOf(f) == Interrupt then f else FinalisationFailure(body, f, id)))
  {
    hide ConstructionError, ValidateAudit, Render;
    AutomaticIndeterminateBuilds(c, schema, actor, fields, id, start, startSink, clock);
    IntentGivesHandle(c, schema, actor, fields, id, start, startSink);
    hide ConfigOk, SchemaOk;
    var begun := IntentStep(c, schema, actor, fields, Fresh(id), start, startSink);
    FinaliseKeeps(c, begun.state.value, id, INDETERMINATE, [], clock, sink, [begun.attempt.value]);
  }

  // ---- every run of many operations ---------------------------------------

  /** One AuditLog: its handles by operation id, the ids its factory has given out, and every append made. */
  datatype State = State(ops: map<Text, Op>, used: set<Text>, trace: seq<Attempt>)

  const START := State(map[], {}, [])

  /** A call on the log or on one of its handles, with the answers it meets. */
  datatype Action =
    | Intent(event: Text, actor: Text, fields: Fields, id: Text, clock: ClockAnswer, sink: SinkAnswer)
    | Finalise(id: Text, outcome: Outcome, fields: Fields, clock: ClockAnswer, sink: SinkAnswer)
    | Exit(id: Text, exc: Option<Exn>, clock: ClockAnswer, sink: SinkAnswer)

  /** The id factory never repeats itself; an `intent` that gets no id leaves no trace and is no action. Any handle
      may be used at any time, in any order. */
  ghost predicate Enabled(c: Config, s: State, a: Action) {
    match a
    case Intent(event, _, _, id, _, _) => event in c.registry && id !in s.used
    case Finalise(id, _, _, _, _) => id in s.ops
    case Exit(id, _, _, _) => id in s.ops
  }

  function Appended(trace: seq<Attempt>, attempt: Option<Attempt>): seq<Attempt> {
    if attempt.Some? then trace + [attempt.value] else trace
  }

  ghost predicate OpsOk(s: State) {
    forall id :: id in s.ops ==> SchemaOk(s.ops[id].schema)
  }

  ghost function Next(c: Config, s: State, a: Action): State
    requires ConfigOk(c) && OpsOk(s) && Enabled(c, s, a)
  {
    match a
    case Intent(event, actor, fields, id, clock, sink) =>
      var x := IntentStep(c, c.registry[event], actor, fields, Fresh(id), clock, sink);
      State(if x.state.Some? then s.ops[id := x.state.value] else s.ops, s.used + {id}, Appended(s.trace, x.attempt))
    case Finalise(id, outcome, fields, clock, sink) =>
      var x := FinaliseStep(c, s.ops[id], id, outcome, fields, clock, sink);
      s.(ops := s.ops[id := x.state], trace := Appended(s.trace, x.attempt))
    case Exit(id, exc, clock, sink) =>
      var x := ExitStep(c, s.ops[id], id, exc, clock, sink);
      s.(ops := s.ops[id := x.state], trace := Appended(s.trace, x.attempt))
  }

  /** The state after a run, None where an action was not enabled. */
  ghost function Exec(c: Config, run: seq<Action>): (r: Option<State>)
    requires ConfigOk(c)
    ensures r.Some? ==> OpsOk(r.value)
  {
    if run == [] then Some(START)
    else
      match Exec(c, run[..|run| - 1])
      case None => None
      case Some(mid) =>
        if Enabled(c, mid, run[|run| - 1]) then (NextOpsOk(c, mid, run[|run| - 1]); Some(Next(c, mid, run[|run| - 1])))
        else None
  }

  lemma {:induction false} NextOpsOk(c: Config, s: State, a: Action)
    requires ConfigOk(c) && OpsOk(s) && Enabled(c, s, a)
    ensures OpsOk(Next(c, s, a))
  {
    hide SchemaOk, BuildRecord;
  }

  predicate Names(r: Record, id: Text) {
    r.kind.Audit? && r.kind.operationId == Some(id)
  }

  predicate About(a: Attempt, id: Text) {
    Names(a.record, id)
  }

  /** The appends that carry `id`, in order. */
  function Of(trace: seq<Attempt>, id: Text): seq<Attempt> {
    if trace == [] then []
    else Of(trace[..|trace| - 1], id) + if About(trace[|trace| - 1], id) then [trace[|trace| - 1]] else []
  }

  /** The record of one stage of an operation: the handle's event, category and actor. */
  ghost predicate StageRecord(r: Record, schema: EventSchema, actor: Text, stage: Stage, id: Text) {
    && r.kind.Audit? && r.kind.operationId == Some(id) && r.kind.stage == stage
    && r.event == schema.eventId && schema.category == Some(r.kind.category) && r.kind.actor == actor
    && Constructible(r)
  }

  ghost predicate IntentOf(a: Attempt, op: Op, id: Text) {
    StageRecord(a.record, op.schema, op.actor, INTENT, id)
  }

  ghost predicate OutcomeOf(a: Attempt, op: Op, id: Text) {
    StageRecord(a.record, op.schema, op.actor, OUTCOME, id) && a.record.kind.outcome.Some?
  }

  /** What the appends of a handle's id look like in each of its states. */
  ghost predicate HandleTrace(t: seq<Attempt>, op: Op, id: Text) {
    && |t| >= 1 && IntentOf(t[0], op, id) && t[0].answer == Returns
    && match op.state
       case Open => |t| == 1
       case Finalised => |t| == 2 && OutcomeOf(t[1], op, id) && t[1].answer == Returns
       case FinalisationFailed(_) => |t| == 1 || (|t| == 2 && OutcomeOf(t[1], op, id) && t[1].answer.Raises?)
  }

  /** The appends of an id whose `intent` gave no handle: none, or one intent the sink did not acknowledge. */
  ghost predicate OrphanTrace(t: seq<Attempt>, id: Text) {
    t == [] || (|t| == 1 && t[0].answer.Raises? && t[0].record.kind.Audit? && t[0].record.kind.stage == INTENT
                && Constructible(t[0].record))
  }

  ghost predicate TraceOk(s: State, id: Text) {
    if id in s.ops then id in s.used && HandleTrace(Of(s.trace, id), s.ops[id], id)
    else if id in s.used then OrphanTrace(Of(s.trace, id), id)
    else Of(s.trace, id) == []
  }

  lemma {:induction false} BuiltRecord(c: Config, schema: EventSchema, actor: Text, stage: Stage, id: Text,
                                       outcome: Option<Outcome>, fields: Fields, clock: ClockAnswer)
    requires SchemaOk(schema) && BuildRecord(c, schema, actor, stage, id, outcome, fields, clock).Ok?
    ensures var r := BuildRecord(c, schema, actor, stage, id, outcome, fields, clock).value;
            StageRecord(r, schema, actor, stage, id) && r.kind.outcome == outcome
  {
    hide SchemaOk, ConstructionError, Acceptable, Select, Render;
  }

  lemma {:induction false} OfAppended(trace: seq<Attempt>, attempt: Option<Attempt>, id: Text)
    ensures Of(Appended(trace, attempt), id) ==
            Of(trace, id) + if attempt.Some? && About(attempt.value, id) then [attempt.value] else []
  {
    if attempt.Some? {
      assert (trace + [attempt.value])[..|trace|] == trace;
    }
  }

  /** `_finalise` and `__exit__` add at most one append, an outcome of the handle, and only from the open state. */
  lemma {:induction false} FinaliseKeeps(c: Config, op: Op, id: Text, outcome: Outcome, fields: Fields,
                                         clock: ClockAnswer, sink: SinkAnswer, t: seq<Attempt>)
    requires SchemaOk(op.schema) && HandleTrace(t, op, id)
    ensures var x := FinaliseStep(c, op, id, outcome, fields, clock, sink);
            && HandleTrace(Appended(t, x.attempt), x.state, id)
            && (x.attempt.Some? ==> op.state == Open && About(x.attempt.value, id)
                                    && x.attempt.value.record.kind.outcome == Some(outcome))
            && (x.raised.None? <==> x.attempt.Some? && x.attempt.value.answer == Returns)
            && (op.state != Open ==> x.state == op)
            && (op.state == Open ==> x.state.state != Open)
            && (x.state.state == Finalised && op.state == Open ==> x.attempt.Some?)
  {
    hide SchemaOk, ConstructionError, ValidateAudit, Render;
    if op.state == Open && BuildRecord(c, op.schema, op.actor, OUTCOME, id, Some(outcome), fields, clock).Ok? {
      BuiltRecord(c, op.schema, op.actor, OUTCOME, id, Some(outcome), fields, clock);
    }
  }

  lemma {:induction false} ExitKeeps(c: Config, op: Op, id: Text, exc: Option<Exn>,
                                     clock: ClockAnswer, sink: SinkAnswer, t: seq<Attempt>)
    requires SchemaOk(op.schema) && HandleTrace(t, op, id)
    ensures var x := ExitStep(c, op, id, exc, clock, sink);
            && HandleTrace(Appended(t, x.attempt), x.state, id)
            && (x.attempt.Some? ==> op.state == Open && exc.Some? && About(x.attempt.value, id)
                                    && x.attempt.value.record.kind.outcome == Some(INDETERMINATE))
            && (x.raised.None? <==> op.state == Finalised && exc.None?)
  {
    hide SchemaOk, BuildRecord;
    FinaliseKeeps(c, op, id, INDETERMINATE, [], clock, sink, t);
  }

  lemma {:induction false} StepTrace(c: Config, s: State, a: Action, id: Text)
    requires ConfigOk(c) && OpsOk(s) && Enabled(c, s, a)
    requires TraceOk(s, id)
    ensures TraceOk(Next(c, s, a), id)
  {
    hide SchemaOk, BuildRecord, FinaliseStep, ExitStep, IntentStep, Of, HandleTrace, StageRecord;
    match a
    case Intent(event, actor, fields, key, clock, sink) =>
      IntentTrace(c, s, a, id);
    case Finalise(key, outcome, fields, clock, sink) =>
      var x := FinaliseStep(c, s.ops[key], key, outcome, fields, clock, sink);
      OfAppended(s.trace, x.attempt, id);
      if key == id {
        FinaliseKeeps(c, s.ops[key], key, outcome, fields, clock, sink, Of(s.trace, id));
      } else {
        AttemptIsAbout(c, s.ops[key], key, outcome, fields, clock, sink);
        assert Of(s.trace, id) + [] == Of(s.trace, id);
      }
    case Exit(key, exc, clock, sink) =>
      var x := ExitStep(c, s.ops[key], key, exc, clock, sink);
      OfAppended(s.trace, x.attempt, id);
      if key == id {
        ExitKeeps(c, s.ops[key], key, exc, clock, sink, Of(s.trace, id));
      } else {
        AttemptIsAbout(c, s.ops[key], key, INDETERMINATE, [], clock, sink);
        ExitAttempt(c, s.ops[key], key, exc, clock, sink);
        assert Of(s.trace, id) + [] == Of(s.trace, id);
      }
  }

  lemma {:induction false} AttemptIsAbout(c: Config, op: Op, id: Text, outcome: Outcome, fields: Fields,
                                          clock: ClockAnswer, sink: SinkAnswer)
    requires SchemaOk(op.schema)
    ensures var x := FinaliseStep(c, op, id, outcome, fields, clock, sink);
            x.attempt.Some? ==> AboutOnly(x.attempt.value, id)
  {
    hide SchemaOk, ConstructionError, ValidateAudit, Render;
    if FinaliseStep(c, op, id, outcome, fields, clock, sink).attempt.Some? {
      BuiltRecord(c, op.schema, op.actor, OUTCOME, id, Some(outcome), fields, clock);
    }
  }

  ghost predicate AboutOnly(a: Attempt, id: Text) {
    forall other :: About(a, other) <==> other == id
  }

  lemma {:induction false} ExitAttempt(c: Config, op: Op, id: Text, exc: Option<Exn>,
                                       clock: ClockAnswer, sink: SinkAnswer)
    requires SchemaOk(op.schema)
    ensures var x := ExitStep(c, op, id, exc, clock, sink);
            x.attempt.Some? ==> x.attempt == FinaliseStep(c, op, id, INDETERMINATE, [], clock, sink).attempt
  {
    hide SchemaOk, FinaliseStep;
  }

  lemma {:induction false} IntentTrace(c: Config, s: State, a: Action, id: Text)
    requires ConfigOk(c) && OpsOk(s) && Enabled(c, s, a) && a.Intent? && TraceOk(s, id)
    ensures TraceOk(Next(c, s, a), id)
  {
    hide SchemaOk, ConstructionError, BuildRecord, Of;
    var Intent(event, actor, fields, key, clock, sink) := a;
    var schema := c.registry[event];
    var x := IntentStep(c, schema, actor, fields, Fresh(key), clock, sink);
    OfAppended(s.trace, x.attempt, id);
    if x.attempt.Some? {
      BuiltRecord(c, schema, actor, INTENT, key, None, fields, clock);
      if key == id {
        assert Of(s.trace, id) == [] by { UnusedHasNoTrace(s, id); }
        assert [] + [x.attempt.value] == [x.attempt.value];
      }
    }
  }

  lemma {:induction false} UnusedHasNoTrace(s: State, id: Text)
    requires TraceOk(s, id) && id !in s.used
    ensures Of(s.trace, id) == [] && id !in s.ops
  {
    hide HandleTrace;
  }

  lemma {:induction false} RunTrace(c: Config, run: seq<Action>, id: Text)
    requires ConfigOk(c) && Exec(c, run).Some?
    ensures TraceOk(Exec(c, run).value, id)
  {
    hide ConfigOk, SchemaOk, Next, Enabled, OpsOk;
    if run == [] {
      assert Of([], id) == [];
    } else {
      var mid := Exec(c, run[..|run| - 1]).value;
      RunTrace(c, run[..|run| - 1], id);
      StepTrace(c, mid, run[|run| - 1], id);
    }
  }

  /** Over every run, whatever the sink and the clock raise: no handle keeps a foreign persistence error. */
  lemma {:induction false} RunStoresOwn(c: Config, run: seq<Action>, id: Text)
    requires ConfigOk(c) && Exec(c, run).Some? && id in Exec(c, run).value.ops
    ensures StoredOwn(Exec(c, run).value.ops[id], id)
  {
    hide ConfigOk, SchemaOk, BuildRecord, OwnIfPersistence;
    if run != [] {
      var mid, a := Exec(c, run[..|run| - 1]).value, run[|run| - 1];
      if id in mid.ops {
        RunStoresOwn(c, run[..|run| - 1], id);
      }
      StepStoresOwn(c, mid, a, id);
    }
  }

  lemma {:induction false} StepStoresOwn(c: Config, s: State, a: Action, id: Text)
    requires ConfigOk(c) && OpsOk(s) && Enabled(c, s, a) && id in Next(c, s, a).ops
    requires id in s.ops ==> StoredOwn(s.ops[id], id)
    ensures StoredOwn(Next(c, s, a).ops[id], id)
  {
    hide SchemaOk, BuildRecord, FinaliseStep, ExitStep, OwnIfPersistence;
    match a
    case Intent(event, actor, fields, key, clock, sink) =>
    case Finalise(key, outcome, fields, clock, sink) =>
      if key == id {
        FinaliseOwn(c, s.ops[id], id, outcome, fields, clock, sink);
      }
    case Exit(key, exc, clock, sink) =>
      if key == id {
        ExitOwn(c, s.ops[id], id, exc, clock, sink);
      }
  }

  // ---- what the records of one id look like -------------------------------

  /** The attempt put its record into the sink, acknowledged or not. */
  predicate Wrote(a: Attempt) {
    a.answer.Returns? || a.answer.wrote
  }

  /** The attempts that put their record into the sink, in order. */
  function Written(t: seq<Attempt>): seq<Attempt> {
    if t == [] then []
    else Written(t[..|t| - 1]) + if Wrote(t[|t| - 1]) then [t[|t| - 1]] else []
  }

  function RecordsOf(t: seq<Attempt>): (r: seq<Record>)
    ensures |r| == |t| && forall i :: 0 <= i < |t| ==> r[i] == t[i].record
  {
    seq(|t|, i requires 0 <= i < |t| => t[i].record)
  }

  /** No record, one intent, or an intent followed by one outcome of the same event, category and actor. */
  ghost predicate IntentThenOutcome(r: seq<Record>) {
    || r == []
    || (|r| == 1 && IsStage(r[0], INTENT))
    || (|r| == 2 && IsStage(r[0], INTENT) && IsStage(r[1], OUTCOME) && r[1].event == r[0].event
        && r[1].kind.category == r[0].kind.category && r[1].kind.actor == r[0].kind.actor)
  }

  ghost predicate IsStage(r: Record, stage: Stage) {
    r.kind.Audit? && r.kind.stage == stage && Constructible(r)
  }

  /** Trace safety: for every run of any operations in any order over any sink, the records that carry one id form
      nothing, [INTENT] or [INTENT, OUTCOME], at most one outcome append is ever tried, and only after an
      acknowledged intent. */
  lemma {:induction false} TraceSafety(c: Config, run: seq<Action>, id: Text)
    requires ConfigOk(c) && Exec(c, run).Some?
    ensures var t := Of(Exec(c, run).value.trace, id);
            && |t| <= 2
            && (|t| >= 1 ==> IsStage(t[0].record, INTENT))
            && (|t| == 2 ==> t[0].answer == Returns && IsStage(t[1].record, OUTCOME))
            && IntentThenOutcome(RecordsOf(Written(t)))
  {
    hide SchemaOk, ConfigOk, OpsOk, ConstructionError, Exec, Of;
    RunTrace(c, run, id);
    var t := Of(Exec(c, run).value.trace, id);
    WrittenOfTrace(t);
  }

  lemma {:induction false} WrittenOfTrace(t: seq<Attempt>)
    requires |t| <= 2
    ensures Written(t) == (if |t| >= 1 && Wrote(t[0]) then [t[0]] else [])
                          + (if |t| == 2 && Wrote(t[1]) then [t[1]] else [])
  {
    if |t| >= 1 {
      assert t[..|t| - 1] == if |t| == 2 then [t[0]] else [];
      assert Written([]) == [];
      if |t| == 2 {
        assert Written([t[0]]) == (if Wrote(t[0]) then [t[0]] else []) by { assert [t[0]][..0] == []; }
      }
    }
  }

  // ---- the with statement -------------------------------------------------

  /** One thing the body of a `with` block does to its own operation, or an exception it raises. */
  datatype BodyStep =
    | Call(outcome: Outcome, fields: Fields, caught: bool, clock: ClockAnswer, sink: SinkAnswer)
    | RaiseInBody(e: Exn)

  datatype BodyEnd = BodyEnd(op: Op, attempts: seq<Attempt>, escaped: Option<Exn>)

  /** The body in order; an exception that no call site catches ends it. */
  function RunBody(c: Config, op: Op, id: Text, body: seq<BodyStep>): (r: BodyEnd)
    requires SchemaOk(op.schema)
    ensures r.op.schema == op.schema
    decreases |body|
  {
    if body == [] then BodyEnd(op, [], None)
    else
      match body[0]
      case RaiseInBody(e) => BodyEnd(op, [], Some(e))
      case Call(outcome, fields, caught, clock, sink) =>
        var x := FinaliseStep(c, op, id, outcome, fields, clock, sink);
        if x.raised.Some? && !caught then BodyEnd(x.state, Appended([], x.attempt), x.raised)
        else
          var rest := RunBody(c, x.state, id, body[1..]);
          rest.(attempts := Appended([], x.attempt) + rest.attempts)
  }

  /** `with log.operation(...) as op: body`: its outcome appends, and the exception it ends with. */
  datatype WithEnd = WithEnd(op: Option<Op>, intent: Option<Attempt>, outcomes: seq<Attempt>, raised: Option<Exn>)

  function With(c: Config, schema: EventSchema, actor: Text, fields: Fields, ids: IdAnswer,
                start: ClockAnswer, startSink: SinkAnswer, body: seq<BodyStep>,
                exitClock: ClockAnswer, exitSink: SinkAnswer): WithEnd
    requires SchemaOk(schema)
  {
    var id := IdText(ids);
    if !SupportsContextManager(schema) then WithEnd(None, None, [], Some(Package(UsageError, id)))
    else
      var begun := IntentStep(c, schema, actor, fields, ids, start, startSink);
      if begun.state.None? then WithEnd(None, begun.attempt, [], begun.raised)
      else
        var b := RunBody(c, begun.state.value, id, body);
        var x := ExitStep(c, b.op, id, b.escaped, exitClock, exitSink);
        WithEnd(Some(x.state), begun.attempt, Appended(b.attempts, x.attempt), x.raised)
  }

  /** The body asked for this outcome. */
  ghost predicate Asked(body: seq<BodyStep>, outcome: Option<Outcome>) {
    exists i :: 0 <= i < |body| && body[i].Call? && Some(body[i].outcome) == outcome
  }

  /** What a body leaves behind: at most one outcome append, asked for by it, and the matching handle state. */
  lemma {:induction false} BodyKeeps(c: Config, op: Op, id: Text, body: seq<BodyStep>, t: seq<Attempt>)
    requires SchemaOk(op.schema) && HandleTrace(t, op, id)
    ensures var b := RunBody(c, op, id, body);
            && HandleTrace(t + b.attempts, b.op, id)
            && |b.attempts| <= 1
            && (op.state != Open ==> b.attempts == [] && b.op == op)
            && (b.op.state == Open ==> b.attempts == [])
            && (b.op.state == Finalised && op.state == Open ==> |b.attempts| == 1)
            && (b.attempts != [] ==> b.attempts[0].record.kind.Audit?
                                     && Asked(body, b.attempts[0].record.kind.outcome))
    decreases |body|
  {
    hide SchemaOk, HandleTrace, FinaliseStep;
    if body == [] || body[0].RaiseInBody? {
      assert t + [] == t;
    } else {
      var Call(outcome, fields, caught, clock, sink) := body[0];
      var x := FinaliseStep(c, op, id, outcome, fields, clock, sink);
      FinaliseKeeps(c, op, id, outcome, fields, clock, sink, t);
      FinaliseSchema(c, op, id, outcome, fields, clock, sink);
      var first := Appended([], x.attempt);
      assert Appended(t, x.attempt) == t + first;
      if !(x.raised.Some? && !caught) {
        BodyKeeps(c, x.state, id, body[1..], t + first);
        var rest := RunBody(c, x.state, id, body[1..]);
        Assoc(t, first, rest.attempts);
        assert first + [] == first;
      }
    }
  }

  lemma {:induction false} FinaliseSchema(c: Config, op: Op, id: Text, outcome: Outcome, fields: Fields,
                                          clock: ClockAnswer, sink: SinkAnswer)
    requires SchemaOk(op.schema)
    ensures var x := FinaliseStep(c, op, id, outcome, fields, clock, sink);
            x.state.schema == op.schema && x.state.actor == op.actor
            && (op.state == Open && x.raised.None? ==> x.state.state == Finalised)
  {
    hide SchemaOk, BuildRecord;
  }

  /** Soundness of the context manager, for every body: a `with` statement that ends without raising has recorded
      exactly one outcome, acknowledged by the sink and asked for by the body; SUCCESS and FAILURE are never made up;
      no second outcome is tried. */
  lemma {:induction false} WithSoundness(c: Config, schema: EventSchema, actor: Text, fields: Fields, ids: IdAnswer,
                                         start: ClockAnswer, startSink: SinkAnswer, body: seq<BodyStep>,
                                         exitClock: ClockAnswer, exitSink: SinkAnswer)
    requires SchemaOk(schema)
    ensures var w := With(c, schema, actor, fields, ids, start, startSink, body, exitClock, exitSink);
            && |w.outcomes| <= 1
            && (w.outcomes != [] ==> w.intent.Some? && w.intent.value.answer == Returns)
            && (w.raised.None? ==> |w.outcomes| == 1 && w.outcomes[0].answer == Returns
                                   && w.outcomes[0].record.kind.Audit?
                                   && Asked(body, w.outcomes[0].record.kind.outcome))
            && (w.outcomes != [] ==> w.outcomes[0].record.kind.Audit?)
            && (w.outcomes != [] && w.outcomes[0].record.kind.outcome != Some(INDETERMINATE) ==>
                  Asked(body, w.outcomes[0].record.kind.outcome))
  {
    hide SchemaOk, RunBody, ExitStep, BuildRecord, Asked;
    var begun := IntentStep(c, schema, actor, fields, ids, start, startSink);
    if SupportsContextManager(schema) && begun.state.Some? {
      var op, id := begun.state.value, ids.id;
      var t := [begun.attempt.value];
      IntentGivesHandle(c, schema, actor, fields, id, start, startSink);
      BodyKeeps(c, op, id, body, t);
      var b := RunBody(c, op, id, body);
      ExitKeeps(c, b.op, id, b.escaped, exitClock, exitSink, t + b.attempts);
    }
  }

  lemma {:induction false} IntentGivesHandle(c: Config, schema: EventSchema, actor: Text, fields: Fields, id: Text,
                                             start: ClockAnswer, startSink: SinkAnswer)
    requires SchemaOk(schema) && IntentStep(c, schema, actor, fields, Fresh(id), start, startSink).state.Some?
    ensures var x := IntentStep(c, schema, actor, fields, Fresh(id), start, startSink);
            && x.attempt.Some? && x.state.value.schema == schema && x.state.value.state == Open
            && HandleTrace([x.attempt.value], x.state.value, id)
  {
    hide SchemaOk, ConstructionError, ValidateAudit, Render;
    BuiltRecord(c, schema, actor, INTENT, id, None, fields, start);
  }

  /** The exception that leaves the rest of a body once its first call was made: every later call is refused. */
  function FirstEscape(rest: seq<BodyStep>, id: Text): Option<Exn> {
    if rest == [] then None
    else
      match rest[0]
      case RaiseInBody(e) => Some(e)
      case Call(_, _, caught, _, _) =>
        if caught then FirstEscape(rest[1..], id) else Some(Package(UsageError, id))
  }

  lemma {:induction false} AfterFirstCall(c: Config, op: Op, id: Text, rest: seq<BodyStep>)
    requires SchemaOk(op.schema) && op.state != Open
    ensures RunBody(c, op, id, rest) == BodyEnd(op, [], FirstEscape(rest, id))
    decreases |rest|
  {
    hide SchemaOk, BuildRecord;
    if rest != [] && rest[0].Call? && rest[0].caught {
      AfterFirstCall(c, op, id, rest[1..]);
    }
  }

  /** What a failed finalisation turns into when the block ends: it cannot be swallowed, and a different exception
      in flight is reported together with it. */
  function Dominant(escaped: Option<Exn>, failure: Exn, id: Text): Exn {
    if escaped.None? || escaped.value == failure then failure else FinalisationFailure(escaped.value, failure, id)
  }

  /** The exit table, row by row, for every body of an operation whose intent was acknowledged: `tried` is the one
      attempt to finalise, made by the body's first call or else by the exit. */
  lemma {:induction false} ExitTable(c: Config, schema: EventSchema, actor: Text, fields: Fields, id: Text,
                                     start: ClockAnswer, startSink: SinkAnswer, body: seq<BodyStep>,
                                     exitClock: ClockAnswer, exitSink: SinkAnswer)
    requires SchemaOk(schema) && SupportsContextManager(schema)
    requires IntentStep(c, schema, actor, fields, Fresh(id), start, startSink).state.Some?
    ensures
      var w := With(c, schema, actor, fields, Fresh(id), start, startSink, body, exitClock, exitSink);
      if body == [] then w.raised == Some(Package(UsageError, id)) && w.outcomes == []
      else
        var op := Op(schema, actor, Open);
        match body[0]
        case RaiseInBody(e) =>
          var tried := FinaliseStep(c, op, id, INDETERMINATE, [], exitClock, exitSink);
          && w.outcomes == Appended([], tried.attempt)
          && (tried.raised.None? ==> w.raised == Some(e))
          && (tried.raised.Some? ==>
                w.raised == if ClassOf(tried.raised.value) == Interrupt then tried.raised
                            else Some(FinalisationFailure(e, tried.raised.value, id)))
        case Call(outcome, given, caught, clock, sink) =>
          var tried := FinaliseStep(c, op, id, outcome, given, clock, sink);
          && w.outcomes == Appended([], tried.attempt)
          && (tried.raised.None? ==> w.raised == FirstEscape(body[1..], id))
          && (tried.raised.Some? ==>
                w.raised == if caught then Some(Dominant(FirstEscape(body[1..], id), tried.raised.value, id))
                            else tried.raised)
  {
    hide SchemaOk, BuildRecord;
    var op := Op(schema, actor, Open);
    if body != [] && body[0].Call? {
      var Call(outcome, given, caught, clock, sink) := body[0];
      var tried := FinaliseStep(c, op, id, outcome, given, clock, sink);
      AfterFirstCall(c, tried.state, id, body[1..]);
      assert Appended([], tried.attempt) + [] == Appended([], tried.attempt);
    }
  }
}
