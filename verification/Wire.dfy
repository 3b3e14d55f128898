/** The entries of a stored record in the words of the stored format: what a reader of the mapping can rely on. */
module Wire {
  import opened Basics
  import opened Json
  import opened Records
  import opened LineCodec
  import opened Events

  type Entries = seq<(Text, Json)>

  // ---- values ---------------------------------------------------------------

  /** A scalar as JSON: strings, numbers and booleans stay what they are. */
  predicate ScalarAppears(v: Value, j: Json) {
    match v
    case Str(s) => j == JStr(s)
    case Int(n) => j == JInt(n)
    case Float(f) => j == JFloat(f)
    case Bool(b) => j == JBool(b)
    case _ => false
  }

  /** A value as JSON: a list or tuple is an array of its elements. */
  predicate Appears(v: Value, j: Json) {
    match v
    case Tuple(items) => j.JArr? && AllAppear(items, j.items)
    case List(items) => j.JArr? && AllAppear(items, j.items)
    case _ => ScalarAppears(v, j)
  }

  predicate AllAppear(items: seq<Value>, js: seq<Json>) {
    |js| == |items| && forall i :: 0 <= i < |items| ==> ScalarAppears(items[i], js[i])
  }

  /** No string in it is over long, has a surrogate, or looks like an encrypted envelope. */
  predicate Harmless(j: Json) {
    match j
    case JStr(s) => StringAllowed(s)
    case JArr(items) => forall i :: 0 <= i < |items| && items[i].JStr? ==> StringAllowed(items[i].s)
    case _ => true
  }

  // ---- words ------------------------------------------------------------------

  predicate CategoryWord(c: Category, j: Json) {
    match c
    case ADMIN => j == JStr(Lit("ADMIN"))
    case ACTIVITY => j == JStr(Lit("ACTIVITY"))
  }

  predicate StageWord(s: Stage, j: Json) {
    match s
    case COMPLETE => j == JStr(Lit("complete"))
    case INTENT => j == JStr(Lit("intent"))
    case OUTCOME => j == JStr(Lit("outcome"))
  }

  predicate OutcomeWord(o: Outcome, j: Json) {
    match o
    case SUCCESS => j == JStr(Lit("success"))
    case FAILURE => j == JStr(Lit("failure"))
    case INDETERMINATE => j == JStr(Lit("indeterminate"))
  }

  predicate SeverityWord(s: Severity, j: Json) {
    match s
    case INFO => j == JStr(Lit("INFO"))
    case WARNING => j == JStr(Lit("WARNING"))
    case ERROR => j == JStr(Lit("ERROR"))
    case CRITICAL => j == JStr(Lit("CRITICAL"))
  }

  // ---- records ------------------------------------------------------------------

  /** The first five entries of every record. */
  predicate Envelope(m: Entries, application: Text, emitter: Text, event: Text, iso: Text) {
    && |m| >= 5
    && m[0] == (Lit("schema_version"), JInt(1)) && m[1] == (Lit("timestamp"), JStr(iso))
    && m[2] == (Lit("application"), JStr(application)) && m[3] == (Lit("emitter"), JStr(emitter))
    && m[4] == (Lit("event"), JStr(event))
  }

  /** From entry `from` on, the fields as `fields` has them, and nothing else but a message at the end. */
  ghost predicate Tail(m: Entries, from: nat, fields: seq<(Text, Value)>, message: Option<Text>) {
    && from <= |m| && |m| == from + |fields| + (if message.Some? then 1 else 0)
    && (forall k :: 0 <= k < |fields| ==> m[from + k].0 == fields[k].0 && Appears(fields[k].1, m[from + k].1))
    && (message.Some? ==> m[|m| - 1] == (Lit("message"), JStr(message.value)))
  }

  /** The entries of an operational record. */
  ghost predicate OperationalEntries(m: Entries, application: Text, emitter: Text, event: Text, iso: Text,
                                     severity: Severity, fields: seq<(Text, Value)>, message: Option<Text>)
  {
    && Envelope(m, application, emitter, event, iso)
    && |m| >= 6 && m[5].0 == Lit("severity") && SeverityWord(severity, m[5].1)
    && Tail(m, 6, fields, message)
  }

  /** The entries of one stage of an audit operation. */
  ghost predicate AuditEntries(m: Entries, application: Text, emitter: Text, event: Text, iso: Text, category: Category,
                               actor: Text, stage: Stage, id: Text, outcome: Option<Outcome>,
                               fields: seq<(Text, Value)>, message: Option<Text>)
  {
    && Envelope(m, application, emitter, event, iso)
    && |m| >= 9
    && m[5].0 == Lit("category") && CategoryWord(category, m[5].1)
    && m[6] == (Lit("actor"), JStr(actor))
    && m[7].0 == Lit("stage") && StageWord(stage, m[7].1)
    && m[8] == (Lit("operation_id"), JStr(id))
    && (outcome.Some? ==> |m| >= 10 && m[9].0 == Lit("outcome") && OutcomeWord(outcome.value, m[9].1))
    && Tail(m, if outcome.Some? then 10 else 9, fields, message)
  }

  lemma {:induction false} ValueAppears(v: Value)
    requires IsFieldValue(v)
    ensures Appears(v, ValueJson(v))
  {
  }

  lemma {:induction false} EntryAppears(r: Record, i: nat)
    requires Constructible(r) && i < |CanonicalEntries(r)|
    ensures |Mapping(r)| == |CanonicalEntries(r)| && Mapping(r)[i].0 == CanonicalEntries(r)[i].0
    ensures Appears(CanonicalEntries(r)[i].1, Mapping(r)[i].1)
  {
    CanonicalEntriesOk(r);
    hide Constructible, CanonicalEntries, Appears, ValueJson;
    assert Mapping(r)[i] == (CanonicalEntries(r)[i].0, ValueJson(CanonicalEntries(r)[i].1));
    ValueAppears(CanonicalEntries(r)[i].1);
  }

  /** The entries of a mapping, one for one, from a given header. */
  ghost predicate Headed(m: Entries, header: seq<(Text, Value)>) {
    |header| <= |m| && forall i :: 0 <= i < |header| ==> m[i].0 == header[i].0 && Appears(header[i].1, m[i].1)
  }

  lemma {:induction false} MappingParts(r: Record)
    requires Constructible(r)
    ensures var header := EnvelopeEntries(r) + KindEntries(r.kind);
            Headed(Mapping(r), header) && Tail(Mapping(r), |header|, r.fields, r.message)
  {
    hide Constructible, EnvelopeEntries, KindEntries, Mapping, Appears;
    var header := EnvelopeEntries(r) + KindEntries(r.kind);
    var e := CanonicalEntries(r);
    assert e == header + r.fields + MessageEntries(r.message);
    hide CanonicalEntries;
    MappingLength(r);
    forall i | 0 <= i < |e| ensures Mapping(r)[i].0 == e[i].0 && Appears(e[i].1, Mapping(r)[i].1) {
      EntryAppears(r, i);
    }
    forall k | 0 <= k < |r.fields|
      ensures Mapping(r)[|header| + k].0 == r.fields[k].0 && Appears(r.fields[k].1, Mapping(r)[|header| + k].1)
    {
      assert e[|header| + k] == r.fields[k];
    }
    if r.message.Some? {
      var last := |header| + |r.fields|;
      assert e[last] == (K_MESSAGE, Str(r.message.value));
      TextAppears(r.message.value, Mapping(r)[last].1);
    }
  }

  lemma {:induction false} TextAppears(s: Text, j: Json)
    requires Appears(Str(s), j)
    ensures j == JStr(s)
  {
  }

  lemma {:induction false} MappingLength(r: Record)
    requires Constructible(r)
    ensures |Mapping(r)| == |CanonicalEntries(r)|
  {
    CanonicalEntriesOk(r);
    hide Constructible, CanonicalEntries;
  }

  lemma {:induction false} EnvelopeIs(r: Record, m: Entries)
    requires Headed(m, EnvelopeEntries(r) + KindEntries(r.kind))
    ensures Envelope(m, r.application, r.emitter, r.event, r.timestamp.iso)
  {
    hide Lit, KindEntries;
    var header := EnvelopeEntries(r) + KindEntries(r.kind);
    assert forall i :: 0 <= i < 5 ==> header[i] == EnvelopeEntries(r)[i];
    assert header[0] == (K_SCHEMA_VERSION, Int(1));
  }

  /** The mapping of an operational record, in the words of the stored format. */
  lemma {:induction false} OperationalMapping(r: Record)
    requires Constructible(r) && r.kind.Operational?
    ensures OperationalEntries(Mapping(r), r.application, r.emitter, r.event, r.timestamp.iso, r.kind.severity,
                               r.fields, r.message)
  {
    hide Constructible, Mapping, Lit, EnvelopeEntries, Tail;
    MappingParts(r);
    EnvelopeIs(r, Mapping(r));
    var header := EnvelopeEntries(r) + KindEntries(r.kind);
    assert |EnvelopeEntries(r)| == 5 by { EnvelopeCount(r); }
    assert header[5] == (K_SEVERITY, Str(SeverityText(r.kind.severity)));
  }

  lemma {:induction false} EnvelopeCount(r: Record)
    ensures |EnvelopeEntries(r)| == 5
  {
  }

  /** The mapping of an audit record of an operation, in the words of the stored format. */
  lemma {:induction false} AuditMapping(r: Record)
    requires Constructible(r) && r.kind.Audit? && r.kind.operationId.Some?
    ensures AuditEntries(Mapping(r), r.application, r.emitter, r.event, r.timestamp.iso, r.kind.category, r.kind.actor,
                         r.kind.stage, r.kind.operationId.value, r.kind.outcome, r.fields, r.message)
  {
    hide Constructible, Mapping, Lit, EnvelopeEntries, Tail;
    MappingParts(r);
    EnvelopeIs(r, Mapping(r));
    EnvelopeCount(r);
    var k, m := r.kind, Mapping(r);
    var header := EnvelopeEntries(r) + KindEntries(k);
    assert header[5] == (K_CATEGORY, Str(CategoryText(k.category))) && header[6] == (K_ACTOR, Str(k.actor));
    assert header[7] == (K_STAGE, Str(StageText(k.stage))) && header[8] == (K_OPERATION_ID, Str(k.operationId.value));
    if k.outcome.Some? {
      assert header[9] == (K_OUTCOME, Str(OutcomeText(k.outcome.value)));
    }
  }

  // ---- from what a call supplied ----------------------------------------------

  /** The entry is a field that the call supplied, as it is, and harmless. */
  ghost predicate FieldAsSupplied(entry: (Text, Json), supplied: seq<(Text, Value)>) {
    Harmless(entry.1) && exists i :: 0 <= i < |supplied| && supplied[i].0 == entry.0 && Appears(supplied[i].1, entry.1)
  }

  /** The name stands among these entries. */
  ghost predicate Present(m: Entries, from: nat, to: nat, name: Text)
    requires to <= |m|
  {
    exists k :: from <= k < to && m[k].0 == name
  }

  ghost predicate DeclaredBefore(specs: seq<FieldSpec>, first: Text, second: Text) {
    exists i, j :: 0 <= i < j < |specs| && specs[i].name == first && specs[j].name == second
  }

  /** These entries are the fields that a call supplied: all of them, under their names and as they are, in declared
      order, harmless, and nothing else. */
  ghost predicate AsSupplied(m: Entries, from: nat, to: nat, specs: seq<FieldSpec>, supplied: seq<(Text, Value)>) {
    && from <= to <= |m|
    && (forall k :: from <= k < to ==> FieldAsSupplied(m[k], supplied))
    && (forall i :: 0 <= i < |supplied| ==> Present(m, from, to, supplied[i].0))
    && forall k, l :: from <= k < l < to ==> DeclaredBefore(specs, m[k].0, m[l].0)
  }

  /** The message is the template with the supplied values in place, when they are all there. */
  ghost predicate MessageSays(schema: EventSchema, values: seq<(Text, Value)>, show: Value -> Text,
                              message: Option<Text>)
  {
    match schema.template
    case None => message.None?
    case Some(pieces) =>
      && (message.Some? <==> AllBound(pieces, values))
      && (message.Some? ==>
            exists parts :: PiecesBecome(pieces, values, show, parts) && message.value == Join(parts))
  }

  lemma {:induction false} MessageIsRendered(schema: EventSchema, values: seq<(Text, Value)>, show: Value -> Text)
    ensures MessageSays(schema, values, show, Render(schema, values, show))
  {
    if schema.template.Some? {
      RenderSays(schema.template.value, values, show);
    }
    hide AllBound, PiecesBecome, Join;
  }

  lemma {:induction false} AllowedAppears(spec: FieldSpec, v: Value, w: Value, j: Json)
    requires ValueAllowed(spec, v) && w == Normal(v) && Appears(w, j)
    ensures Harmless(j) && Appears(v, j)
  {
    hide StringAllowed;
  }

  /** A record's fields that are what the guard made of a call are the fields the call supplied. */
  lemma {:induction false} TailAsSupplied(m: Entries, from: nat, specs: seq<FieldSpec>, supplied: Fields,
                                          forOutcome: bool, message: Option<Text>)
    requires DistinctNames(specs) && Passes(specs, supplied, forOutcome)
    requires Tail(m, from, Select(specs, supplied), message)
    ensures AsSupplied(m, from, from + |Select(specs, supplied)|, specs, supplied)
  {
    hide Select, Positions, Appears, Harmless, ValueAllowed, Normal, Declared, Supplied, Passes, DistinctNames,
         FieldAsSupplied;
    var r := Select(specs, supplied);
    var to := from + |r|;
    forall k | from <= k < to ensures FieldAsSupplied(m[k], supplied) {
      SelectedAppears(specs, supplied, forOutcome, k - from, m[k].1);
    }
    forall i | 0 <= i < |supplied| ensures Present(m, from, to, supplied[i].0) {
      SuppliedHasPlace(specs, supplied, forOutcome, i);
      var k :| 0 <= k < |r| && r[k].0 == supplied[i].0;
      assert m[from + k].0 == supplied[i].0;
    }
    hide DeclaredBefore;
    forall k, l | from <= k < l < to ensures DeclaredBefore(specs, m[k].0, m[l].0) {
      SelectOrder(specs, supplied, k - from, l - from);
    }
  }

  lemma {:induction false} SelectOrder(specs: seq<FieldSpec>, supplied: seq<(Text, Value)>, k: nat, l: nat)
    requires k < l < |Select(specs, supplied)|
    ensures DeclaredBefore(specs, Select(specs, supplied)[k].0, Select(specs, supplied)[l].0)
  {
    hide Select, Positions, HasKey, Lookup, Normal;
    PositionsShape(specs, supplied);
    EntryAt(specs, supplied, k);
    EntryAt(specs, supplied, l);
    var at := Positions(specs, supplied);
    assert at[k] < at[l] && specs[at[k]].name == Select(specs, supplied)[k].0;
  }

  lemma {:induction false} SelectedAppears(specs: seq<FieldSpec>, supplied: Fields, forOutcome: bool, k: nat, j: Json)
    requires Passes(specs, supplied, forOutcome) && k < |Select(specs, supplied)|
    requires Appears(Select(specs, supplied)[k].1, j)
    ensures FieldAsSupplied((Select(specs, supplied)[k].0, j), supplied)
  {
    hide Select, Positions, Appears, Harmless, ValueAllowed, Normal, IndexOf, Declared, Supplied;
    EntryAt(specs, supplied, k);
    var entry, at := Select(specs, supplied)[k], Positions(specs, supplied)[k];
    var i := IndexOf(supplied, entry.0).value;
    assert supplied[i].0 == entry.0 == specs[at].name && supplied[i].1 == Lookup(supplied, entry.0);
    assert ValueAllowed(specs[at], supplied[i].1);
    AllowedAppears(specs[at], supplied[i].1, entry.1, j);
  }

  lemma {:induction false} SuppliedHasPlace(specs: seq<FieldSpec>, supplied: Fields, forOutcome: bool, i: nat)
    requires Passes(specs, supplied, forOutcome) && i < |supplied|
    ensures exists k :: 0 <= k < |Select(specs, supplied)| && Select(specs, supplied)[k].0 == supplied[i].0
  {
    hide Select, IndexOf;
    assert Declared(specs, supplied[i].0);
    var j :| 0 <= j < |specs| && specs[j].name == supplied[i].0;
    AtItsIndex(supplied, i);
    var k := PlaceOf(specs, supplied, j);
  }

  /** A stored stage of an audit operation tells, in the words of the stored format, what its call supplied. */
  ghost predicate TellsStage(m: Entries, application: Text, emitter: Text, schema: EventSchema, actor: Text,
                             stage: Stage, id: Text, outcome: Option<Outcome>, supplied: seq<(Text, Value)>,
                             show: Value -> Text)
  {
    var values, from := Select(schema.fields, supplied), if outcome.Some? then 10 else 9;
    && schema.category.Some?
    && AsSupplied(m, from, from + |values|, schema.fields, supplied)
    && exists iso, message ::
         && AuditEntries(m, application, emitter, schema.eventId, iso, schema.category.value, actor, stage, id, outcome,
                         values, message)
         && MessageSays(schema, values, show, message)
  }

  lemma {:induction false} StageTold(r: Record, schema: EventSchema, supplied: Fields, show: Value -> Text)
    requires Constructible(r) && r.kind.Audit? && r.kind.operationId.Some? && r.event == schema.eventId
    requires DistinctNames(schema.fields) && schema.category == Some(r.kind.category)
    requires Passes(schema.fields, supplied, r.kind.stage == OUTCOME)
    requires r.fields == Select(schema.fields, supplied) && r.message == Render(schema, r.fields, show)
    ensures TellsStage(Mapping(r), r.application, r.emitter, schema, r.kind.actor, r.kind.stage,
                       r.kind.operationId.value, r.kind.outcome, supplied, show)
  {
    AuditMapping(r);
    MessageIsRendered(schema, r.fields, show);
    StageFields(r, schema, supplied);
    hide Constructible, Mapping, AuditEntries, Passes, Select, MessageSays, AsSupplied, DistinctNames, Render;
  }

  lemma {:induction false} StageFields(r: Record, schema: EventSchema, supplied: Fields)
    requires Constructible(r) && r.kind.Audit? && r.kind.operationId.Some?
    requires DistinctNames(schema.fields) && r.fields == Select(schema.fields, supplied)
    requires Passes(schema.fields, supplied, r.kind.stage == OUTCOME)
    ensures var from := if r.kind.outcome.Some? then 10 else 9;
            AsSupplied(Mapping(r), from, from + |r.fields|, schema.fields, supplied)
  {
    AuditMapping(r);
    hide Constructible, Mapping, Envelope, Tail, Passes, Select, AsSupplied, DistinctNames, StageWord, OutcomeWord,
         CategoryWord, Lit;
    var from := if r.kind.outcome.Some? then 10 else 9;
    TailAsSupplied(Mapping(r), from, schema.fields, supplied, r.kind.stage == OUTCOME, r.message);
  }

  /** A stored operational record tells what its call supplied. */
  ghost predicate TellsCall(m: Entries, application: Text, emitter: Text, schema: EventSchema, severity: Severity,
                            supplied: seq<(Text, Value)>, show: Value -> Text)
  {
    var values := Select(schema.fields, supplied);
    && AsSupplied(m, 6, 6 + |values|, schema.fields, supplied)
    && exists iso, message ::
         && OperationalEntries(m, application, emitter, schema.eventId, iso, severity, values, message)
         && MessageSays(schema, values, show, message)
  }

  lemma {:induction false} CallTold(r: Record, schema: EventSchema, supplied: Fields, show: Value -> Text)
    requires Constructible(r) && r.kind.Operational? && r.event == schema.eventId
    requires DistinctNames(schema.fields) && Passes(schema.fields, supplied, false)
    requires r.fields == Select(schema.fields, supplied) && r.message == Render(schema, r.fields, show)
    ensures TellsCall(Mapping(r), r.application, r.emitter, schema, r.kind.severity, supplied, show)
  {
    OperationalMapping(r);
    MessageIsRendered(schema, r.fields, show);
    hide Constructible, Mapping, Envelope, Tail, Passes, Select, MessageSays, AsSupplied, DistinctNames, Render;
    TailAsSupplied(Mapping(r), 6, schema.fields, supplied, false, r.message);
  }
}
