/** The logical record: envelope, kinds, construction checks, and the canonical ordered mapping. */
module Records {
  import opened Basics
  import opened Json

  /** The exception classes the package tells apart; Interrupt stands for any non-Exception BaseException. */
  datatype ExnClass =
    | ConfigurationError
    | SchemaError
    | SinkError
    | PersistenceError
    | UsageError
    | FinalisationError
    | ValueError
    | OtherException
    | Interrupt

  // ---- values -------------------------------------------------------------

  /** A Python object as the record layer sees it; Other is anything that is no scalar, list or tuple. */
  datatype Value =
    | Str(s: Text)
    | Int(n: int)
    | Float(f: PyFloat)
    | Bool(b: bool)
    | Tuple(items: seq<Value>)
    | List(items: seq<Value>)
    | Other

  predicate IsScalar(v: Value) {
    v.Str? || v.Int? || v.Float? || v.Bool?
  }

  /** A permitted scalar, or a tuple of permitted scalars. */
  predicate IsFieldValue(v: Value) {
    IsScalar(v) || (v.Tuple? && forall i :: 0 <= i < |v.items| ==> IsScalar(v.items[i]))
  }

  type Fields = f: seq<(Text, Value)> | UniqueKeys(f)

  // ---- vocabulary ---------------------------------------------------------

  const MAX_RECORD_BYTES := 16384
  const MAX_FIELD_CHARS := 512
  const MAX_EVENT_ID_CHARS := 128
  const SCHEMA_VERSION := 1

  datatype Severity = INFO | WARNING | ERROR | CRITICAL
  datatype Category = ADMIN | ACTIVITY
  datatype Stage = COMPLETE | INTENT | OUTCOME
  datatype Outcome = SUCCESS | FAILURE | INDETERMINATE

  function SeverityText(s: Severity): Text {
    match s
    case INFO => Lit("INFO")
    case WARNING => Lit("WARNING")
    case ERROR => Lit("ERROR")
    case CRITICAL => Lit("CRITICAL")
  }

  function CategoryText(c: Category): Text {
    match c
    case ADMIN => Lit("ADMIN")
    case ACTIVITY => Lit("ACTIVITY")
  }

  function StageText(s: Stage): Text {
    match s
    case COMPLETE => Lit("complete")
    case INTENT => Lit("intent")
    case OUTCOME => Lit("outcome")
  }

  function OutcomeText(o: Outcome): Text {
    match o
    case SUCCESS => Lit("success")
    case FAILURE => Lit("failure")
    case INDETERMINATE => Lit("indeterminate")
  }

  // ---- records ------------------------------------------------------------

  /** A datetime: its ISO text, and whether it is aware with a zero offset. */
  datatype Timestamp = Timestamp(iso: Text, utc: bool)

  /** Plain is the base record class, which carries neither severity nor audit fields. */
  datatype Kind =
    | Plain
    | Operational(severity: Severity)
    | Audit(category: Category, actor: Text, stage: Stage,
            operationId: Option<Text>, outcome: Option<Outcome>)

  datatype Record = Record(
    application: Text,
    emitter: Text,
    event: Text,
    timestamp: Timestamp,
    fields: Fields,
    message: Option<Text>,
    kind: Kind
  )

  const K_SCHEMA_VERSION := Lit("schema_version")
  const K_TIMESTAMP := Lit("timestamp")
  const K_APPLICATION := Lit("application")
  const K_EMITTER := Lit("emitter")
  const K_EVENT := Lit("event")
  const K_SEVERITY := Lit("severity")
  const K_CATEGORY := Lit("category")
  const K_ACTOR := Lit("actor")
  const K_STAGE := Lit("stage")
  const K_OPERATION_ID := Lit("operation_id")
  const K_OUTCOME := Lit("outcome")
  const K_MESSAGE := Lit("message")

  const RESERVED_FIELD_NAMES: seq<Text> := [
    K_SCHEMA_VERSION, K_TIMESTAMP, K_APPLICATION, K_EMITTER, K_EVENT, K_SEVERITY,
    K_CATEGORY, K_ACTOR, K_STAGE, K_OPERATION_ID, K_OUTCOME, K_MESSAGE
  ]

  predicate IsReserved(name: Text) {
    name in RESERVED_FIELD_NAMES
  }

  lemma {:induction false} ReservedNamesDiffer()
    ensures forall i, j :: 0 <= i < j < |RESERVED_FIELD_NAMES| ==> RESERVED_FIELD_NAMES[i] != RESERVED_FIELD_NAMES[j]
  {
    var names := ["schema_version", "timestamp", "application", "emitter", "event", "severity",
                  "category", "actor", "stage", "operation_id", "outcome", "message"];
    forall i, j | 0 <= i < j < |RESERVED_FIELD_NAMES|
      ensures RESERVED_FIELD_NAMES[i] != RESERVED_FIELD_NAMES[j]
    {
      assert RESERVED_FIELD_NAMES[i] == Lit(names[i]) && RESERVED_FIELD_NAMES[j] == Lit(names[j]);
      assert names[i] != names[j] by {
        if |names[i]| == |names[j]| {
          assert names[i][0] != names[j][0];
        }
      }
      LitsDiffer(names[i], names[j]);
    }
  }

  // ---- grammars -----------------------------------------------------------

  predicate IsLower(c: CodePoint) {
    0x61 <= c <= 0x7A
  }

  predicate IsLowerOrDigit(c: CodePoint) {
    IsLower(c) || IsDigit(c)
  }

  const UNDERSCORE := 0x5F
  const DOT := 0x2E

  predicate ApplicationOk(a: Text) {
    && 1 <= |a| <= 64
    && IsLower(a[0])
    && forall i :: 0 <= i < |a| ==> IsLowerOrDigit(a[i]) || a[i] == UNDERSCORE || a[i] == MINUS
  }

  predicate EmitterOk(e: Text) {
    e == Lit("app") || e == Lit("wrapper")
  }

  /** What may stand at position `i` of an event id, given its neighbour on the right. */
  predicate EventIdCharOk(e: Text, i: nat)
    requires i < |e|
  {
    || IsLowerOrDigit(e[i])
    || (e[i] == UNDERSCORE && i + 1 < |e| && IsLowerOrDigit(e[i + 1]))
    || (e[i] == DOT && i + 1 < |e| && IsLower(e[i + 1]))
  }

  /** Two or more dot-separated segments; each starts with a letter, and an underscore only separates. */
  predicate EventIdOk(e: Text) {
    && 1 <= |e| <= MAX_EVENT_ID_CHARS
    && IsLower(e[0])
    && DOT in e
    && forall i :: 0 <= i < |e| ==> EventIdCharOk(e, i)
  }

  predicate FieldNameOk(name: Text) {
    && 1 <= |name| <= 64
    && IsLower(name[0])
    && forall i :: 0 <= i < |name| ==> IsLowerOrDigit(name[i]) || name[i] == UNDERSCORE
  }

  predicate LooksLikeEncEnvelope(v: Text) {
    Lit("ENC[") <= v && v[|v| - 1] == RBRACKET
  }

  /** `str.isspace` of one character. */
  predicate IsPySpace(c: CodePoint) {
    || 0x09 <= c <= 0x0D || 0x1C <= c <= 0x20 || c == 0x85 || c == 0xA0 || c == 0x1680
    || 0x2000 <= c <= 0x200A || c == 0x2028 || c == 0x2029 || c == 0x202F || c == 0x205F || c == 0x3000
  }

  function StripLeft(t: Text): Text {
    if t != [] && IsPySpace(t[0]) then StripLeft(t[1..]) else t
  }

  function StripRight(t: Text): Text {
    if t != [] && IsPySpace(t[|t| - 1]) then StripRight(t[..|t| - 1]) else t
  }

  function Strip(t: Text): Text {
    StripRight(StripLeft(t))
  }

  /** `str.casefold`, exact on every character whose folding consists of basic Latin letters in the placeholders. */
  function CaseFold(t: Text): Text {
    if t == [] then []
    else
      var c := t[0];
      (if 0x41 <= c <= 0x5A then [c + 0x20]
       else if c == 0x17F then Lit("s")
       else if c == 0xFB05 || c == 0xFB06 then Lit("st")
       else [c]) + CaseFold(t[1..])
  }

  predicate IsPlaceholder(actor: Text) {
    var folded := CaseFold(Strip(actor));
    folded == Lit("system") || folded == Lit("none") || folded == Lit("null") || folded == Lit("-")
  }

  // ---- construction checks ------------------------------------------------

  predicate ActorOk(actor: Text) {
    Strip(actor) != [] && !IsPlaceholder(actor) && !LooksLikeEncEnvelope(actor)
  }

  predicate OperationIdOk(stage: Stage, operationId: Option<Text>) {
    match operationId
    case None => stage == COMPLETE
    case Some(id) => stage != COMPLETE && Strip(id) != []
  }

  predicate OutcomeOk(stage: Stage, outcome: Option<Outcome>) {
    (stage == OUTCOME ==> outcome.Some?) && (stage == INTENT ==> outcome.None?)
  }

  predicate ReservedCollision(fields: seq<(Text, Value)>) {
    exists i :: 0 <= i < |fields| && IsReserved(fields[i].0)
  }

  predicate FieldValuesOk(fields: seq<(Text, Value)>) {
    forall i :: 0 <= i < |fields| ==> IsFieldValue(fields[i].1)
  }

  /** The exception that constructing the record raises, if any, in the order of the checks. */
  function ConstructionError(r: Record): Option<ExnClass> {
    if !ApplicationOk(r.application) || !EmitterOk(r.emitter) || !EventIdOk(r.event) || !r.timestamp.utc
    then Some(ConfigurationError)
    else if ReservedCollision(r.fields) || !FieldValuesOk(r.fields) then Some(SchemaError)
    else
      match r.kind
      case Audit(_, actor, stage, operationId, outcome) =>
        if ActorOk(actor) && OperationIdOk(stage, operationId) && OutcomeOk(stage, outcome)
        then None else Some(ConfigurationError)
      case _ => None
  }

  /** A record object exists only when its construction raised nothing. */
  predicate Constructible(r: Record) {
    ConstructionError(r).None?
  }

  // ---- the canonical mapping ----------------------------------------------

  function EnvelopeEntries(r: Record): seq<(Text, Value)> {
    [ (K_SCHEMA_VERSION, Int(SCHEMA_VERSION)),
      (K_TIMESTAMP, Str(r.timestamp.iso)),
      (K_APPLICATION, Str(r.application)),
      (K_EMITTER, Str(r.emitter)),
      (K_EVENT, Str(r.event)) ]
  }

  function KindEntries(k: Kind): seq<(Text, Value)> {
    match k
    case Plain => []
    case Operational(severity) => [(K_SEVERITY, Str(SeverityText(severity)))]
    case Audit(category, actor, stage, operationId, outcome) =>
      [ (K_CATEGORY, Str(CategoryText(category))), (K_ACTOR, Str(actor)), (K_STAGE, Str(StageText(stage))) ]
      + (if operationId.Some? then [(K_OPERATION_ID, Str(operationId.value))] else [])
      + (if outcome.Some? then [(K_OUTCOME, Str(OutcomeText(outcome.value)))] else [])
  }

  function MessageEntries(message: Option<Text>): seq<(Text, Value)> {
    if message.Some? then [(K_MESSAGE, Str(message.value))] else []
  }

  /** Envelope, kind fields, event fields in their order, message last; an absent value has no entry. */
  function CanonicalEntries(r: Record): seq<(Text, Value)> {
    EnvelopeEntries(r) + KindEntries(r.kind) + r.fields + MessageEntries(r.message)
  }

  ghost predicate Fresh(d: seq<(Text, Value)>, key: Text) {
    forall i :: 0 <= i < |d| ==> d[i].0 != key
  }

  lemma {:induction false} SetFresh(d: seq<(Text, Value)>, key: Text, value: Value)
    requires Fresh(d, key)
    ensures DictSet(d, key, value) == d + [(key, value)]
  {
  }

  /** The keys written before the event fields: pairwise different, reserved, and never the message key. */
  ghost predicate Header(d: seq<(Text, Value)>) {
    forall i :: 0 <= i < |d| ==> IsReserved(d[i].0) && d[i].0 != K_MESSAGE
  }

  /** Where the keys of the kind entries stand in the list of reserved names. */
  ghost function KindPositions(k: Kind): seq<nat> {
    match k
    case Plain => []
    case Operational(_) => [5]
    case Audit(_, _, _, operationId, outcome) =>
      [6, 7, 8] + (if operationId.Some? then [9] else []) + (if outcome.Some? then [10] else [])
  }

  lemma {:induction false} HeaderOf(r: Record)
    ensures var d := EnvelopeEntries(r) + KindEntries(r.kind); Header(d) && UniqueKeys(d)
  {
    hide *;
    HeaderPositions(r);
    ReservedNamesDiffer();
    DistinctHeader(EnvelopeEntries(r) + KindEntries(r.kind), [0, 1, 2, 3, 4] + KindPositions(r.kind));
  }

  /** The keys of `d` stand in the list of reserved names at these places, in its order. */
  ghost predicate PlacedAt(d: seq<(Text, Value)>, at: seq<nat>) {
    && |at| == |d|
    && (forall i :: 0 <= i < |d| ==> at[i] < 11 && d[i].0 == RESERVED_FIELD_NAMES[at[i]])
    && (forall i, j :: 0 <= i < j < |at| ==> at[i] < at[j])
  }

  lemma {:induction false} JoinPlaced(d: seq<(Text, Value)>, at: seq<nat>, e: seq<(Text, Value)>, be: seq<nat>)
    requires PlacedAt(d, at) && PlacedAt(e, be)
    requires forall i, j :: 0 <= i < |at| && 0 <= j < |be| ==> at[i] < be[j]
    ensures PlacedAt(d + e, at + be)
  {
  }

  lemma {:induction false} OnePlaced(d: seq<(Text, Value)>, i: nat)
    requires i < 11 && |d| == 1 && d[0].0 == RESERVED_FIELD_NAMES[i]
    ensures PlacedAt(d, [i])
  {
  }

  lemma {:induction false} NonePlaced()
    ensures PlacedAt([], [])
  {
  }

  lemma {:induction false} AuditPlaced(category: Category, actor: Text, stage: Stage)
    ensures PlacedAt([ (K_CATEGORY, Str(CategoryText(category))), (K_ACTOR, Str(actor)),
                       (K_STAGE, Str(StageText(stage))) ], [6, 7, 8])
  {
    hide Lit, CategoryText, StageText;
  }

  lemma {:induction false} KindPlaced(k: Kind)
    ensures PlacedAt(KindEntries(k), KindPositions(k))
    ensures forall i :: 0 <= i < |KindPositions(k)| ==> 5 <= KindPositions(k)[i]
  {
    assert RESERVED_FIELD_NAMES[5] == K_SEVERITY;
    assert RESERVED_FIELD_NAMES[9] == K_OPERATION_ID && RESERVED_FIELD_NAMES[10] == K_OUTCOME;
    hide Lit, SeverityText, CategoryText, StageText, OutcomeText, PlacedAt;
    NonePlaced();
    match k
    case Plain =>
    case Operational(severity) => OnePlaced(KindEntries(k), 5);
    case Audit(category, actor, stage, operationId, outcome) =>
      var three := [(K_CATEGORY, Str(CategoryText(category))), (K_ACTOR, Str(actor)), (K_STAGE, Str(StageText(stage)))];
      var id, idAt := [], [];
      if operationId.Some? {
        id, idAt := [(K_OPERATION_ID, Str(operationId.value))], [9];
        OnePlaced(id, 9);
      }
      var end, endAt := [], [];
      if outcome.Some? {
        end, endAt := [(K_OUTCOME, Str(OutcomeText(outcome.value)))], [10];
        OnePlaced(end, 10);
      }
      AuditPlaced(category, actor, stage);
      JoinPlaced(three, [6, 7, 8], id, idAt);
      JoinPlaced(three + id, [6, 7, 8] + idAt, end, endAt);
  }

  lemma {:induction false} EnvelopePlaced(r: Record)
    ensures PlacedAt(EnvelopeEntries(r), [0, 1, 2, 3, 4])
  {
    hide Lit;
  }

  lemma {:induction false} HeaderPositions(r: Record)
    ensures PlacedAt(EnvelopeEntries(r) + KindEntries(r.kind), [0, 1, 2, 3, 4] + KindPositions(r.kind))
  {
    hide EnvelopeEntries, KindEntries, KindPositions, Lit;
    EnvelopePlaced(r);
    KindPlaced(r.kind);
  }

  lemma {:induction false} DistinctHeader(d: seq<(Text, Value)>, at: seq<nat>)
    requires forall i, j :: 0 <= i < j < |RESERVED_FIELD_NAMES| ==> RESERVED_FIELD_NAMES[i] != RESERVED_FIELD_NAMES[j]
    requires PlacedAt(d, at)
    ensures Header(d) && UniqueKeys(d)
  {
    forall i | 0 <= i < |d| ensures IsReserved(d[i].0) && d[i].0 != K_MESSAGE {
      assert RESERVED_FIELD_NAMES[at[i]] in RESERVED_FIELD_NAMES;
      assert RESERVED_FIELD_NAMES[11] == K_MESSAGE;
    }
  }

  /** `mapping[key] = value` where the finished header `head` has this entry next. */
  function SetNext(mapping: seq<(Text, Value)>, key: Text, value: Value, ghost head: seq<(Text, Value)>)
    : (r: seq<(Text, Value)>)
    requires UniqueKeys(head) && mapping <= head && |mapping| < |head| && head[|mapping|] == (key, value)
    ensures r == head[..|mapping| + 1]
  {
    assert forall k :: 0 <= k < |mapping| ==> mapping[k] == head[k];
    DictSet(mapping, key, value)
  }

  /** The part of `to_mapping` that writes the envelope and the kind fields. */
  method WriteHeader(r: Record) returns (mapping: seq<(Text, Value)>)
    ensures mapping == EnvelopeEntries(r) + KindEntries(r.kind)
  {
    hide IsReserved, Lit, SeverityText, CategoryText, StageText, OutcomeText, IndexOf, HasKey, DictSet;
    ghost var head := EnvelopeEntries(r) + KindEntries(r.kind);
    HeaderOf(r);
    mapping := EnvelopeEntries(r);
    match r.kind {
      case Plain =>
      case Operational(severity) =>
        mapping := SetNext(mapping, K_SEVERITY, Str(SeverityText(severity)), head);
      case Audit(category, actor, stage, operationId, outcome) =>
        mapping := SetNext(mapping, K_CATEGORY, Str(CategoryText(category)), head);
        mapping := SetNext(mapping, K_ACTOR, Str(actor), head);
        mapping := SetNext(mapping, K_STAGE, Str(StageText(stage)), head);
        if operationId.Some? {
          mapping := SetNext(mapping, K_OPERATION_ID, Str(operationId.value), head);
        }
        if outcome.Some? {
          mapping := SetNext(mapping, K_OUTCOME, Str(OutcomeText(outcome.value)), head);
        }
    }
  }

  lemma {:induction false} CanonicalParts(r: Record)
    ensures var head := EnvelopeEntries(r) + KindEntries(r.kind);
            && (r.message.None? ==> CanonicalEntries(r) == head + r.fields)
            && (r.message.Some? ==> CanonicalEntries(r) == head + r.fields + [(K_MESSAGE, Str(r.message.value))])
  {
    hide IsReserved;
    assert CanonicalEntries(r) == EnvelopeEntries(r) + KindEntries(r.kind) + r.fields + MessageEntries(r.message);
  }

  /** `to_mapping`: fills the dictionary key by key and refuses a reserved event field name. */
  method ToMapping(r: Record) returns (result: Result<seq<(Text, Value)>, ExnClass>)
    ensures ReservedCollision(r.fields) ==> result == Err(SchemaError)
    ensures !ReservedCollision(r.fields) ==> result == Ok(CanonicalEntries(r))
  {
    hide IsReserved, EnvelopeEntries, KindEntries, CanonicalEntries, IndexOf, HasKey, DictSet, Lit;
    ghost var head := EnvelopeEntries(r) + KindEntries(r.kind);
    HeaderOf(r);
    var mapping := WriteHeader(r);
    for i := 0 to |r.fields|
      invariant mapping == head + r.fields[..i]
      invariant forall k :: 0 <= k < i ==> !IsReserved(r.fields[k].0)
    {
      var (name, value) := r.fields[i];
      if IsReserved(name) {
        return Err(SchemaError);
      }
      FreshAfterHeader(head, r.fields[..i], name);
      SetFresh(mapping, name, value);
      mapping := DictSet(mapping, name, value);
    }
    if r.message.Some? {
      MessageIsReserved();
      FreshAfterHeader(head, r.fields, K_MESSAGE);
      SetFresh(mapping, K_MESSAGE, Str(r.message.value));
      mapping := DictSet(mapping, K_MESSAGE, Str(r.message.value));
    }
    assert r.fields[..|r.fields|] == r.fields;
    CanonicalParts(r);
    return Ok(mapping);
  }

  lemma {:induction false} MessageIsReserved()
    ensures IsReserved(K_MESSAGE)
  {
    assert RESERVED_FIELD_NAMES[11] == K_MESSAGE;
  }

  lemma {:induction false} FreshAfterHeader(head: seq<(Text, Value)>, d: seq<(Text, Value)>, key: Text)
    requires Header(head) && Fresh(d, key) && (key == K_MESSAGE || !IsReserved(key))
    ensures Fresh(head + d, key)
  {
  }
}
