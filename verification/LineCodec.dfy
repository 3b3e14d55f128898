/** The canonical line: record to JSON text to bytes, and the reader's verdict on a framed line. */
module LineCodec {
  import opened Basics
  import opened Json
  import opened Records
  import opened Framing
  import JsonRoundTrip
  import Utf8

  // ---- from values to JSON ------------------------------------------------

  /** How `json.dumps` reads a field value: a tuple is an array. */
  function ScalarJson(v: Value): Json
    requires IsScalar(v)
  {
    match v
    case Str(s) => JStr(s)
    case Int(n) => JInt(n)
    case Float(f) => JFloat(f)
    case Bool(b) => JBool(b)
  }

  function ValueJson(v: Value): Json
    requires IsFieldValue(v)
  {
    if v.Tuple? then JArr(seq(|v.items|, i requires 0 <= i < |v.items| => ScalarJson(v.items[i])))
    else ScalarJson(v)
  }

  function MembersJson(entries: seq<(Text, Value)>): (m: seq<(Text, Json)>)
    requires FieldValuesOk(entries)
    ensures |m| == |entries|
    ensures forall i :: 0 <= i < |m| ==> m[i] == (entries[i].0, ValueJson(entries[i].1))
  {
    seq(|entries|, i requires 0 <= i < |entries| => (entries[i].0, ValueJson(entries[i].1)))
  }

  predicate FiniteScalar(v: Value) {
    v.Float? ==> v.f.Finite?
  }

  predicate FiniteValue(v: Value) {
    FiniteScalar(v) && (v.Tuple? ==> forall i :: 0 <= i < |v.items| ==> FiniteScalar(v.items[i]))
  }

  predicate FiniteFields(r: Record) {
    forall i :: 0 <= i < |r.fields| ==> FiniteValue(r.fields[i].1)
  }

  lemma {:induction false} JoinUnique<V>(a: seq<(Text, V)>, b: seq<(Text, V)>)
    requires UniqueKeys(a) && UniqueKeys(b)
    requires forall i, j :: 0 <= i < |a| && 0 <= j < |b| ==> a[i].0 != b[j].0
    ensures UniqueKeys(a + b)
  {
  }

  lemma {:induction false} CanonicalUnique(r: Record)
    requires !ReservedCollision(r.fields)
    ensures UniqueKeys(CanonicalEntries(r))
  {
    hide Lit, IsReserved, EnvelopeEntries, KindEntries;
    var head := EnvelopeEntries(r) + KindEntries(r.kind);
    HeaderOf(r);
    MessageIsReserved();
    JoinUnique(head, r.fields);
    JoinUnique(head + r.fields, MessageEntries(r.message));
    assert CanonicalEntries(r) == head + r.fields + MessageEntries(r.message);
  }

  lemma {:induction false} CanonicalEntriesOk(r: Record)
    requires Constructible(r)
    ensures FieldValuesOk(CanonicalEntries(r)) && UniqueKeys(CanonicalEntries(r))
    ensures !ReservedCollision(r.fields)
  {
    assert !ReservedCollision(r.fields) && FieldValuesOk(r.fields);
    hide Lit, IsReserved, ConstructionError, UniqueKeys, EnvelopeEntries, KindEntries;
    CanonicalUnique(r);
    HeaderValuesOk(r);
    assert CanonicalEntries(r) == EnvelopeEntries(r) + KindEntries(r.kind) + r.fields + MessageEntries(r.message);
  }

  lemma {:induction false} HeaderValuesOk(r: Record)
    ensures FieldValuesOk(EnvelopeEntries(r) + KindEntries(r.kind))
  {
    hide Lit, SeverityText, CategoryText, StageText, OutcomeText;
  }

  /** The mapping the reader should give back for `r`. */
  function Mapping(r: Record): seq<(Text, Json)>
    requires Constructible(r)
  {
    CanonicalEntriesOk(r);
    MembersJson(CanonicalEntries(r))
  }

  lemma {:induction false} ScalarsWellFormed(v: Value)
    requires IsFieldValue(v)
    ensures WellFormed(ValueJson(v))
  {
  }

  lemma {:induction false} MappingWellFormed(r: Record)
    requires Constructible(r)
    ensures WellFormed(JObj(Mapping(r)))
  {
    CanonicalEntriesOk(r);
    hide CanonicalEntries, Constructible, ValueJson;
    var e := CanonicalEntries(r);
    forall i | 0 <= i < |e| ensures WellFormed(Mapping(r)[i].1) {
      ScalarsWellFormed(e[i].1);
    }
  }

  // ---- encoding -----------------------------------------------------------

  /** `encode`: the one-line JSON text, ValueError where a float is not finite. */
  function EncodeText(r: Record): Result<Text, ExnClass>
    requires Constructible(r)
  {
    if ReservedCollision(r.fields) then Err(SchemaError)
    else if !FiniteFields(r) then Err(ValueError)
    else Ok(Print(JObj(Mapping(r))))
  }

  /** The wire line with its newline; an unencodable or over-limit record is a schema error. */
  function EncodeLine(r: Record): Result<bytes, ExnClass>
    requires Constructible(r)
  {
    match EncodeText(r)
    case Err(e) => Err(e)
    case Ok(text) =>
      if !Utf8.Encodable(text) then Err(SchemaError)
      else
        var data := Utf8.Encode(text) + [NEWLINE];
        if |data| > MAX_RECORD_BYTES then Err(SchemaError) else Ok(data)
  }

  // ---- decoding -----------------------------------------------------------

  /** What the reader makes of the body of one framed line. */
  datatype Verdict = Undecodable | Corrupt | NonObject | Object(mapping: seq<(Text, Json)>)

  function DecodeLine(body: bytes): Verdict {
    match Utf8.Decode(body)
    case None => Undecodable
    case Some(text) =>
      match Loads(text)
      case None => Corrupt
      case Some(JObj(members)) => Object(members)
      case Some(_) => NonObject
  }

  /** Every accepted record becomes one line, and the reader gives its mapping back. */
  lemma {:induction false} LineRoundTrip(r: Record)
    requires Constructible(r) && EncodeLine(r).Ok?
    ensures IsLine(EncodeLine(r).value)
    ensures DecodeLine(Body(EncodeLine(r).value)) == Object(Mapping(r))
    ensures |EncodeLine(r).value| <= MAX_RECORD_BYTES
  {
    var j := JObj(Mapping(r));
    var text := Print(j);
    var data := EncodeLine(r).value;
    hide Print, Mapping, EncodeText, Loads, Constructible;
    MappingWellFormed(r);
    JsonRoundTrip.LoadsPrint(j);
    JsonRoundTrip.PrintVisible(j);
    Utf8.DecodeEncode(text);
    Utf8.EncodeNewlineFree(text);
    assert data == Utf8.Encode(text) + [NEWLINE];
    assert Body(data) == Utf8.Encode(text);
  }

  /** Encoding refuses a constructible record exactly for an infinite float, a surrogate or its size. */
  lemma {:induction false} EncodeLineAccepts(r: Record)
    requires Constructible(r)
    ensures EncodeLine(r) == Err(ValueError) <==> !FiniteFields(r)
    ensures EncodeLine(r).Ok? <==>
              && FiniteFields(r)
              && Utf8.Encodable(Print(JObj(Mapping(r))))
              && |Utf8.Encode(Print(JObj(Mapping(r))))| < MAX_RECORD_BYTES
  {
    CanonicalEntriesOk(r);
  }

  // ---- nothing is lost ----------------------------------------------------

  lemma {:induction false} ScalarJsonInjective(v: Value, w: Value)
    requires IsScalar(v) && IsScalar(w) && ScalarJson(v) == ScalarJson(w)
    ensures v == w
  {
  }

  lemma {:induction false} ValueJsonInjective(v: Value, w: Value)
    requires IsFieldValue(v) && IsFieldValue(w) && ValueJson(v) == ValueJson(w)
    ensures v == w
  {
    if v.Tuple? {
      assert w.Tuple?;
      var a, b := ValueJson(v).items, ValueJson(w).items;
      assert |v.items| == |w.items|;
      forall i | 0 <= i < |v.items| ensures v.items[i] == w.items[i] {
        assert a[i] == b[i];
        ScalarJsonInjective(v.items[i], w.items[i]);
      }
    } else {
      assert !w.Tuple?;
      ScalarJsonInjective(v, w);
    }
  }

  /** A run of header keys is the longest prefix of reserved keys other than the message key. */
  lemma {:induction false} HeaderIsPrefix(h1: seq<(Text, Value)>, t1: seq<(Text, Value)>,
                                          h2: seq<(Text, Value)>, t2: seq<(Text, Value)>)
    requires h1 + t1 == h2 + t2 && Header(h1) && Header(h2)
    requires t1 == [] || t1[0].0 == K_MESSAGE || !IsReserved(t1[0].0)
    requires t2 == [] || t2[0].0 == K_MESSAGE || !IsReserved(t2[0].0)
    ensures h1 == h2 && t1 == t2
  {
    var e := h1 + t1;
    assert forall i :: 0 <= i < |h1| ==> e[i] == h1[i];
    assert forall i :: 0 <= i < |h2| ==> e[i] == h2[i];
    assert t1 != [] ==> e[|h1|] == t1[0];
    assert t2 != [] ==> e[|h2|] == t2[0];
    assert |h1| == |h2|;
    assert h1 == e[..|h1|] && t1 == e[|h1|..];
  }

  lemma {:induction false} TailInjective(f1: seq<(Text, Value)>, m1: Option<Text>, f2: seq<(Text, Value)>,
                                         m2: Option<Text>)
    requires f1 + MessageEntries(m1) == f2 + MessageEntries(m2)
    requires !ReservedCollision(f1) && !ReservedCollision(f2)
    ensures f1 == f2 && m1 == m2
  {
    hide IsReserved;
    MessageIsReserved();
    var e := f1 + MessageEntries(m1);
    assert forall i :: 0 <= i < |f1| ==> e[i] == f1[i];
    assert forall i :: 0 <= i < |f2| ==> e[i] == f2[i];
    assert m1.Some? ==> e[|f1|].0 == K_MESSAGE;
    assert m2.Some? ==> e[|f2|].0 == K_MESSAGE;
    assert |f1| == |f2|;
    assert f1 == e[..|f1|];
    if m1.Some? {
      assert e[|f1|] == MessageEntries(m2)[0];
    }
  }

  lemma {:induction false} SeverityTextInjective(a: Severity, b: Severity)
    requires SeverityText(a) == SeverityText(b)
    ensures a == b
  {
    assert |SeverityText(a)| == |SeverityText(b)|;
  }

  lemma {:induction false} CategoryTextInjective(a: Category, b: Category)
    requires CategoryText(a) == CategoryText(b)
    ensures a == b
  {
    assert |CategoryText(a)| == |CategoryText(b)|;
  }

  lemma {:induction false} StageTextInjective(a: Stage, b: Stage)
    requires StageText(a) == StageText(b)
    ensures a == b
  {
    assert |StageText(a)| == |StageText(b)|;
  }

  lemma {:induction false} OutcomeTextInjective(a: Outcome, b: Outcome)
    requires OutcomeText(a) == OutcomeText(b)
    ensures a == b
  {
    assert |OutcomeText(a)| == |OutcomeText(b)|;
    assert OutcomeText(a)[0] == OutcomeText(b)[0];
  }

  lemma {:induction false} KindEntriesInjective(a: Kind, b: Kind)
    requires KindEntries(a) == KindEntries(b)
    ensures a == b
  {
    hide Lit, SeverityText, CategoryText, StageText, OutcomeText;
    var e, f := KindEntries(a), KindEntries(b);
    assert K_SEVERITY != K_CATEGORY by { assert K_SEVERITY[0] != K_CATEGORY[0]; }
    assert |e| == |f| && forall i :: 0 <= i < |e| ==> e[i] == f[i];
    match a
    case Plain =>
    case Operational(severity) =>
      assert b.Operational?;
      SeverityTextInjective(severity, b.severity);
    case Audit(category, actor, stage, operationId, outcome) =>
      assert b.Audit?;
      assert e[0] == (K_CATEGORY, Str(CategoryText(category))) && f[0] == (K_CATEGORY, Str(CategoryText(b.category)));
      assert e[1] == (K_ACTOR, Str(actor)) && f[1] == (K_ACTOR, Str(b.actor));
      assert e[2] == (K_STAGE, Str(StageText(stage))) && f[2] == (K_STAGE, Str(StageText(b.stage)));
      CategoryTextInjective(category, b.category);
      StageTextInjective(stage, b.stage);
      OptionalEntriesInjective(a, b);
  }

  lemma {:induction false} OptionalEntriesInjective(a: Kind, b: Kind)
    requires a.Audit? && b.Audit? && KindEntries(a) == KindEntries(b)
    ensures a.operationId == b.operationId && a.outcome == b.outcome
  {
    hide CategoryText, StageText;
    var e, f := KindEntries(a), KindEntries(b);
    assert K_OPERATION_ID != K_OUTCOME by { assert |K_OPERATION_ID| != |K_OUTCOME|; }
    assert a.operationId.Some? ==> e[3] == (K_OPERATION_ID, Str(a.operationId.value));
    assert b.operationId.Some? ==> f[3] == (K_OPERATION_ID, Str(b.operationId.value));
    assert a.outcome.Some? ==> e[|e| - 1] == (K_OUTCOME, Str(OutcomeText(a.outcome.value)));
    assert b.outcome.Some? ==> f[|f| - 1] == (K_OUTCOME, Str(OutcomeText(b.outcome.value)));
    if a.outcome.Some? && b.outcome.Some? {
      OutcomeTextInjective(a.outcome.value, b.outcome.value);
    }
  }

  lemma {:induction false} EnvelopeInjective(r1: Record, r2: Record)
    requires EnvelopeEntries(r1) == EnvelopeEntries(r2) && r1.timestamp.utc == r2.timestamp.utc
    ensures r1.timestamp == r2.timestamp && r1.application == r2.application
    ensures r1.emitter == r2.emitter && r1.event == r2.event
  {
    var e, f := EnvelopeEntries(r1), EnvelopeEntries(r2);
    assert e[1] == f[1] && e[2] == f[2] && e[3] == f[3] && e[4] == f[4];
  }

  ghost function Head(r: Record): seq<(Text, Value)> {
    EnvelopeEntries(r) + KindEntries(r.kind)
  }

  ghost function Tail(r: Record): seq<(Text, Value)> {
    r.fields + MessageEntries(r.message)
  }

  lemma {:induction false} CanonicalSplit(r: Record)
    requires Constructible(r)
    ensures CanonicalEntries(r) == Head(r) + Tail(r) && Header(Head(r)) && !ReservedCollision(r.fields)
    ensures Tail(r) == [] || Tail(r)[0].0 == K_MESSAGE || !IsReserved(Tail(r)[0].0)
    ensures r.timestamp.utc
  {
    hide IsReserved, EnvelopeEntries, KindEntries;
    HeaderOf(r);
  }

  lemma {:induction false} HeadInjective(r1: Record, r2: Record)
    requires Head(r1) == Head(r2)
    ensures EnvelopeEntries(r1) == EnvelopeEntries(r2) && KindEntries(r1.kind) == KindEntries(r2.kind)
  {
    hide KindEntries;
    var h := Head(r1);
    assert |EnvelopeEntries(r1)| == |EnvelopeEntries(r2)| == 5;
    assert EnvelopeEntries(r1) == h[..5] && EnvelopeEntries(r2) == h[..5];
    assert KindEntries(r1.kind) == h[5..] && KindEntries(r2.kind) == h[5..];
  }

  /** Two records with the same ordered mapping are the same record. */
  lemma {:induction false} CanonicalEntriesInjective(r1: Record, r2: Record)
    requires Constructible(r1) && Constructible(r2)
    requires CanonicalEntries(r1) == CanonicalEntries(r2)
    ensures r1 == r2
  {
    CanonicalSplit(r1);
    CanonicalSplit(r2);
    hide ConstructionError, CanonicalEntries, Head, IsReserved;
    HeaderIsPrefix(Head(r1), Tail(r1), Head(r2), Tail(r2));
    HeadInjective(r1, r2);
    EnvelopeInjective(r1, r2);
    KindEntriesInjective(r1.kind, r2.kind);
    TailInjective(r1.fields, r1.message, r2.fields, r2.message);
  }

  lemma {:induction false} MembersJsonInjective(d: seq<(Text, Value)>, e: seq<(Text, Value)>)
    requires FieldValuesOk(d) && FieldValuesOk(e) && MembersJson(d) == MembersJson(e)
    ensures d == e
  {
    hide ValueJson, IsFieldValue;
    assert |d| == |e|;
    forall i | 0 <= i < |d| ensures d[i] == e[i] {
      assert MembersJson(d)[i] == MembersJson(e)[i];
      ValueJsonInjective(d[i].1, e[i].1);
    }
  }

  /** The bytes of a line determine the record: no two records share a line. */
  lemma {:induction false} LineDeterminesRecord(r1: Record, r2: Record)
    requires Constructible(r1) && Constructible(r2)
    requires EncodeLine(r1).Ok? && EncodeLine(r1) == EncodeLine(r2)
    ensures r1 == r2
  {
    hide EncodeLine, DecodeLine, ConstructionError;
    LineRoundTrip(r1);
    LineRoundTrip(r2);
    CanonicalEntriesOk(r1);
    CanonicalEntriesOk(r2);
    assert Mapping(r1) == Mapping(r2);
    MembersJsonInjective(CanonicalEntries(r1), CanonicalEntries(r2));
    CanonicalEntriesInjective(r1, r2);
  }
}
