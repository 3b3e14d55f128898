/** The package's self-report of a contained logging defect: it always passes its own schema, and its line is short. */
module DefectRecord {
  import opened Basics
  import opened Json
  import opened Records
  import opened LineCodec
  import opened Events
  import Utf8

  const DEFECT_EVENT := Lit("nmlogging.operational.defect")
  const VIOLATION := Lit("violation")
  const OFFENDING_EVENT := Lit("offending_event")

  const DEFECT_FIELDS := [
    FieldSpec(VIOLATION, StrType, true, false, false, false, false),
    FieldSpec(OFFENDING_EVENT, StrType, false, false, false, false, false)
  ]

  const DEFECT_SCHEMA := EventSchema(DEFECT_EVENT, Some(ERROR), None, DEFECT_FIELDS, None)

  datatype DefectKind = UNKNOWN_EVENT | SCHEMA_VIOLATION | RECORD_CONSTRUCTION | OVERSIZE

  function KindText(k: DefectKind): Text {
    match k
    case UNKNOWN_EVENT => Lit("unknown_event")
    case SCHEMA_VIOLATION => Lit("schema_violation")
    case RECORD_CONSTRUCTION => Lit("record_construction")
    case OVERSIZE => Lit("oversize")
  }

  /** `_is_safe_event_ref`: a string that is a well-formed event id. */
  predicate IsSafeEventRef(event: Option<Text>) {
    event.Some? && EventIdOk(event.value)
  }

  /** The fields of the self-report: never the offending values, and the event only if it is a well-formed id. */
  function DefectFields(event: Option<Text>, k: DefectKind): (r: seq<(Text, Value)>) {
    [(VIOLATION, Str(KindText(k)))]
    + if IsSafeEventRef(event) then [(OFFENDING_EVENT, Str(event.value))] else []
  }

  // ---- plain text ---------------------------------------------------------

  /** Printable ASCII that JSON writes as it is. */
  predicate Plain(t: Text) {
    forall i :: 0 <= i < |t| ==> 0x20 <= t[i] < 0x7F && t[i] != QUOTE && t[i] != BACKSLASH
  }

  predicate PlainChars(s: string) {
    forall i :: 0 <= i < |s| ==> ' ' <= s[i] <= '~' && s[i] != '"' && s[i] != '\\'
  }

  lemma {:induction false} PlainLit(s: string)
    requires PlainChars(s)
    ensures Plain(Lit(s))
  {
  }

  lemma {:induction false} KeysPlain()
    ensures Plain(K_SCHEMA_VERSION) && Plain(K_TIMESTAMP) && Plain(K_APPLICATION) && Plain(K_EMITTER) && Plain(K_EVENT)
    ensures Plain(K_SEVERITY) && Plain(VIOLATION) && Plain(OFFENDING_EVENT)
  {
    PlainLit("schema_version");
    PlainLit("timestamp");
    PlainLit("application");
    PlainLit("emitter");
    PlainLit("event");
    PlainLit("severity");
    PlainLit("violation");
    PlainLit("offending_event");
  }

  lemma {:induction false} KindPlain(k: DefectKind)
    ensures Plain(KindText(k)) && 1 <= |KindText(k)| <= 19 && KindText(k)[0] != 0x45
  {
    hide Plain;
    match k
    case UNKNOWN_EVENT => PlainLit("unknown_event");
    case SCHEMA_VIOLATION => PlainLit("schema_violation");
    case RECORD_CONSTRUCTION => ConstructionPlain();
    case OVERSIZE => PlainLit("oversize");
  }

  lemma {:induction false} ConstructionPlain()
    ensures Plain(Lit("record_construction"))
  {
    assert "record_construction" == "record_" + "construction";
    assert PlainChars("record_") && PlainChars("construction");
    PlainLit("record_construction");
  }

  // ---- the schema is a good one -------------------------------------------

  predicate LowerLetters(t: Text) {
    t != [] && forall i :: 0 <= i < |t| ==> IsLower(t[i])
  }

  lemma {:induction false} JoinedIsEventId(a: Text, b: Text, c: Text)
    requires LowerLetters(a) && LowerLetters(b) && LowerLetters(c) && |a| + |b| + |c| + 2 <= MAX_EVENT_ID_CHARS
    ensures EventIdOk(a + [DOT] + b + [DOT] + c) && Plain(a + [DOT] + b + [DOT] + c)
  {
    var e := a + [DOT] + b + [DOT] + c;
    assert e[|a|] == DOT;
  }

  lemma {:induction false} DefectEventParts()
    ensures DEFECT_EVENT == Lit("nmlogging") + [DOT] + Lit("operational") + [DOT] + Lit("defect")
  {
    assert "nmlogging.operational.defect" == "nmlogging" + "." + "operational" + "." + "defect";
  }

  lemma {:induction false} DefectEventOk()
    ensures EventIdOk(DEFECT_EVENT) && Plain(DEFECT_EVENT)
  {
    DefectEventParts();
    hide EventIdOk, Plain;
    JoinedIsEventId(Lit("nmlogging"), Lit("operational"), Lit("defect"));
  }

  lemma {:induction false} FieldNamesFree()
    ensures !IsReserved(VIOLATION) && !IsReserved(OFFENDING_EVENT) && VIOLATION != OFFENDING_EVENT
  {
    var names := ["schema_version", "timestamp", "application", "emitter", "event", "severity",
                  "category", "actor", "stage", "operation_id", "outcome", "message"];
    forall i | 0 <= i < |RESERVED_FIELD_NAMES|
      ensures RESERVED_FIELD_NAMES[i] != VIOLATION && RESERVED_FIELD_NAMES[i] != OFFENDING_EVENT
    {
      assert RESERVED_FIELD_NAMES[i] == Lit(names[i]);
      assert names[i] != "violation" && names[i] != "offending_event" by {
        if |names[i]| == |"violation"| || |names[i]| == |"offending_event"| {
          assert names[i][0] != 'v' && names[i][0] != 'o';
        }
      }
      LitsDiffer(names[i], "violation");
      LitsDiffer(names[i], "offending_event");
    }
    assert |VIOLATION| != |OFFENDING_EVENT|;
  }

  lemma {:induction false} DefectSchemaOk()
    ensures SchemaOk(DEFECT_SCHEMA)
  {
    DefectEventOk();
    FieldNamesFree();
    hide IsReserved, EventIdOk;
    assert "offending_event" == "offending" + "_event";
  }

  lemma {:induction false} EventIdPlain(e: Text)
    requires EventIdOk(e)
    ensures Plain(e) && 1 <= |e| <= 128 && e[0] != 0x45
  {
    forall i | 0 <= i < |e| ensures 0x20 <= e[i] < 0x7F && e[i] != QUOTE && e[i] != BACKSLASH {
      assert EventIdCharOk(e, i);
    }
  }

  lemma {:induction false} PlainConforms(t: Text)
    requires Plain(t) && 1 <= |t| <= 128 && t[0] != 0x45
    ensures ScalarConforms(StrType, Str(t)) && Normal(Str(t)) == Str(t)
  {
    assert Lit("ENC[")[0] == 0x45;
  }

  lemma {:induction false} TwoFields(a: (Text, Value), b: (Text, Value))
    requires a.0 != b.0
    ensures IndexOf([a], a.0) == Some(0) && IndexOf([a], b.0) == None
    ensures IndexOf([a, b], a.0) == Some(0) && IndexOf([a, b], b.0) == Some(1)
  {
    assert [a, b][1..] == [b];
    assert [a][1..] == [];
  }

  lemma {:induction false} SelectTwo(x: FieldSpec, y: FieldSpec, fields: seq<(Text, Value)>)
    ensures Select([x, y], fields) ==
            (if HasKey(fields, x.name) then [(x.name, Normal(Lookup(fields, x.name)))] else [])
            + (if HasKey(fields, y.name) then [(y.name, Normal(Lookup(fields, y.name)))] else [])
  {
    hide HasKey, Lookup, Normal;
    assert [x, y][..1] == [x] && [x][..0] == [];
    assert Select([], fields) == [];
    assert Select([x], fields) == if HasKey(fields, x.name) then [(x.name, Normal(Lookup(fields, x.name)))] else [];
  }

  /** What the self-report says: the violation by its word, and the event exactly if it is a well-formed id. */
  lemma {:induction false} DefectSays(event: Option<Text>, k: DefectKind)
    ensures var f := DefectFields(event, k);
            && |f| == (if event.Some? && EventIdOk(event.value) then 2 else 1)
            && f[0].0 == Lit("violation")
            && (k == UNKNOWN_EVENT ==> f[0].1 == Str(Lit("unknown_event")))
            && (k == SCHEMA_VIOLATION ==> f[0].1 == Str(Lit("schema_violation")))
            && (k == RECORD_CONSTRUCTION ==> f[0].1 == Str(Lit("record_construction")))
            && (k == OVERSIZE ==> f[0].1 == Str(Lit("oversize")))
            && (|f| == 2 ==> f[1] == (Lit("offending_event"), Str(event.value)))
  {
    hide EventIdOk;
  }

  /** The guard passes the self-report's fields, unchanged, whatever the caller gave as the event. */
  lemma {:induction false} DefectFieldsAccepted(event: Option<Text>, k: DefectKind)
    ensures ValidateOperational(DEFECT_SCHEMA, ERROR, DefectFields(event, k)) == Ok(DefectFields(event, k))
    ensures UniqueKeys(DefectFields(event, k))
  {
    hide IsReserved, EventIdOk, ScalarConforms, Normal, LooksLikeEncEnvelope, KindText;
    var f := DefectFields(event, k);
    FieldNamesFree();
    KindPlain(k);
    PlainConforms(KindText(k));
    if IsSafeEventRef(event) {
      EventIdPlain(event.value);
      PlainConforms(event.value);
    }
    hide Plain;
    TwoFields((VIOLATION, Str(KindText(k))), (OFFENDING_EVENT, if event.Some? then Str(event.value) else Other));
    SelectTwo(DEFECT_FIELDS[0], DEFECT_FIELDS[1], f);
    assert DEFECT_FIELDS == [DEFECT_FIELDS[0], DEFECT_FIELDS[1]];
    assert SpecSatisfied(DEFECT_FIELDS[0], f, false) && SpecSatisfied(DEFECT_FIELDS[1], f, false);
    forall i | 0 <= i < |f| ensures SpecNamed(DEFECT_FIELDS, f[i].0).Some? {
      assert f[i].0 == DEFECT_FIELDS[i].name;
    }
  }

  // ---- the record ---------------------------------------------------------

  function DefectReport(application: Text, emitter: Text, now: Timestamp, event: Option<Text>, k: DefectKind): Record {
    DefectFieldsAccepted(event, k);
    Record(application, emitter, DEFECT_EVENT, now, DefectFields(event, k), None, Operational(ERROR))
  }

  /** Construction fails only for a clock that is not UTC. */
  lemma {:induction false} DefectConstructible(application: Text, emitter: Text, now: Timestamp, event: Option<Text>,
                                               k: DefectKind)
    requires ApplicationOk(application) && EmitterOk(emitter)
    ensures Constructible(DefectReport(application, emitter, now, event, k)) <==> now.utc
    ensures !now.utc ==>
              ConstructionError(DefectReport(application, emitter, now, event, k)) == Some(ConfigurationError)
  {
    hide IsReserved, EventIdOk, ApplicationOk, EmitterOk, KindText;
    DefectEventOk();
    FieldNamesFree();
    var f := DefectFields(event, k);
    assert |f| <= 2;
  }

  // ---- the line -----------------------------------------------------------

  /** An entry that prints as it is, in at most this many characters. */
  predicate ShortEntry(e: (Text, Value)) {
    && Plain(e.0) && |e.0| <= 16
    && (e.1 == Int(SCHEMA_VERSION) || (e.1.Str? && Plain(e.1.s) && |e.1.s| <= 128))
  }

  lemma {:induction false} EscapePlain(t: Text)
    requires Plain(t)
    ensures Escape(t) == t
  {
    if t != [] {
      EscapePlain(t[1..]);
    }
  }

  predicate Ascii(t: Text) {
    forall i :: 0 <= i < |t| ==> t[i] < 0x80
  }

  lemma {:induction false} PlainString(t: Text)
    requires Plain(t)
    ensures Ascii(PrintString(t)) && |PrintString(t)| == |t| + 2
  {
    EscapePlain(t);
  }

  lemma {:induction false} ShortValue(v: Value)
    requires v == Int(SCHEMA_VERSION) || (v.Str? && Plain(v.s) && |v.s| <= 128)
    ensures IsFieldValue(v) && FiniteValue(v)
    ensures Ascii(Print(ValueJson(v))) && |Print(ValueJson(v))| <= 130
  {
    hide Plain, PrintString, Ascii;
    if v.Str? {
      PlainString(v.s);
    } else {
      assert Print(ValueJson(v)) == PrintInt(1);
      assert PrintInt(1) == [ZERO + 1];
      assert Ascii([ZERO + 1]) by { AsciiOne(ZERO + 1); }
    }
  }

  lemma {:induction false} AsciiOne(c: CodePoint)
    requires c < 0x80
    ensures Ascii([c])
  {
  }

  lemma {:induction false} ShortMember(e: (Text, Value))
    requires ShortEntry(e)
    ensures IsFieldValue(e.1) && FiniteValue(e.1)
    ensures var m := PrintMember((e.0, ValueJson(e.1))); Ascii(m) && |m| <= 149
  {
    hide Plain, PrintString, Print, ValueJson, IsFieldValue, FiniteValue;
    PlainString(e.0);
    ShortValue(e.1);
  }

  lemma {:induction false} ShortMembers(entries: seq<(Text, Value)>)
    requires forall i :: 0 <= i < |entries| ==> ShortEntry(entries[i])
    ensures FieldValuesOk(entries)
    ensures var t := PrintMembers(MembersJson(entries)); Ascii(t) && |t| <= 150 * |entries|
  {
    hide ShortEntry, PrintMember, ValueJson, IsFieldValue, FiniteValue;
    forall i | 0 <= i < |entries|
      ensures IsFieldValue(entries[i].1)
      ensures Ascii(PrintMember((entries[i].0, ValueJson(entries[i].1))))
      ensures |PrintMember((entries[i].0, ValueJson(entries[i].1)))| <= 149
    {
      ShortMember(entries[i]);
    }
    if entries != [] {
      ShortMembers(entries[1..]);
      assert MembersJson(entries)[1..] == MembersJson(entries[1..]);
      assert MembersJson(entries)[0] == (entries[0].0, ValueJson(entries[0].1));
    }
  }

  lemma {:induction false} AsciiEncodable(t: Text)
    requires Ascii(t)
    ensures Utf8.Encodable(t) && |Utf8.Encode(t)| == |t|
  {
    Utf8.EncodeAsciiLength(t);
  }

  /** A timestamp as the ISO format of a UTC time writes it: short and plain. */
  predicate ShortTime(now: Timestamp) {
    now.utc && Plain(now.iso) && |now.iso| <= 64
  }

  lemma {:induction false} EnvelopeShort(r: Record)
    requires ShortTime(r.timestamp) && r.event == DEFECT_EVENT && r.kind == Operational(ERROR)
    requires ApplicationOk(r.application) && EmitterOk(r.emitter)
    ensures forall i :: 0 <= i < |EnvelopeEntries(r) + KindEntries(r.kind)| ==>
              ShortEntry((EnvelopeEntries(r) + KindEntries(r.kind))[i])
    ensures |EnvelopeEntries(r) + KindEntries(r.kind)| == 6
  {
    KeysPlain();
    PlainLit("app");
    PlainLit("wrapper");
    PlainLit("ERROR");
    DefectEventOk();
    hide EventIdOk;
    assert Plain(r.application);
    hide Plain, ApplicationOk;
  }

  lemma {:induction false} FieldsShort(event: Option<Text>, k: DefectKind)
    ensures forall i :: 0 <= i < |DefectFields(event, k)| ==> ShortEntry(DefectFields(event, k)[i])
    ensures |DefectFields(event, k)| <= 2
  {
    hide EventIdOk, Plain, KindText;
    KeysPlain();
    KindPlain(k);
    if IsSafeEventRef(event) {
      EventIdPlain(event.value);
    }
  }

  /** For every event argument the self-report is encoded, in a line far below the size limit. */
  lemma {:induction false} DefectLineFits(application: Text, emitter: Text, now: Timestamp, event: Option<Text>,
                                          k: DefectKind)
    requires ApplicationOk(application) && EmitterOk(emitter) && ShortTime(now)
    ensures var r := DefectReport(application, emitter, now, event, k);
            && Constructible(r)
            && EncodeLine(r).Ok? && |EncodeLine(r).value| <= 1203 < MAX_RECORD_BYTES
  {
    var r := DefectReport(application, emitter, now, event, k);
    DefectConstructible(application, emitter, now, event, k);
    EnvelopeShort(r);
    FieldsShort(event, k);
    CanonicalParts(r);
    CanonicalEntriesOk(r);
    hide ApplicationOk, EmitterOk, ConstructionError, EnvelopeEntries, KindEntries, CanonicalEntries, ShortEntry,
         DefectFields, ShortTime, EncodeLine;
    assert r.fields == DefectFields(event, k) && r.message == None && r.kind == Operational(ERROR);
    hide DefectReport;
    ShortFinite(r);
    ShortLine(r);
  }

  lemma {:induction false} ShortLine(r: Record)
    requires Constructible(r) && FiniteFields(r) && |CanonicalEntries(r)| <= 8
    requires forall i :: 0 <= i < |CanonicalEntries(r)| ==> ShortEntry(CanonicalEntries(r)[i])
    ensures EncodeLine(r).Ok? && |EncodeLine(r).value| <= 1203 < MAX_RECORD_BYTES
  {
    hide Constructible, CanonicalEntries, ShortEntry, FiniteFields, PrintMembers;
    CanonicalEntriesOk(r);
    ShortMembers(CanonicalEntries(r));
    AsciiEncodable(Print(JObj(Mapping(r))));
    hide Print;
    EncodeLineAccepts(r);
  }

  lemma {:induction false} ShortFinite(r: Record)
    requires forall i :: 0 <= i < |r.fields| ==> ShortEntry(r.fields[i])
    ensures FiniteFields(r)
  {
  }
}
