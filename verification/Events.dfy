/** Event schemas as allowlists: schema checks, the field guard, message templates, the registry. */
module Events {
  import opened Basics
  import opened Json
  import opened Records
  import opened LineCodec
  import Utf8

  datatype FieldType = StrType | IntType | FloatType | BoolType

  datatype FieldSpec = FieldSpec(
    name: Text,
    fieldType: FieldType,
    required: bool,
    isList: bool,
    freeForm: bool,
    freeFormPermitted: bool,
    requiredOnOutcome: bool
  )

  /** A parsed message template: literal runs and plain `{name}` placeholders. */
  datatype Piece = Literal(text: Text) | Placeholder(name: Text)

  datatype EventSchema = EventSchema(
    eventId: Text,
    severity: Option<Severity>,
    category: Option<Category>,
    fields: seq<FieldSpec>,
    template: Option<seq<Piece>>
  )

  predicate SpecOk(spec: FieldSpec) {
    FieldNameOk(spec.name) && !IsReserved(spec.name) && (spec.freeForm ==> spec.freeFormPermitted)
  }

  ghost predicate DistinctNames(specs: seq<FieldSpec>) {
    forall i, j :: 0 <= i < j < |specs| ==> specs[i].name != specs[j].name
  }

  /** Placeholders may name required fields only. */
  ghost predicate TemplateOk(specs: seq<FieldSpec>, template: seq<Piece>) {
    forall i :: 0 <= i < |template| && template[i].Placeholder? ==> NamesRequired(specs, template[i].name)
  }

  ghost predicate NamesRequired(specs: seq<FieldSpec>, name: Text) {
    exists j :: 0 <= j < |specs| && specs[j].required && specs[j].name == name
  }

  /** What construction of an EventSchema and its FieldSpecs enforces. */
  ghost predicate SchemaOk(schema: EventSchema) {
    && EventIdOk(schema.eventId)
    && (schema.severity.Some? <==> schema.category.None?)
    && (forall i :: 0 <= i < |schema.fields| ==> SpecOk(schema.fields[i]))
    && DistinctNames(schema.fields)
    && (schema.template.Some? ==> TemplateOk(schema.fields, schema.template.value))
  }

  predicate SupportsContextManager(schema: EventSchema) {
    forall i :: 0 <= i < |schema.fields| ==> !schema.fields[i].requiredOnOutcome
  }

  // ---- the guard on one value ---------------------------------------------

  predicate ScalarConforms(t: FieldType, v: Value) {
    match t
    case BoolType => v.Bool?
    case IntType => v.Int?
    case FloatType => v.Float? && v.f.Finite?
    case StrType => v.Str? && |v.s| <= MAX_FIELD_CHARS && !LooksLikeEncEnvelope(v.s) && Utf8.Encodable(v.s)
  }

  predicate Conforms(spec: FieldSpec, v: Value) {
    if spec.isList then
      (v.List? || v.Tuple?) && forall i :: 0 <= i < |v.items| ==> ScalarConforms(spec.fieldType, v.items[i])
    else ScalarConforms(spec.fieldType, v)
  }

  /** A validated list is a tuple; any other value is passed on as it is. */
  function Normal(v: Value): Value {
    if v.List? then Tuple(v.items) else v
  }

  // ---- the guard on the fields of a call ----------------------------------

  function SpecNamed(specs: seq<FieldSpec>, name: Text): (r: Option<FieldSpec>)
    ensures r.Some? ==> r.value in specs && r.value.name == name
    ensures r.None? ==> forall i :: 0 <= i < |specs| ==> specs[i].name != name
  {
    if specs == [] then None
    else if specs[0].name == name then Some(specs[0])
    else SpecNamed(specs[1..], name)
  }

  predicate IsRequired(spec: FieldSpec, forOutcome: bool) {
    if forOutcome then spec.requiredOnOutcome else spec.required
  }

  predicate AllDeclared(specs: seq<FieldSpec>, fields: seq<(Text, Value)>) {
    forall i :: 0 <= i < |fields| ==> SpecNamed(specs, fields[i].0).Some?
  }

  predicate SpecSatisfied(spec: FieldSpec, fields: seq<(Text, Value)>, forOutcome: bool) {
    if HasKey(fields, spec.name) then Conforms(spec, Lookup(fields, spec.name)) else !IsRequired(spec, forOutcome)
  }

  /** The declarative guard: every name declared, every required name present, every value conforming. */
  predicate Acceptable(specs: seq<FieldSpec>, fields: seq<(Text, Value)>, forOutcome: bool) {
    && AllDeclared(specs, fields)
    && forall j :: 0 <= j < |specs| ==> SpecSatisfied(specs[j], fields, forOutcome)
  }

  /** The supplied fields in declared order, lists made tuples. */
  function Select(specs: seq<FieldSpec>, fields: seq<(Text, Value)>): seq<(Text, Value)> {
    if specs == [] then []
    else
      var spec := specs[|specs| - 1];
      Select(specs[..|specs| - 1], fields)
      + if HasKey(fields, spec.name) then [(spec.name, Normal(Lookup(fields, spec.name)))] else []
  }

  // ---- what the guard promises, in terms of the values alone --------------------

  /** Text shaped like an encrypted envelope: `ENC[` at its start and `]` at its end. */
  predicate EnvelopeShaped(t: seq<int>) {
    && |t| >= 5 && t[0] == 0x45 && t[1] == 0x4E && t[2] == 0x43 && t[3] == 0x5B
    && t[|t| - 1] == 0x5D
  }

  /** A string that may be logged: short, free of surrogates, and no encrypted envelope. */
  predicate StringAllowed(t: seq<int>) {
    && |t| <= 512 && !EnvelopeShaped(t)
    && forall i :: 0 <= i < |t| ==> !(0xD800 <= t[i] <= 0xDFFF)
  }

  predicate ScalarAllowed(t: FieldType, v: Value) {
    match v
    case Str(s) => t == StrType && StringAllowed(s)
    case Int(_) => t == IntType
    case Float(f) => t == FloatType && f != NaN && f != PosInf && f != NegInf
    case Bool(_) => t == BoolType
    case _ => false
  }

  predicate ValueAllowed(spec: FieldSpec, v: Value) {
    match v
    case Tuple(items) => spec.isList && forall i :: 0 <= i < |items| ==> ScalarAllowed(spec.fieldType, items[i])
    case List(items) => spec.isList && forall i :: 0 <= i < |items| ==> ScalarAllowed(spec.fieldType, items[i])
    case _ => !spec.isList && ScalarAllowed(spec.fieldType, v)
  }

  ghost predicate Declared(specs: seq<FieldSpec>, name: Text) {
    exists j :: 0 <= j < |specs| && specs[j].name == name
  }

  ghost predicate Supplied(fields: seq<(Text, Value)>, name: Text) {
    exists i :: 0 <= i < |fields| && fields[i].0 == name
  }

  /** What a call must supply: only declared names, for each an allowed value, and all that the stage requires. */
  ghost predicate Passes(specs: seq<FieldSpec>, fields: seq<(Text, Value)>, forOutcome: bool) {
    && (forall i :: 0 <= i < |fields| ==> Declared(specs, fields[i].0))
    && (forall i, j :: 0 <= i < |fields| && 0 <= j < |specs| && specs[j].name == fields[i].0 ==>
          ValueAllowed(specs[j], fields[i].1))
    && (forall j :: 0 <= j < |specs| && specs[j].required && !forOutcome ==> Supplied(fields, specs[j].name))
    && (forall j :: 0 <= j < |specs| && specs[j].requiredOnOutcome && forOutcome ==> Supplied(fields, specs[j].name))
  }

  /** What comes out of the guard: for each entry a supplied one of that name, lists made tuples. */
  ghost predicate Validates(fields: seq<(Text, Value)>, r: seq<(Text, Value)>) {
    && (forall k :: 0 <= k < |r| ==> ComesFrom(fields, r[k]))
    && forall i :: 0 <= i < |fields| ==> Supplied(r, fields[i].0)
  }

  ghost predicate ComesFrom(fields: seq<(Text, Value)>, entry: (Text, Value)) {
    exists i :: 0 <= i < |fields| && fields[i].0 == entry.0
      && entry.1 == match fields[i].1 { case List(items) => Tuple(items) case v => v }
  }

  lemma {:induction false} AtItsIndex(fields: Fields, i: nat)
    requires i < |fields|
    ensures HasKey(fields, fields[i].0) && Lookup(fields, fields[i].0) == fields[i].1
  {
    assert IndexOf(fields, fields[i].0).Some?;
  }

  lemma {:induction false} AllowedIffConforms(spec: FieldSpec, v: Value)
    ensures ValueAllowed(spec, v) <==> Conforms(spec, v)
  {
    if v.List? || v.Tuple? {
      forall i | 0 <= i < |v.items|
        ensures ScalarAllowed(spec.fieldType, v.items[i]) <==> ScalarConforms(spec.fieldType, v.items[i])
      {
        ScalarAllowedIff(spec.fieldType, v.items[i]);
      }
    } else {
      ScalarAllowedIff(spec.fieldType, v);
    }
  }

  lemma {:induction false} ScalarAllowedIff(t: FieldType, v: Value)
    ensures ScalarAllowed(t, v) <==> ScalarConforms(t, v)
  {
    if v.Str? {
      EnvelopeIff(v.s);
    }
    hide LooksLikeEncEnvelope, EnvelopeShaped;
  }

  lemma {:induction false} EnvelopeIff(t: Text)
    ensures EnvelopeShaped(t) <==> LooksLikeEncEnvelope(t)
  {
    var head := Lit("ENC[");
    assert head[0] == 0x45 && head[1] == 0x4E && head[2] == 0x43 && head[3] == 0x5B;
  }

  /** The guard's own check is the promise: it accepts exactly the calls that pass. */
  lemma {:induction false} PassesIffAcceptable(specs: seq<FieldSpec>, fields: Fields, forOutcome: bool)
    ensures Passes(specs, fields, forOutcome) <==> Acceptable(specs, fields, forOutcome)
  {
    hide IndexOf, Conforms, ValueAllowed;
    forall i | 0 <= i < |fields| ensures SpecNamed(specs, fields[i].0).Some? <==> Declared(specs, fields[i].0) {
      DeclaredIffNamed(specs, fields[i].0);
    }
    forall i | 0 <= i < |fields| ensures HasKey(fields, fields[i].0) && Lookup(fields, fields[i].0) == fields[i].1 {
      AtItsIndex(fields, i);
    }
    forall j, v: Value | 0 <= j < |specs| ensures ValueAllowed(specs[j], v) <==> Conforms(specs[j], v) {
      AllowedIffConforms(specs[j], v);
    }
    if Acceptable(specs, fields, forOutcome) {
      forall i, j | 0 <= i < |fields| && 0 <= j < |specs| && specs[j].name == fields[i].0
        ensures ValueAllowed(specs[j], fields[i].1)
      {
        assert SpecSatisfied(specs[j], fields, forOutcome);
      }
      forall j | 0 <= j < |specs| && IsRequired(specs[j], forOutcome) ensures Supplied(fields, specs[j].name) {
        assert SpecSatisfied(specs[j], fields, forOutcome);
        SuppliedIffKey(fields, specs[j].name);
      }
    }
    if Passes(specs, fields, forOutcome) {
      forall j | 0 <= j < |specs| ensures SpecSatisfied(specs[j], fields, forOutcome) {
        SuppliedIffKey(fields, specs[j].name);
        if HasKey(fields, specs[j].name) {
          var i := IndexOf(fields, specs[j].name).value;
          assert fields[i].0 == specs[j].name;
        }
      }
    }
  }

  lemma {:induction false} DeclaredIffNamed(specs: seq<FieldSpec>, name: Text)
    ensures SpecNamed(specs, name).Some? <==> Declared(specs, name)
  {
  }

  lemma {:induction false} SuppliedIffKey(fields: seq<(Text, Value)>, name: Text)
    ensures HasKey(fields, name) <==> Supplied(fields, name)
  {
  }

  /** What the guard gives is what was supplied. */
  lemma {:induction false} SelectValidates(specs: seq<FieldSpec>, fields: seq<(Text, Value)>)
    requires forall i :: 0 <= i < |fields| ==> Declared(specs, fields[i].0)
    ensures Validates(fields, Select(specs, fields))
  {
    hide Select, IndexOf, Positions;
    var r := Select(specs, fields);
    forall k | 0 <= k < |r| ensures ComesFrom(fields, r[k]) {
      EntryAt(specs, fields, k);
      var i := IndexOf(fields, r[k].0).value;
      assert fields[i].0 == r[k].0 && fields[i].1 == Lookup(fields, r[k].0);
    }
    forall i | 0 <= i < |fields| ensures Supplied(r, fields[i].0) {
      assert Declared(specs, fields[i].0);
      var j :| 0 <= j < |specs| && specs[j].name == fields[i].0;
      SuppliedIffKey(fields, fields[i].0);
      var k := PlaceOf(specs, fields, j);
      assert r[k].0 == fields[i].0;
    }
  }

  /** `_guard_fields`: two loops that refuse, or build the validated dictionary. */
  method GuardFields(specs: seq<FieldSpec>, fields: Fields, forOutcome: bool)
    returns (r: Result<seq<(Text, Value)>, ExnClass>)
    ensures Acceptable(specs, fields, forOutcome) ==> r == Ok(Select(specs, fields))
    ensures !Acceptable(specs, fields, forOutcome) ==> r == Err(SchemaError)
    ensures r.Ok? <==> Passes(specs, fields, forOutcome)
    ensures r.Ok? ==> Validates(fields, r.value) && r.value == Select(specs, fields)
  {
    PassesIffAcceptable(specs, fields, forOutcome);
    hide IndexOf, HasKey, Lookup, Normal, Conforms, SpecNamed, Validates, Declared;
    for i := 0 to |fields|
      invariant forall k :: 0 <= k < i ==> SpecNamed(specs, fields[k].0).Some?
    {
      if SpecNamed(specs, fields[i].0).None? {
        return Err(SchemaError);
      }
    }
    var result: seq<(Text, Value)> := [];
    for j := 0 to |specs|
      invariant result == Select(specs[..j], fields)
      invariant forall k :: 0 <= k < j ==> SpecSatisfied(specs[k], fields, forOutcome)
    {
      var spec := specs[j];
      assert specs[..j + 1][..j] == specs[..j];
      if HasKey(fields, spec.name) {
        if !Conforms(spec, Lookup(fields, spec.name)) {
          return Err(SchemaError);
        }
        result := result + [(spec.name, Normal(Lookup(fields, spec.name)))];
      } else if IsRequired(spec, forOutcome) {
        return Err(SchemaError);
      }
    }
    assert specs[..|specs|] == specs;
    SelectValidates(specs, fields);
    return Ok(result);
  }

  /** `validate_operational`: an operational event, at exactly its pinned severity. */
  function ValidateOperational(schema: EventSchema, severity: Severity, fields: seq<(Text, Value)>)
    : Result<seq<(Text, Value)>, ExnClass>
  {
    if schema.severity != Some(severity) || !Acceptable(schema.fields, fields, false) then Err(SchemaError)
    else Ok(Select(schema.fields, fields))
  }

  /** `validate_audit`: an audit event; what is required depends on the stage. */
  function ValidateAudit(schema: EventSchema, fields: seq<(Text, Value)>, stage: Stage)
    : Result<seq<(Text, Value)>, ExnClass>
  {
    if schema.category.None? || !Acceptable(schema.fields, fields, stage == OUTCOME) then Err(SchemaError)
    else Ok(Select(schema.fields, fields))
  }

  // ---- what the guard gives -----------------------------------------------

  /** Where the fields of the validated dictionary are declared. */
  ghost function Positions(specs: seq<FieldSpec>, fields: seq<(Text, Value)>): (at: seq<nat>)
    ensures |at| == |Select(specs, fields)|
    ensures forall i :: 0 <= i < |at| ==> at[i] < |specs|
  {
    if specs == [] then []
    else
      var n := |specs| - 1;
      var before := Positions(specs[..n], fields);
      before + if HasKey(fields, specs[n].name) then [n] else []
  }

  ghost predicate SelectedAt(specs: seq<FieldSpec>, fields: seq<(Text, Value)>, entry: (Text, Value), j: nat) {
    && j < |specs| && entry.0 == specs[j].name && HasKey(fields, entry.0)
    && entry.1 == Normal(Lookup(fields, entry.0))
  }

  /** Declared order: positions increase, and every supplied declared name has one. */
  lemma {:induction false} PositionsShape(specs: seq<FieldSpec>, fields: seq<(Text, Value)>)
    ensures var at := Positions(specs, fields);
            && (forall i, j :: 0 <= i < j < |at| ==> at[i] < at[j])
            && (forall j :: 0 <= j < |specs| && HasKey(fields, specs[j].name) ==> j in at)
  {
    hide IndexOf, HasKey, Lookup, Normal, Select;
    if specs != [] {
      var n := |specs| - 1;
      PositionsShape(specs[..n], fields);
      var at, at0 := Positions(specs, fields), Positions(specs[..n], fields);
      forall j | 0 <= j < |specs| && HasKey(fields, specs[j].name) ensures j in at {
        if j < n {
          assert specs[..n][j] == specs[j];
          assert j in at0;
        } else {
          assert at[|at| - 1] == n;
        }
      }
    }
  }

  /** The result is in declared order, holds every supplied declared name once, under its normalised value. */
  lemma {:induction false} SelectShape(specs: seq<FieldSpec>, fields: seq<(Text, Value)>)
    ensures var r, at := Select(specs, fields), Positions(specs, fields);
            && (forall i :: 0 <= i < |r| ==> SelectedAt(specs, fields, r[i], at[i]))
            && (forall i, j :: 0 <= i < j < |r| ==> at[i] < at[j])
            && (forall j :: 0 <= j < |specs| && HasKey(fields, specs[j].name) ==> j in at)
  {
    PositionsShape(specs, fields);
    AllSelectedAt(specs, fields);
  }

  ghost predicate AllSelected(specs: seq<FieldSpec>, fields: seq<(Text, Value)>, r: seq<(Text, Value)>, at: seq<nat>) {
    |r| == |at| && forall i :: 0 <= i < |r| ==> SelectedAt(specs, fields, r[i], at[i])
  }

  lemma {:induction false} AllSelectedAt(specs: seq<FieldSpec>, fields: seq<(Text, Value)>)
    ensures AllSelected(specs, fields, Select(specs, fields), Positions(specs, fields))
  {
    hide IndexOf, HasKey, Lookup, Normal, SelectedAt;
    if specs != [] {
      var n := |specs| - 1;
      AllSelectedAt(specs[..n], fields);
      MoreSpecs(specs, fields, Select(specs[..n], fields), Positions(specs[..n], fields));
      if HasKey(fields, specs[n].name) {
        SelectedLast(specs, fields);
      }
    }
  }

  lemma {:induction false} MoreSpecs(specs: seq<FieldSpec>, fields: seq<(Text, Value)>, r: seq<(Text, Value)>,
                                     at: seq<nat>)
    requires specs != [] && AllSelected(specs[..|specs| - 1], fields, r, at)
    ensures AllSelected(specs, fields, r, at)
  {
    hide IndexOf, HasKey, Lookup, Normal;
    forall i | 0 <= i < |r| ensures SelectedAt(specs, fields, r[i], at[i]) {
      assert SelectedAt(specs[..|specs| - 1], fields, r[i], at[i]);
    }
  }

  lemma {:induction false} SelectedLast(specs: seq<FieldSpec>, fields: seq<(Text, Value)>)
    requires specs != [] && HasKey(fields, specs[|specs| - 1].name)
    ensures var name := specs[|specs| - 1].name;
            SelectedAt(specs, fields, (name, Normal(Lookup(fields, name))), |specs| - 1)
  {
  }

  lemma {:induction false} EntryAt(specs: seq<FieldSpec>, fields: seq<(Text, Value)>, i: nat)
    requires i < |Select(specs, fields)|
    ensures SelectedAt(specs, fields, Select(specs, fields)[i], Positions(specs, fields)[i])
  {
    hide Select, Positions, SelectedAt;
    AllSelectedAt(specs, fields);
  }

  lemma {:induction false} SelectUnique(specs: seq<FieldSpec>, fields: seq<(Text, Value)>)
    requires DistinctNames(specs)
    ensures UniqueKeys(Select(specs, fields))
  {
    hide Select, Positions, Normal, HasKey, Lookup;
    PositionsShape(specs, fields);
    var r, at := Select(specs, fields), Positions(specs, fields);
    forall i, j | 0 <= i < j < |r| ensures r[i].0 != r[j].0 {
      EntryAt(specs, fields, i);
      EntryAt(specs, fields, j);
      assert at[i] < at[j];
    }
  }

  /** A supplied declared field has its place in the result. */
  lemma {:induction false} PlaceOf(specs: seq<FieldSpec>, fields: seq<(Text, Value)>, j: nat) returns (i: nat)
    requires j < |specs| && HasKey(fields, specs[j].name)
    ensures i < |Select(specs, fields)| && Select(specs, fields)[i].0 == specs[j].name
  {
    hide Select, Positions, Normal, HasKey, Lookup;
    PositionsShape(specs, fields);
    i :| 0 <= i < |Positions(specs, fields)| && Positions(specs, fields)[i] == j;
    EntryAt(specs, fields, i);
  }

  /** The validated dictionary answers like the supplied one, lists made tuples. */
  lemma {:induction false} SelectLookup(specs: seq<FieldSpec>, fields: seq<(Text, Value)>, j: nat)
    requires DistinctNames(specs) && j < |specs|
    ensures HasKey(Select(specs, fields), specs[j].name) <==> HasKey(fields, specs[j].name)
    ensures HasKey(fields, specs[j].name) ==>
              Lookup(Select(specs, fields), specs[j].name) == Normal(Lookup(fields, specs[j].name))
  {
    hide Select, Positions, Normal, IndexOf;
    var r, name := Select(specs, fields), specs[j].name;
    if HasKey(fields, name) {
      var i := PlaceOf(specs, fields, j);
      assert IndexOf(r, r[i].0).Some?;
    }
    if HasKey(r, name) {
      EntryAt(specs, fields, IndexOf(r, name).value);
    }
  }

  lemma {:induction false} NormalConforms(spec: FieldSpec, v: Value)
    requires Conforms(spec, v)
    ensures Conforms(spec, Normal(v)) && Normal(Normal(v)) == Normal(v)
    ensures IsFieldValue(Normal(v)) && FiniteValue(Normal(v))
  {
  }

  /** A validated dictionary passes the same guard again, unchanged. */
  lemma {:induction false} GuardIdempotent(specs: seq<FieldSpec>, fields: seq<(Text, Value)>, forOutcome: bool)
    requires DistinctNames(specs) && Acceptable(specs, fields, forOutcome)
    ensures Acceptable(specs, Select(specs, fields), forOutcome)
    ensures Select(specs, Select(specs, fields)) == Select(specs, fields)
  {
    hide Select, Positions, HasKey, Lookup, Conforms, IndexOf;
    var r := Select(specs, fields);
    forall j | 0 <= j < |specs| ensures SpecSatisfied(specs[j], r, forOutcome) {
      SelectLookup(specs, fields, j);
      assert SpecSatisfied(specs[j], fields, forOutcome);
      if HasKey(fields, specs[j].name) {
        NormalConforms(specs[j], Lookup(fields, specs[j].name));
      }
    }
    forall i | 0 <= i < |r| ensures SpecNamed(specs, r[i].0).Some? {
      EntryAt(specs, fields, i);
    }
    forall j | 0 <= j < |specs|
      ensures HasKey(r, specs[j].name) <==> HasKey(fields, specs[j].name)
      ensures HasKey(fields, specs[j].name) ==>
                Normal(Lookup(r, specs[j].name)) == Normal(Lookup(fields, specs[j].name))
    {
      SelectLookup(specs, fields, j);
    }
    SelectSame(specs, r, fields);
  }

  lemma {:induction false} SelectSame(specs: seq<FieldSpec>, a: seq<(Text, Value)>, b: seq<(Text, Value)>)
    requires forall j :: 0 <= j < |specs| ==> (HasKey(a, specs[j].name) <==> HasKey(b, specs[j].name))
    requires forall j :: 0 <= j < |specs| && HasKey(b, specs[j].name) ==>
               Normal(Lookup(a, specs[j].name)) == Normal(Lookup(b, specs[j].name))
    ensures Select(specs, a) == Select(specs, b)
  {
    hide IndexOf, HasKey, Lookup, Normal;
    if specs != [] {
      var n := |specs| - 1;
      assert forall j :: 0 <= j < n ==> specs[..n][j] == specs[j];
      SelectSame(specs[..n], a, b);
    }
  }

  /** Fields that pass the guard never trip the record's own checks, nor the finite-float rule of the encoder. */
  lemma {:induction false} GuardedFieldsFitRecord(schema: EventSchema, fields: seq<(Text, Value)>, forOutcome: bool)
    requires SchemaOk(schema) && Acceptable(schema.fields, fields, forOutcome)
    ensures var r := Select(schema.fields, fields);
            && UniqueKeys(r) && !ReservedCollision(r) && FieldValuesOk(r)
            && forall i :: 0 <= i < |r| ==> FiniteValue(r[i].1)
  {
    hide IsReserved, EventIdOk, FieldNameOk, TemplateOk, Select, Positions;
    SelectUnique(schema.fields, fields);
    var r, at := Select(schema.fields, fields), Positions(schema.fields, fields);
    forall i | 0 <= i < |r| ensures IsFieldValue(r[i].1) && FiniteValue(r[i].1) && !IsReserved(r[i].0) {
      var spec := schema.fields[at[i]];
      EntryAt(schema.fields, fields, i);
      assert SpecOk(spec) && SpecSatisfied(spec, fields, forOutcome);
      NormalConforms(spec, Lookup(fields, spec.name));
    }
  }

  /** No fields at all are acceptable exactly when nothing is required at that stage. */
  lemma {:induction false} NoFields(specs: seq<FieldSpec>, forOutcome: bool)
    ensures Acceptable(specs, [], forOutcome) <==> forall j :: 0 <= j < |specs| ==> !IsRequired(specs[j], forOutcome)
    ensures Select(specs, []) == []
  {
    if specs != [] {
      var n := |specs| - 1;
      NoFields(specs[..n], forOutcome);
    }
    assert forall j :: 0 <= j < |specs| ==>
      SpecSatisfied(specs[j], [], forOutcome) == !IsRequired(specs[j], forOutcome);
  }

  // ---- messages -----------------------------------------------------------

  /** `render_message`; `show` is how `str.format` writes a value. A missing placeholder gives no message. */
  function Render(schema: EventSchema, fields: seq<(Text, Value)>, show: Value -> Text): Option<Text> {
    match schema.template
    case None => None
    case Some(pieces) => RenderPieces(pieces, fields, show)
  }

  function RenderPieces(pieces: seq<Piece>, fields: seq<(Text, Value)>, show: Value -> Text): Option<Text> {
    if pieces == [] then Some([])
    else
      match RenderPieces(pieces[..|pieces| - 1], fields, show)
      case None => None
      case Some(text) =>
        match pieces[|pieces| - 1]
        case Literal(run) => Some(text + run)
        case Placeholder(name) => if HasKey(fields, name) then Some(text + show(Lookup(fields, name))) else None
  }

  ghost predicate AllBound(pieces: seq<Piece>, fields: seq<(Text, Value)>) {
    forall i :: 0 <= i < |pieces| && pieces[i].Placeholder? ==> HasKey(fields, pieces[i].name)
  }

  lemma {:induction false} RenderBound(pieces: seq<Piece>, fields: seq<(Text, Value)>, show: Value -> Text)
    ensures RenderPieces(pieces, fields, show).Some? <==> AllBound(pieces, fields)
  {
    if pieces != [] {
      var n := |pieces| - 1;
      RenderBound(pieces[..n], fields, show);
      assert forall i :: 0 <= i < n ==> pieces[..n][i] == pieces[i];
    }
  }

  function Join(parts: seq<Text>): Text {
    if parts == [] then [] else parts[0] + Join(parts[1..])
  }

  /** What one piece of a template becomes: its own text, or the value of the field it names as `show` writes it. */
  ghost predicate PieceBecomes(piece: Piece, fields: seq<(Text, Value)>, show: Value -> Text, part: Text) {
    match piece
    case Literal(run) => part == run
    case Placeholder(name) => exists i :: 0 <= i < |fields| && fields[i].0 == name && part == show(fields[i].1)
  }

  ghost predicate PiecesBecome(pieces: seq<Piece>, fields: seq<(Text, Value)>, show: Value -> Text, parts: seq<Text>) {
    |parts| == |pieces| && forall i :: 0 <= i < |pieces| ==> PieceBecomes(pieces[i], fields, show, parts[i])
  }

  lemma {:induction false} JoinSnoc(parts: seq<Text>, part: Text)
    ensures Join(parts + [part]) == Join(parts) + part
  {
    if parts != [] {
      JoinSnoc(parts[1..], part);
      assert (parts + [part])[1..] == parts[1..] + [part];
      Assoc(parts[0], Join(parts[1..]), part);
    } else {
      assert Join([part]) == part + Join([]) by { assert [part][1..] == []; }
    }
  }

  /** A rendered message is the template's pieces in order, each placeholder replaced by the value of its field. */
  lemma {:induction false} RenderSays(pieces: seq<Piece>, fields: seq<(Text, Value)>, show: Value -> Text)
    ensures match RenderPieces(pieces, fields, show)
            case None => !AllBound(pieces, fields)
            case Some(text) => exists parts :: PiecesBecome(pieces, fields, show, parts) && text == Join(parts)
  {
    RenderBound(pieces, fields, show);
    if pieces == [] {
      assert PiecesBecome(pieces, fields, show, []) && Join([]) == [];
    } else if RenderPieces(pieces, fields, show).Some? {
      var n := |pieces| - 1;
      RenderSays(pieces[..n], fields, show);
      var before := RenderPieces(pieces[..n], fields, show).value;
      var parts :| PiecesBecome(pieces[..n], fields, show, parts) && before == Join(parts);
      var part := if pieces[n].Literal? then pieces[n].text else show(Lookup(fields, pieces[n].name));
      assert PieceBecomes(pieces[n], fields, show, part) by {
        if pieces[n].Placeholder? {
          assert fields[IndexOf(fields, pieces[n].name).value].0 == pieces[n].name;
        }
      }
      JoinSnoc(parts, part);
      LongerBecomes(pieces, fields, show, parts, part);
    }
  }

  lemma {:induction false} LongerBecomes(pieces: seq<Piece>, fields: seq<(Text, Value)>, show: Value -> Text,
                                         parts: seq<Text>, part: Text)
    requires pieces != [] && PiecesBecome(pieces[..|pieces| - 1], fields, show, parts)
    requires PieceBecomes(pieces[|pieces| - 1], fields, show, part)
    ensures PiecesBecome(pieces, fields, show, parts + [part])
  {
    hide PieceBecomes;
    forall i | 0 <= i < |pieces| ensures PieceBecomes(pieces[i], fields, show, (parts + [part])[i]) {
      if i < |pieces| - 1 {
        assert PieceBecomes(pieces[..|pieces| - 1][i], fields, show, parts[i]);
      }
    }
  }

  /** On an intent or an operational record the template always renders: it names required fields only. */
  lemma {:induction false} RequiredFieldsRender(schema: EventSchema, fields: seq<(Text, Value)>, show: Value -> Text)
    requires SchemaOk(schema) && Acceptable(schema.fields, fields, false) && schema.template.Some?
    ensures Render(schema, Select(schema.fields, fields), show).Some?
  {
    hide IsReserved, EventIdOk, FieldNameOk, Select, IndexOf, Lookup, HasKey;
    var pieces := schema.template.value;
    var r := Select(schema.fields, fields);
    forall i | 0 <= i < |pieces| && pieces[i].Placeholder? ensures HasKey(r, pieces[i].name) {
      assert NamesRequired(schema.fields, pieces[i].name);
      var j :| 0 <= j < |schema.fields| && schema.fields[j].required && schema.fields[j].name == pieces[i].name;
      assert SpecSatisfied(schema.fields[j], fields, false);
      SelectLookup(schema.fields, fields, j);
    }
    RenderBound(pieces, r, show);
  }

  // ---- the registry -------------------------------------------------------

  const RESERVED_EVENT_NAMESPACE := Lit("nmlogging")

  function FirstSegment(e: Text): (r: Text)
    ensures r <= e && DOT !in r && (|r| < |e| ==> e[|r|] == DOT)
  {
    if e == [] || e[0] == DOT then [] else [e[0]] + FirstSegment(e[1..])
  }

  class EventRegistry {
    var schemas: map<Text, EventSchema>

    ghost predicate Valid()
      reads this
    {
      forall id :: id in schemas ==> schemas[id].eventId == id && SchemaOk(schemas[id])
    }

    constructor ()
      ensures Valid() && schemas == map[]
    {
      schemas := map[];
    }

    method Insert(schema: EventSchema) returns (r: Result<(), ExnClass>)
      requires Valid() && SchemaOk(schema)
      modifies this
      ensures Valid()
      ensures schema.eventId in old(schemas) ==> r == Err(ConfigurationError) && schemas == old(schemas)
      ensures schema.eventId !in old(schemas) ==> r == Ok(()) && schemas == old(schemas)[schema.eventId := schema]
    {
      if schema.eventId in schemas {
        return Err(ConfigurationError);
      }
      schemas := schemas[schema.eventId := schema];
      return Ok(());
    }

    /** A consumer event: never in the package's own namespace, never a second time. */
    method Register(schema: EventSchema) returns (r: Result<(), ExnClass>)
      requires Valid() && SchemaOk(schema)
      modifies this
      ensures Valid()
      ensures r.Ok? <==> FirstSegment(schema.eventId) != RESERVED_EVENT_NAMESPACE && schema.eventId !in old(schemas)
      ensures schemas == if r.Ok? then old(schemas)[schema.eventId := schema] else old(schemas)
      ensures r.Err? ==> r.error == ConfigurationError
      ensures forall id :: FirstSegment(id) == RESERVED_EVENT_NAMESPACE ==>
                (id in schemas <==> id in old(schemas)) && (id in schemas ==> schemas[id] == old(schemas)[id])
    {
      if FirstSegment(schema.eventId) == RESERVED_EVENT_NAMESPACE {
        return Err(ConfigurationError);
      }
      r := Insert(schema);
    }

    /** A package self-report: only in the reserved namespace. */
    method RegisterReserved(schema: EventSchema) returns (r: Result<(), ExnClass>)
      requires Valid() && SchemaOk(schema)
      modifies this
      ensures Valid()
      ensures r.Ok? <==> FirstSegment(schema.eventId) == RESERVED_EVENT_NAMESPACE && schema.eventId !in old(schemas)
      ensures schemas == if r.Ok? then old(schemas)[schema.eventId := schema] else old(schemas)
      ensures r.Err? ==> r.error == ConfigurationError
    {
      if FirstSegment(schema.eventId) != RESERVED_EVENT_NAMESPACE {
        return Err(ConfigurationError);
      }
      r := Insert(schema);
    }

    /** `get`: a miss is a schema error; None stands for an event argument that is no string. */
    method Get(eventId: Option<Text>) returns (r: Result<EventSchema, ExnClass>)
      requires Valid()
      ensures r == if eventId.Some? && eventId.value in schemas then Ok(schemas[eventId.value]) else Err(SchemaError)
    {
      if eventId.None? || eventId.value !in schemas {
        return Err(SchemaError);
      }
      return Ok(schemas[eventId.value]);
    }
  }
}
