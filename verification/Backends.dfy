/** What the generated JSON Schema, CUE and SQL accept: the same values for every valid field. */
module Backends {
  import opened Seqs
  import opened Json
  import opened Document
  import opened Numbers
  import opened Strings
  import opened Values
  import opened SchemaIr

  // ----- JSON Schema -----

  /** The two patterns the schema compiler writes. */
  datatype Pattern = UuidPattern | NoNulPattern

  /** `lenient`: a `$` that also matches before a final newline, as some expression engines read it. */
  predicate Matches(p: Pattern, s: string, lenient: bool) {
    match p
    case UuidPattern => UuidText(s) || (lenient && |s| == 37 && s[36] == '\n' && UuidText(s[..36]))
    case NoNulPattern => NulFree(s)
  }

  datatype SchemaType = IntegerSchema | BooleanSchema | StringSchema
  datatype Schema = Schema(
    kind: SchemaType, nullable: bool, pattern: Option<Pattern>,
    minLength: Option<int>, maxLength: Option<int>, minimum: Option<int>, maximum: Option<int>)

  function PropertySchema(f: IrField): Schema {
    Schema(if f.scalar == Int32Type then IntegerSchema else if f.scalar == BooleanType then BooleanSchema else StringSchema,
           f.nullable,
           if f.scalar == UuidType then Some(UuidPattern) else if f.scalar == StringType then Some(NoNulPattern) else None,
           if f.minLength.Some? then f.minLength else if f.scalar == UuidType then Some(36) else None,
           if f.maxLength.Some? then f.maxLength else if f.scalar == UuidType then Some(36) else None,
           if f.scalar == Int32Type then Some(Or(f.minimum, INT_MIN)) else None,
           if f.scalar == Int32Type then Some(Or(f.maximum, INT_MAX)) else None)
  }

  /** Each keyword constrains only the values it is about; `format` is an annotation. */
  predicate SchemaAccepts(s: Schema, j: Instance, lenient: bool) {
    && (match j
        case JsonNull => s.nullable
        case JsonBool(_) => s.kind == BooleanSchema
        case JsonInt(_) => s.kind == IntegerSchema
        case JsonFloat(_) => s.kind == IntegerSchema && IsWhole(j)
        case JsonString(_) => s.kind == StringSchema
        case _ => false)
    && (j.JsonString? && s.pattern.Some? ==> Matches(s.pattern.value, j.s, lenient))
    && (j.JsonString? && s.minLength.Some? ==> |j.s| >= s.minLength.value)
    && (j.JsonString? && s.maxLength.Some? ==> |j.s| <= s.maxLength.value)
    && (IsNumber(j) && s.minimum.Some? ==> NumberOf(j) >= s.minimum.value as real)
    && (IsNumber(j) && s.maximum.Some? ==> NumberOf(j) <= s.maximum.value as real)
  }

  // ----- CUE -----

  datatype CueTerm = CueBool | CueInt | CueString | AtLeast(n: int) | AtMost(n: int) | IsUuid | HasNoNul | MinRunes(n: int) | MaxRunes(n: int)
  /** `null | (a & b & ...)` when nullable, `a & b & ...` otherwise. */
  datatype Cue = Cue(nullable: bool, terms: seq<CueTerm>)

  function Constraint(f: IrField): Cue {
    Cue(f.nullable,
        (match f.scalar
         case BooleanType => [CueBool]
         case Int32Type => [CueInt, AtLeast(Or(f.minimum, INT_MIN)), AtMost(Or(f.maximum, INT_MAX))]
         case _ => [CueString]) +
        (if f.scalar == UuidType then [IsUuid] else []) +
        (if f.scalar == StringType then [HasNoNul] else []) +
        (if f.minLength.Some? then [MinRunes(f.minLength.value)] else []) +
        (if f.maxLength.Some? then [MaxRunes(f.maxLength.value)] else []))
  }

  /**
   * Every value of the term; unlike a schema keyword, a term rejects values of other kinds, and
   * `int` rejects a number written with a fraction or an exponent.
   */
  predicate TermAccepts(t: CueTerm, j: Instance) {
    match t
    case CueBool => j.JsonBool?
    case CueInt => j.JsonInt?
    case CueString => j.JsonString?
    case AtLeast(n) => IsNumber(j) && NumberOf(j) >= n as real
    case AtMost(n) => IsNumber(j) && NumberOf(j) <= n as real
    case IsUuid => j.JsonString? && UuidText(j.s)
    case HasNoNul => j.JsonString? && NulFree(j.s)
    case MinRunes(n) => j.JsonString? && |j.s| >= n
    case MaxRunes(n) => j.JsonString? && |j.s| <= n
  }

  predicate CueAccepts(c: Cue, j: Instance) {
    (c.nullable && j.JsonNull?) || forall t | t in c.terms :: TermAccepts(t, j)
  }

  // ----- SQL -----

  datatype CheckTerm = LengthGe(n: int) | LengthLe(n: int) | ValueGe(n: int) | ValueLe(n: int)
  datatype ColumnDecl = ColumnDecl(scalar: Scalar, notNull: bool, checks: seq<CheckTerm>)

  function MinLengthCheck(f: IrField): seq<CheckTerm> { if f.minLength.Some? then [LengthGe(f.minLength.value)] else [] }
  function MaxLengthCheck(f: IrField): seq<CheckTerm> { if f.maxLength.Some? then [LengthLe(f.maxLength.value)] else [] }
  function MinimumCheck(f: IrField): seq<CheckTerm> { if f.minimum.Some? then [ValueGe(f.minimum.value)] else [] }
  function MaximumCheck(f: IrField): seq<CheckTerm> { if f.maximum.Some? then [ValueLe(f.maximum.value)] else [] }

  function Declaration(f: IrField): ColumnDecl {
    ColumnDecl(f.scalar, !f.nullable, (MinLengthCheck(f) + MaxLengthCheck(f)) + (MinimumCheck(f) + MaximumCheck(f)))
  }

  /** Comparing with NULL is unknown. */
  function Eval(t: CheckTerm, v: SqlValue): Truth {
    match t
    case LengthGe(n) => if v.SqlText? then Known(|v.s| >= n) else Unknown
    case LengthLe(n) => if v.SqlText? then Known(|v.s| <= n) else Unknown
    case ValueGe(n) => if v.SqlInt? then Known(v.i >= n) else Unknown
    case ValueLe(n) => if v.SqlInt? then Known(v.i <= n) else Unknown
  }

  function And(a: Truth, b: Truth): Truth {
    if a == False || b == False then False else if a == Unknown || b == Unknown then Unknown else True
  }

  function EvalAll(ts: seq<CheckTerm>, v: SqlValue): Truth {
    if ts == [] then True else And(EvalAll(ts[..|ts| - 1], v), Eval(ts[|ts| - 1], v))
  }

  /** A CHECK rejects a row only when it is false. */
  predicate ColumnAccepts(c: ColumnDecl, v: SqlValue) {
    HasType(v, c.scalar) && (v.SqlNull? ==> !c.notNull) && EvalAll(c.checks, v) != False
  }

  // ----- agreement, field by field -----

  lemma {:induction false} EvalAllMeans(ts: seq<CheckTerm>, v: SqlValue)
    ensures EvalAll(ts, v) != False <==> NoneFalse(ts, v)
  {
    if ts != [] {
      var (rest, last) := (ts[..|ts| - 1], ts[|ts| - 1]);
      EvalAllMeans(rest, v);
      assert ts == rest + [last];
    }
  }

  /** The JSON values a valid field has, said once. */
  predicate Meant(f: IrField, j: Instance) {
    match j
    case JsonNull => f.nullable
    case JsonBool(_) => f.scalar == BooleanType
    case JsonInt(i) => f.scalar == Int32Type && Or(f.minimum, INT_MIN) <= i <= Or(f.maximum, INT_MAX)
    case JsonFloat(x) => f.scalar == Int32Type && IsWhole(j) && Or(f.minimum, INT_MIN) <= x.Floor <= Or(f.maximum, INT_MAX)
    case JsonString(s) =>
      && (f.scalar == StringType || f.scalar == UuidType)
      && (f.scalar == UuidType ==> UuidText(s))
      && (f.scalar == StringType ==> NulFree(s))
      && (f.minLength.Some? ==> |s| >= f.minLength.value)
      && (f.maxLength.Some? ==> |s| <= f.maxLength.value)
    case _ => false
  }

  /** Under either reading of `$`: the length keywords of a uuid rule out the final newline. */
  lemma SchemaMeans(f: IrField, j: Instance, lenient: bool)
    requires IrFieldOk(f)
    ensures SchemaAccepts(PropertySchema(f), j, lenient) <==> Meant(f, j)
  {
  }

  lemma CueStringMeans(f: IrField, j: Instance)
    requires IrFieldOk(f) && f.scalar == StringType
    ensures CueAccepts(Constraint(f), j) <==> Meant(f, j) && !j.JsonFloat?
  {
    var ts := Constraint(f).terms;
    assert CueString in ts && HasNoNul in ts;
    assert f.minLength.Some? ==> MinRunes(f.minLength.value) in ts;
    assert f.maxLength.Some? ==> MaxRunes(f.maxLength.value) in ts;
  }

  lemma CueIntMeans(f: IrField, j: Instance)
    requires IrFieldOk(f) && f.scalar == Int32Type
    ensures CueAccepts(Constraint(f), j) <==> Meant(f, j) && !j.JsonFloat?
  {
    var terms := [CueInt, AtLeast(Or(f.minimum, INT_MIN)), AtMost(Or(f.maximum, INT_MAX))];
    assert Constraint(f).terms == terms;
    TermsOf(terms, j);
  }

  lemma CueMeans(f: IrField, j: Instance)
    requires IrFieldOk(f)
    ensures CueAccepts(Constraint(f), j) <==> Meant(f, j) && !j.JsonFloat?
  {
    match f.scalar
    case BooleanType => TermsOf([CueBool], j);
    case UuidType => TermsOf([CueString, IsUuid], j);
    case Int32Type => CueIntMeans(f, j);
    case StringType => CueStringMeans(f, j);
  }

  lemma TermsOf(ts: seq<CueTerm>, j: Instance)
    requires |ts| <= 3
    ensures (forall t | t in ts :: TermAccepts(t, j)) <==>
              && (|ts| > 0 ==> TermAccepts(ts[0], j))
              && (|ts| > 1 ==> TermAccepts(ts[1], j))
              && (|ts| > 2 ==> TermAccepts(ts[2], j))
  {
  }

  /** A uuid PostgreSQL reads although it is not in the hyphenated form. */
  predicate OtherSpelling(f: IrField, j: Instance) {
    f.scalar == UuidType && j.JsonString? && UuidRead(j.s).Some? && !UuidText(j.s)
  }

  /** A column can hold what the field means, and a uuid in any spelling. */
  predicate Holdable(f: IrField, j: Instance) { Meant(f, j) || OtherSpelling(f, j) }

  lemma SqlMeans(f: IrField, j: Instance, v: SqlValue)
    requires IrFieldOk(f) && ColumnAccepts(Declaration(f), v) && StandsFor(v, j)
    ensures Holdable(f, j)
  {
    EvalAllMeans(Declaration(f).checks, v);
    BoundsHold(f, v);
    BoundedIsHoldable(f, j, v);
  }

  /** What the checks say of a column value. */
  predicate WithinBounds(f: IrField, v: SqlValue) {
    && (f.minLength.Some? && v.SqlText? ==> |v.s| >= f.minLength.value)
    && (f.maxLength.Some? && v.SqlText? ==> |v.s| <= f.maxLength.value)
    && (f.minimum.Some? && v.SqlInt? ==> v.i >= f.minimum.value)
    && (f.maximum.Some? && v.SqlInt? ==> v.i <= f.maximum.value)
  }

  lemma BoundedIsHoldable(f: IrField, j: Instance, v: SqlValue)
    requires IrFieldOk(f) && HasType(v, f.scalar) && StandsFor(v, j) && (v.SqlNull? ==> f.nullable) && WithinBounds(f, v)
    ensures Holdable(f, j)
  {
  }

  predicate NoneFalse(ts: seq<CheckTerm>, v: SqlValue) { forall t | t in ts :: Eval(t, v) != False }

  lemma NoneFalsePlus(a: seq<CheckTerm>, b: seq<CheckTerm>, v: SqlValue)
    ensures NoneFalse(a + b, v) <==> NoneFalse(a, v) && NoneFalse(b, v)
  {
  }

  lemma LengthsHold(f: IrField, v: SqlValue)
    ensures NoneFalse(MinLengthCheck(f) + MaxLengthCheck(f), v) <==>
              && (f.minLength.Some? && v.SqlText? ==> |v.s| >= f.minLength.value)
              && (f.maxLength.Some? && v.SqlText? ==> |v.s| <= f.maxLength.value)
  {
    NoneFalsePlus(MinLengthCheck(f), MaxLengthCheck(f), v);
    assert f.minLength.Some? ==> LengthGe(f.minLength.value) in MinLengthCheck(f);
    assert f.maxLength.Some? ==> LengthLe(f.maxLength.value) in MaxLengthCheck(f);
  }

  lemma RangesHold(f: IrField, v: SqlValue)
    ensures NoneFalse(MinimumCheck(f) + MaximumCheck(f), v) <==>
              && (f.minimum.Some? && v.SqlInt? ==> v.i >= f.minimum.value)
              && (f.maximum.Some? && v.SqlInt? ==> v.i <= f.maximum.value)
  {
    NoneFalsePlus(MinimumCheck(f), MaximumCheck(f), v);
    assert f.minimum.Some? ==> ValueGe(f.minimum.value) in MinimumCheck(f);
    assert f.maximum.Some? ==> ValueLe(f.maximum.value) in MaximumCheck(f);
  }

  lemma BoundsHold(f: IrField, v: SqlValue)
    ensures NoneFalse(Declaration(f).checks, v) <==> WithinBounds(f, v)
  {
    NoneFalsePlus(MinLengthCheck(f) + MaxLengthCheck(f), MinimumCheck(f) + MaximumCheck(f), v);
    LengthsHold(f, v);
    RangesHold(f, v);
  }

  lemma StoredIsAccepted(f: IrField, j: Instance)
    requires IrFieldOk(f) && Holdable(f, j)
    ensures ColumnAccepts(Declaration(f), StoredAs(f.scalar, j)) && StandsFor(StoredAs(f.scalar, j), j)
  {
    HoldableOfScalar(f, j);
    TypeHolds(f.scalar, j);
    EvalAllMeans(Declaration(f).checks, StoredAs(f.scalar, j));
    BoundsHold(f, StoredAs(f.scalar, j));
    HoldableIsBounded(f, j);
  }

  lemma HoldableIsBounded(f: IrField, j: Instance)
    requires IrFieldOk(f) && Holdable(f, j)
    ensures WithinBounds(f, StoredAs(f.scalar, j))
  {
  }

  lemma HoldableOfScalar(f: IrField, j: Instance)
    requires IrFieldOk(f) && Holdable(f, j)
    ensures if j.JsonNull? then f.nullable else OfScalar(f.scalar, j)
  {
    if j.JsonString? && UuidText(j.s) {
      UuidTextIsRead(j.s);
    }
  }

  /** Some value the column accepts stands for the instance. */
  ghost predicate Held(f: IrField, j: Instance) {
    exists v :: ColumnAccepts(Declaration(f), v) && StandsFor(v, j)
  }

  /**
   * JSON Schema and SQL accept the same values of a field, SQL through the value the column holds
   * for it and except for uuids in other spellings, which only the column reads. CUE accepts the
   * values of the schema except an integer written with a fraction or an exponent.
   */
  lemma BackendsAgree(f: IrField, j: Instance, lenient: bool)
    requires IrFieldOk(f)
    ensures SchemaAccepts(PropertySchema(f), j, lenient) <==> Held(f, j) && !OtherSpelling(f, j)
    ensures OtherSpelling(f, j) ==> Held(f, j)
    ensures CueAccepts(Constraint(f), j) <==> SchemaAccepts(PropertySchema(f), j, lenient) && !j.JsonFloat?
  {
    SchemaMeans(f, j, lenient);
    CueMeans(f, j);
    if Holdable(f, j) {
      StoredIsAccepted(f, j);
    }
    if v :| ColumnAccepts(Declaration(f), v) && StandsFor(v, j) {
      SqlMeans(f, j, v);
    }
  }

  /** `1.0` is an integer for JSON Schema and for the column, and not for CUE. */
  lemma FloatLiteralSplits(f: IrField, lenient: bool)
    requires IrFieldOk(f) && f.scalar == Int32Type && Or(f.minimum, INT_MIN) <= 1 <= Or(f.maximum, INT_MAX)
    ensures SchemaAccepts(PropertySchema(f), JsonFloat(1.0), lenient) && !CueAccepts(Constraint(f), JsonFloat(1.0))
    ensures ColumnAccepts(Declaration(f), SqlInt(1)) && StandsFor(SqlInt(1), JsonFloat(1.0))
  {
    SchemaMeans(f, JsonFloat(1.0), lenient);
    CueMeans(f, JsonFloat(1.0));
    StoredIsAccepted(f, JsonFloat(1.0));
  }

  // ----- agreement, object by object -----

  /** The keywords of an emitted entity schema. */
  datatype Keyword =
    | TypeObject
    | AdditionalProperties(allowed: bool)
    | Properties(ps: seq<Property>)
    | Required(names: seq<string>)
  datatype Property = Property(name: string, schema: Schema)

  function PropertyOf(f: IrField): Property { Property(f.name, PropertySchema(f)) }

  function RequiredNames(fields: seq<IrField>): seq<string> {
    if fields == [] then []
    else RequiredNames(fields[..|fields| - 1]) + if fields[|fields| - 1].required then [fields[|fields| - 1].name] else []
  }

  function EntitySchema(fields: seq<IrField>): seq<Keyword> {
    [TypeObject, AdditionalProperties(false), Properties(Map(PropertyOf, fields)), Required(RequiredNames(fields))]
  }

  predicate Described(ks: seq<Keyword>, name: string) {
    exists k, p | k in ks && k.Properties? && p in k.ps :: p.name == name
  }

  predicate EachAccepted(ps: seq<Property>, members: map<string, Instance>, lenient: bool) {
    forall p | p in ps && p.name in members :: SchemaAccepts(p.schema, members[p.name], lenient)
  }

  /** What one keyword among others says of an instance; but for `type` they are about objects only. */
  predicate KeywordAccepts(ks: seq<Keyword>, k: Keyword, j: Instance, lenient: bool) {
    match k
    case TypeObject => j.JsonObject?
    case AdditionalProperties(allowed) => j.JsonObject? && !allowed ==> forall n | n in j.members :: Described(ks, n)
    case Properties(ps) => j.JsonObject? ==> EachAccepted(ps, j.members, lenient)
    case Required(names) => j.JsonObject? ==> forall n | n in names :: n in j.members
  }

  predicate ObjectAccepts(ks: seq<Keyword>, j: Instance, lenient: bool) {
    forall k | k in ks :: KeywordAccepts(ks, k, j, lenient)
  }

  /** The objects of an entity: no unknown members, no required field absent, every value meant. */
  predicate ObjectMeant(fields: seq<IrField>, j: Instance) {
    && j.JsonObject?
    && (forall k | k in j.members :: exists f | f in fields :: f.name == k)
    && (forall f | f in fields && f.required :: f.name in j.members)
    && (forall f | f in fields && f.name in j.members :: Meant(f, j.members[f.name]))
  }

  lemma {:induction false} RequiredMeans(fields: seq<IrField>, n: string)
    ensures n in RequiredNames(fields) <==> exists f | f in fields :: f.required && f.name == n
  {
    if fields != [] {
      var (rest, last) := (fields[..|fields| - 1], fields[|fields| - 1]);
      RequiredMeans(rest, n);
      assert fields == rest + [last];
    }
  }

  lemma RequiredThere(fields: seq<IrField>, members: map<string, Instance>)
    ensures (forall n | n in RequiredNames(fields) :: n in members) <==> forall f | f in fields && f.required :: f.name in members
  {
    forall f | f in fields && f.required ensures f.name in RequiredNames(fields) {
      RequiredMeans(fields, f.name);
    }
    forall n | n in RequiredNames(fields) ensures exists f | f in fields :: f.required && f.name == n {
      RequiredMeans(fields, n);
    }
  }

  lemma DescribedMeans(fields: seq<IrField>, n: string)
    ensures Described(EntitySchema(fields), n) <==> exists f | f in fields :: f.name == n
  {
    var (ks, ps) := (EntitySchema(fields), Map(PropertyOf, fields));
    assert ks[2] in ks && ks[2].ps == ps;
    if f :| f in fields && f.name == n {
      MapIn(PropertyOf, fields, f);
    }
    if k, p :| k in ks && k.Properties? && p in k.ps && p.name == n {
      var f := MapInInverse(PropertyOf, fields, p);
    }
  }

  lemma EachMeans(fields: seq<IrField>, members: map<string, Instance>, lenient: bool)
    requires forall f | f in fields :: IrFieldOk(f)
    ensures EachAccepted(Map(PropertyOf, fields), members, lenient) <==>
              forall f | f in fields && f.name in members :: Meant(f, members[f.name])
  {
    forall f | f in fields && f.name in members
      ensures PropertyOf(f) in Map(PropertyOf, fields)
      ensures SchemaAccepts(PropertySchema(f), members[f.name], lenient) <==> Meant(f, members[f.name])
    {
      MapIn(PropertyOf, fields, f);
      SchemaMeans(f, members[f.name], lenient);
    }
    forall p | p in Map(PropertyOf, fields) ensures exists f | f in fields :: p == PropertyOf(f) {
      var f := MapInInverse(PropertyOf, fields, p);
    }
  }

  lemma FourKeywords(ks: seq<Keyword>, a: Keyword, b: Keyword, c: Keyword, d: Keyword, j: Instance, lenient: bool)
    requires ks == [a, b, c, d]
    ensures ObjectAccepts(ks, j, lenient) <==>
              && KeywordAccepts(ks, a, j, lenient) && KeywordAccepts(ks, b, j, lenient)
              && KeywordAccepts(ks, c, j, lenient) && KeywordAccepts(ks, d, j, lenient)
  {
    assert ks[0] == a && ks[1] == b && ks[2] == c && ks[3] == d;
  }

  /** The emitted entity schema accepts exactly the objects of the entity. */
  lemma EntitySchemaMeans(fields: seq<IrField>, j: Instance, lenient: bool)
    requires forall f | f in fields :: IrFieldOk(f)
    ensures ObjectAccepts(EntitySchema(fields), j, lenient) <==> ObjectMeant(fields, j)
  {
    FourKeywords(EntitySchema(fields), TypeObject, AdditionalProperties(false), Properties(Map(PropertyOf, fields)),
                 Required(RequiredNames(fields)), j, lenient);
    if j.JsonObject? {
      EachMeans(fields, j.members, lenient);
      RequiredThere(fields, j.members);
      forall n | n in j.members ensures Described(EntitySchema(fields), n) <==> exists f | f in fields :: f.name == n {
        DescribedMeans(fields, n);
      }
    }
  }

  datatype CueMember = CueMember(key: string, mandatory: bool, constraint: Cue)

  function MemberOf(f: IrField): CueMember { CueMember(f.name, f.required, Constraint(f)) }

  /** A closed definition: `"key"!: c` must be there, `"key"?: c` may be, and nothing else. */
  predicate DefinitionAccepts(ms: seq<CueMember>, j: Instance) {
    && j.JsonObject?
    && (forall k | k in j.members :: exists m | m in ms :: m.key == k)
    && (forall m | m in ms :: m.key in j.members || !m.mandatory)
    && (forall m | m in ms && m.key in j.members :: CueAccepts(m.constraint, j.members[m.key]))
  }

  /** The member of a field and the value of its column. */
  predicate CellStandsFor(f: IrField, v: SqlValue, j: Instance)
    requires j.JsonObject?
  {
    f.name in j.members && ColumnAccepts(Declaration(f), v) && StandsFor(v, j.members[f.name])
  }

  /** One value per field, in field order. */
  ghost predicate RowStandsFor(fields: seq<IrField>, row: seq<SqlValue>, j: Instance) {
    j.JsonObject? && |row| == |fields| && forall i | 0 <= i < |fields| :: CellStandsFor(fields[i], row[i], j)
  }

  lemma MembersOf(fields: seq<IrField>)
    ensures forall f | f in fields :: MemberOf(f) in Map(MemberOf, fields)
    ensures forall m | m in Map(MemberOf, fields) :: exists f | f in fields :: m == MemberOf(f)
  {
    forall f | f in fields ensures MemberOf(f) in Map(MemberOf, fields) {
      MapIn(MemberOf, fields, f);
    }
    forall m | m in Map(MemberOf, fields) ensures exists f | f in fields :: m == MemberOf(f) {
      var f := MapInInverse(MemberOf, fields, m);
    }
  }

  lemma SameKeys(fields: seq<IrField>, k: string)
    ensures (exists f | f in fields :: f.name == k) <==> exists m | m in Map(MemberOf, fields) :: m.key == k
  {
    MembersOf(fields);
    if f :| f in fields && f.name == k {
      assert MemberOf(f) in Map(MemberOf, fields) && MemberOf(f).key == k;
    }
  }

  /** Every number is written as an integer. */
  predicate IntegralLiterals(j: Instance) {
    j.JsonObject? && forall k | k in j.members :: !j.members[k].JsonFloat?
  }

  /**
   * Presence and values: the CUE definition of an entity accepts the objects the JSON Schema
   * accepts, as long as their numbers are written as integers, and no others.
   */
  lemma ObjectsAgree(fields: seq<IrField>, j: Instance, lenient: bool)
    requires forall f | f in fields :: IrFieldOk(f)
    ensures DefinitionAccepts(Map(MemberOf, fields), j) <==>
              ObjectAccepts(EntitySchema(fields), j, lenient) && IntegralLiterals(j)
  {
    EntitySchemaMeans(fields, j, lenient);
    DefinitionMeans(fields, j);
  }

  /** The definition accepts exactly the objects of the entity whose numbers are written as integers. */
  lemma DefinitionMeans(fields: seq<IrField>, j: Instance)
    requires forall f | f in fields :: IrFieldOk(f)
    ensures DefinitionAccepts(Map(MemberOf, fields), j) <==> ObjectMeant(fields, j) && IntegralLiterals(j)
  {
    if j.JsonObject? {
      MembersOf(fields);
      forall k | k in j.members
        ensures (exists f | f in fields :: f.name == k) <==> exists m | m in Map(MemberOf, fields) :: m.key == k
      {
        SameKeys(fields, k);
      }
      forall f | f in fields && f.name in j.members
        ensures CueAccepts(Constraint(f), j.members[f.name]) <==> Meant(f, j.members[f.name]) && !j.members[f.name].JsonFloat?
      {
        CueMeans(f, j.members[f.name]);
      }
    }
  }

  /** The row an accepted object is stored as. */
  lemma RowOf(fields: seq<IrField>, j: Instance) returns (row: seq<SqlValue>)
    requires (forall f | f in fields :: IrFieldOk(f)) && j.JsonObject?
    requires forall f | f in fields :: f.name in j.members && Holdable(f, j.members[f.name])
    ensures RowStandsFor(fields, row, j)
  {
    row := seq(|fields|, i requires 0 <= i < |fields| && fields[i].name in j.members => StoredAs(fields[i].scalar, j.members[fields[i].name]));
    forall i | 0 <= i < |fields| ensures CellStandsFor(fields[i], row[i], j) {
      assert fields[i] in fields;
      StoredIsAccepted(fields[i], j.members[fields[i].name]);
    }
  }

  lemma RowIsValid(fields: seq<IrField>, row: seq<SqlValue>, j: Instance, f: IrField)
    requires (forall f | f in fields :: IrFieldOk(f)) && RowStandsFor(fields, row, j) && f in fields
    ensures f.name in j.members && Holdable(f, j.members[f.name])
  {
    var i :| 0 <= i < |fields| && fields[i] == f;
    SqlMeans(f, j.members[f.name], row[i]);
  }

  ghost predicate EveryFieldPresent(fields: seq<IrField>, j: Instance) {
    j.JsonObject? && j.members.Keys == ToSet(Map(NameOfIrField, fields))
  }

  lemma PresentMeans(fields: seq<IrField>, j: Instance)
    requires EveryFieldPresent(fields, j)
    ensures forall f | f in fields :: f.name in j.members
    ensures ObjectMeant(fields, j) <==> forall f | f in fields :: Meant(f, j.members[f.name])
  {
    forall f | f in fields ensures f.name in j.members {
      MapIn(NameOfIrField, fields, f);
    }
    forall k | k in j.members ensures exists f | f in fields :: f.name == k {
      var f := MapInInverse(NameOfIrField, fields, k);
    }
  }

  /** No uuid is in a spelling only the column reads. */
  predicate HyphenatedUuids(fields: seq<IrField>, j: Instance) {
    j.JsonObject? && forall f | f in fields && f.name in j.members :: !OtherSpelling(f, j.members[f.name])
  }

  lemma RowExists(fields: seq<IrField>, j: Instance)
    requires (forall f | f in fields :: IrFieldOk(f)) && EveryFieldPresent(fields, j)
    ensures forall f | f in fields :: f.name in j.members
    ensures (exists row :: RowStandsFor(fields, row, j)) <==> forall f | f in fields :: Holdable(f, j.members[f.name])
  {
    PresentMeans(fields, j);
    if forall f | f in fields :: Holdable(f, j.members[f.name]) {
      var row := RowOf(fields, j);
    }
    if row :| RowStandsFor(fields, row, j) {
      forall f | f in fields ensures Holdable(f, j.members[f.name]) {
        RowIsValid(fields, row, j, f);
      }
    }
  }

  /** With every field present, an object is valid exactly when some row of accepted values stands for it and its uuids are hyphenated. */
  lemma RowsAgree(fields: seq<IrField>, j: Instance, lenient: bool)
    requires (forall f | f in fields :: IrFieldOk(f)) && EveryFieldPresent(fields, j)
    ensures ObjectAccepts(EntitySchema(fields), j, lenient) <==>
              (exists row :: RowStandsFor(fields, row, j)) && HyphenatedUuids(fields, j)
  {
    EntitySchemaMeans(fields, j, lenient);
    PresentMeans(fields, j);
    RowExists(fields, j);
    forall f | f in fields ensures Meant(f, j.members[f.name]) <==> Holdable(f, j.members[f.name]) && !OtherSpelling(f, j.members[f.name]) {
      MeantIsHyphenated(f, j.members[f.name]);
    }
  }

  lemma MeantIsHyphenated(f: IrField, j: Instance)
    ensures Meant(f, j) ==> !OtherSpelling(f, j)
  {
  }
}
