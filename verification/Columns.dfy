/** What the emitted property schema and the emitted column of one field accept, and where they differ. */
module Columns {
  import opened Seqs
  import opened Strings
  import opened Numbers
  import opened Document
  import opened Values
  import opened Emit
  import opened Json

  // ----- JSON Schema keywords, read from the printed tree -----

  predicate TypeIs(name: string, j: Instance) {
    if name == "null" then j.JsonNull?
    else if name == "boolean" then j.JsonBool?
    else if name == "integer" then IsWhole(j)
    else name == "string" && j.JsonString?
  }

  /** One name, or a list of names. */
  predicate TypeAllows(value: Node, j: Instance) {
    match value
    case StrNode(name) => TypeIs(name, j)
    case ArrNode(items) => exists n | n in items :: n.StrNode? && TypeIs(n.s, j)
    case _ => false
  }

  /** The one pattern the compiler writes: lower-case digits only, and nothing after them, not even a final newline. */
  predicate PatternMatches(value: Node, s: string) {
    value == StrNode(UUID_PATTERN) && CanonicalUuid(s)
  }

  /** A keyword constrains only the values it is about; `format` is an annotation. */
  predicate KeywordAccepts(m: Member, j: Instance) {
    if m.key == "type" then TypeAllows(m.value, j)
    else if m.key == "minimum" then m.value.NumNode? && (IsNumber(j) ==> NumberOf(j) >= m.value.n as real)
    else if m.key == "maximum" then m.value.NumNode? && (IsNumber(j) ==> NumberOf(j) <= m.value.n as real)
    else if m.key == "minLength" then m.value.NumNode? && (j.JsonString? ==> |j.s| >= m.value.n)
    else if m.key == "maxLength" then m.value.NumNode? && (j.JsonString? ==> |j.s| <= m.value.n)
    else if m.key == "pattern" then j.JsonString? ==> PatternMatches(m.value, j.s)
    else true
  }

  predicate Accepts(schema: seq<Member>, j: Instance) {
    forall m | m in schema :: KeywordAccepts(m, j)
  }

  // ----- what the property schema means -----

  predicate LengthWithin(f: Field, s: string) {
    (f.minLength.Some? ==> |s| >= f.minLength.value) && (f.maxLength.Some? ==> |s| <= f.maxLength.value)
  }

  /** The JSON values of a field as its schema has them. */
  predicate Meant(f: Field, j: Instance) {
    match j
    case JsonNull => f.nullable
    case JsonString(s) =>
      && (f.scalar == StringType || (f.scalar == UuidType && CanonicalUuid(s)))
      && LengthWithin(f, s)
    case _ => OfScalar(f.scalar, j)
  }

  lemma AcceptsPlus(a: seq<Member>, b: seq<Member>, j: Instance)
    ensures Accepts(a + b, j) <==> Accepts(a, j) && Accepts(b, j)
  {
  }

  lemma TypeMeans(f: Field, j: Instance)
    ensures Accepts(TypeMember(f), j) <==>
              (j.JsonNull? && f.nullable) || TypeIs(TypeName(f.scalar), j)
  {
    var name := StrNode(TypeName(f.scalar));
    assert TypeMember(f)[0] in TypeMember(f);
    if f.nullable {
      assert [name, StrNode("null")][0] == name && [name, StrNode("null")][1] == StrNode("null");
    }
  }

  lemma RangeMeans(f: Field, j: Instance)
    ensures Accepts(RangeMembers(f), j) <==>
              (f.scalar == Int32Type && IsNumber(j) ==> INT_MIN as real <= NumberOf(j) <= INT_MAX as real)
  {
    if f.scalar == Int32Type {
      assert RangeMembers(f)[0] in RangeMembers(f) && RangeMembers(f)[1] in RangeMembers(f);
    }
  }

  lemma PatternMeans(f: Field, j: Instance)
    ensures Accepts(PatternMembers(f), j) <==> (f.scalar == UuidType && j.JsonString? ==> CanonicalUuid(j.s))
  {
    if f.scalar == UuidType {
      assert PatternMembers(f)[0] in PatternMembers(f) && PatternMembers(f)[1] in PatternMembers(f);
    }
  }

  lemma LengthMeans(f: Field, j: Instance)
    ensures Accepts(LengthMember("minLength", f.minLength) + LengthMember("maxLength", f.maxLength), j) <==>
              (j.JsonString? ==> LengthWithin(f, j.s))
  {
    AcceptsPlus(LengthMember("minLength", f.minLength), LengthMember("maxLength", f.maxLength), j);
    if f.minLength.Some? {
      assert LengthMember("minLength", f.minLength)[0] in LengthMember("minLength", f.minLength);
    }
    if f.maxLength.Some? {
      assert LengthMember("maxLength", f.maxLength)[0] in LengthMember("maxLength", f.maxLength);
    }
  }

  /** The emitted keywords accept exactly the values meant. */
  lemma PropertySchemaMeans(f: Field, j: Instance)
    ensures Accepts(PropertySchema(f), j) <==> Meant(f, j)
  {
    var lengths := LengthMember("minLength", f.minLength) + LengthMember("maxLength", f.maxLength);
    assert PropertySchema(f) == TypeMember(f) + RangeMembers(f) + PatternMembers(f) + lengths;
    AcceptsPlus(TypeMember(f) + RangeMembers(f) + PatternMembers(f), lengths, j);
    AcceptsPlus(TypeMember(f) + RangeMembers(f), PatternMembers(f), j);
    AcceptsPlus(TypeMember(f), RangeMembers(f), j);
    TypeMeans(f, j);
    RangeMeans(f, j);
    PatternMeans(f, j);
    LengthMeans(f, j);
  }

  // ----- what the column means -----

  /** Comparing the length of NULL is unknown. */
  function Eval(c: Check, v: SqlValue): Truth {
    if !v.SqlText? then Unknown
    else match c
      case LengthAtLeast(_, bound) => Known(|v.s| >= bound)
      case LengthAtMost(_, bound) => Known(|v.s| <= bound)
  }

  /** Each CHECK rejects a row only when it is false. */
  predicate ColumnAccepts(c: ColumnDef, v: SqlValue) {
    && HasType(v, c.scalar)
    && (v.SqlNull? ==> !c.notNull)
    && (forall k | k in c.checks :: Eval(k, v) != False)
  }

  /** Some value the column accepts stands for the instance. */
  ghost predicate Storable(c: Column, f: Field, j: Instance) {
    exists v :: ColumnAccepts(ColumnDefOf(c, f), v) && StandsFor(v, j)
  }

  lemma ChecksMean(column: string, f: Field, v: SqlValue)
    ensures (forall k | k in Checks(column, f) :: Eval(k, v) != False) <==> (v.SqlText? ==> LengthWithin(f, v.s))
  {
    if f.minLength.Some? {
      assert LengthAtLeast(column, f.minLength.value) in Checks(column, f);
    }
    if f.maxLength.Some? {
      assert LengthAtMost(column, f.maxLength.value) in Checks(column, f);
    }
  }

  lemma ColumnMeans(c: Column, f: Field, j: Instance)
    requires FieldOk(f)
    ensures Storable(c, f, j) <==>
              (j.JsonNull? && f.nullable) || (OfScalar(f.scalar, j) && (f.scalar == StringType ==> LengthWithin(f, j.s)))
  {
    TypeHolds(f.scalar, j);
    ChecksMean(c.name, f, StoredAs(f.scalar, j));
    if v :| ColumnAccepts(ColumnDefOf(c, f), v) && StandsFor(v, j) {
      OneValue(f.scalar, v, j);
    }
    if (j.JsonNull? && f.nullable) || (OfScalar(f.scalar, j) && (f.scalar == StringType ==> LengthWithin(f, j.s))) {
      assert ColumnAccepts(ColumnDefOf(c, f), StoredAs(f.scalar, j));
    }
  }

  // ----- where schema and column differ -----

  /** A text of the right length that PostgreSQL cannot hold. */
  predicate HoldsNul(f: Field, j: Instance) {
    f.scalar == StringType && j.JsonString? && !NulFree(j.s) && LengthWithin(f, j.s)
  }

  /** A uuid PostgreSQL reads and the pattern rejects: upper-case digits, other hyphens, braces. */
  predicate OtherSpelling(f: Field, j: Instance) {
    f.scalar == UuidType && j.JsonString? && UuidRead(j.s).Some? && !CanonicalUuid(j.s)
  }

  /** The schema accepts what the column can hold, plus texts with a NUL, less uuids in another spelling. */
  lemma SchemaAgainstColumn(c: Column, f: Field, j: Instance)
    requires FieldOk(f)
    ensures Accepts(PropertySchema(f), j) <==> (Storable(c, f, j) && !OtherSpelling(f, j)) || HoldsNul(f, j)
    ensures HoldsNul(f, j) ==> !Storable(c, f, j)
    ensures OtherSpelling(f, j) ==> Storable(c, f, j)
  {
    PropertySchemaMeans(f, j);
    ColumnMeans(c, f, j);
    if j.JsonString? && CanonicalUuid(j.s) {
      CanonicalIsText(j.s);
      UuidTextIsRead(j.s);
    }
  }

  /** So the two agree on an instance exactly when it is neither. */
  lemma SchemaAgreesIff(c: Column, f: Field, j: Instance)
    requires FieldOk(f)
    ensures (Accepts(PropertySchema(f), j) <==> Storable(c, f, j)) <==> !HoldsNul(f, j) && !OtherSpelling(f, j)
  {
    SchemaAgainstColumn(c, f, j);
  }

  /** A one-character text: accepted by the schema, and no column value stands for it. */
  lemma NulSplits(c: Column, f: Field)
    requires f == Field("note", StringType, true, false, None, None)
    ensures Accepts(PropertySchema(f), JsonString("\0")) && !Storable(c, f, JsonString("\0"))
  {
    assert '\0' in "\0";
    SchemaAgainstColumn(c, f, JsonString("\0"));
  }

  // ----- whole objects -----

  /** The value of a keyword, if it is there. */
  function Keyword(ms: seq<Member>, key: string): Option<Node> {
    if ms == [] then None
    else if ms[0].key == key then Some(ms[0].value)
    else Keyword(ms[1..], key)
  }

  function PropertiesOf(schema: seq<Member>): seq<Member> {
    match Keyword(schema, "properties")
    case Some(ObjNode(ps)) => ps
    case _ => []
  }

  predicate KnownOnly(ps: seq<Member>, members: map<string, Instance>) {
    forall k | k in members :: exists p | p in ps :: p.key == k
  }

  predicate EachAccepted(ps: seq<Member>, members: map<string, Instance>) {
    forall p | p in ps && p.key in members :: p.value.ObjNode? && Accepts(p.value.members, members[p.key])
  }

  predicate NamesThere(names: seq<Node>, members: map<string, Instance>) {
    forall n | n in names :: n.StrNode? && n.s in members
  }

  /** `type: object`, `additionalProperties: false`, `properties` and `required`. */
  predicate ObjectAccepts(schema: seq<Member>, j: Instance) {
    && (Keyword(schema, "type") == Some(StrNode("object")) ==> j.JsonObject?)
    && (j.JsonObject? ==>
          && (Keyword(schema, "additionalProperties") == Some(BoolNode(false)) ==> KnownOnly(PropertiesOf(schema), j.members))
          && EachAccepted(PropertiesOf(schema), j.members)
          && (match Keyword(schema, "required") case Some(ArrNode(names)) => NamesThere(names, j.members) case _ => true))
  }

  function DefinitionOf(m: Model): seq<Member> {
    var fields := SortBy(NameOfField, m.fields);
    [Member("type", StrNode("object")), Member("additionalProperties", BoolNode(false)),
     Member("properties", ObjNode(Map(PropertyMember, fields))), Member("required", ArrNode(RequiredNames(fields)))]
  }

  lemma DefinitionKeywords(m: Model)
    ensures Definition(m) == Member(m.name, ObjNode(DefinitionOf(m)))
    ensures Keyword(DefinitionOf(m), "type") == Some(StrNode("object"))
    ensures Keyword(DefinitionOf(m), "additionalProperties") == Some(BoolNode(false))
    ensures PropertiesOf(DefinitionOf(m)) == Map(PropertyMember, SortBy(NameOfField, m.fields))
    ensures Keyword(DefinitionOf(m), "required") == Some(ArrNode(RequiredNames(SortBy(NameOfField, m.fields))))
  {
    var fields := SortBy(NameOfField, m.fields);
    FourKeywords(StrNode("object"), BoolNode(false), ObjNode(Map(PropertyMember, fields)), ArrNode(RequiredNames(fields)));
  }

  lemma KeywordSkips(m: Member, rest: seq<Member>, key: string)
    ensures Keyword([m] + rest, key) == if m.key == key then Some(m.value) else Keyword(rest, key)
  {
    assert ([m] + rest)[1..] == rest;
  }

  lemma FourKeywords(a: Node, b: Node, c: Node, d: Node)
    ensures var ms := [Member("type", a), Member("additionalProperties", b), Member("properties", c), Member("required", d)];
            && Keyword(ms, "type") == Some(a) && Keyword(ms, "additionalProperties") == Some(b)
            && Keyword(ms, "properties") == Some(c) && Keyword(ms, "required") == Some(d)
  {
    var (p, q, r, s) := (Member("type", a), Member("additionalProperties", b), Member("properties", c), Member("required", d));
    KeywordAmong(p, q, r, s, "type");
    KeywordAmong(p, q, r, s, "additionalProperties");
    KeywordAmong(p, q, r, s, "properties");
    KeywordAmong(p, q, r, s, "required");
  }

  lemma KeywordAmong(p: Member, q: Member, r: Member, s: Member, key: string)
    ensures Keyword([p, q, r, s], key) ==
              if p.key == key then Some(p.value) else if q.key == key then Some(q.value)
              else if r.key == key then Some(r.value) else if s.key == key then Some(s.value) else None
  {
    assert [p, q, r, s] == [p] + [q, r, s] && [q, r, s] == [q] + [r, s] && [r, s] == [r] + [s] && [s] == [s] + [];
    KeywordSkips(p, [q, r, s], key);
    KeywordSkips(q, [r, s], key);
    KeywordSkips(r, [s], key);
    KeywordSkips(s, [], key);
  }

  lemma {:induction false} RequiredMeans(fields: seq<Field>, n: Node)
    ensures n in RequiredNames(fields) <==> exists f | f in fields :: f.required && n == StrNode(f.name)
  {
    if fields != [] {
      RequiredMeans(fields[1..], n);
      assert fields == [fields[0]] + fields[1..];
    }
  }

  /** Every field is meant, and nothing else is there. */
  predicate ObjectMeant(fields: seq<Field>, j: Instance) {
    && j.JsonObject?
    && (forall k | k in j.members :: exists f | f in fields :: f.name == k)
    && (forall f | f in fields && f.required :: f.name in j.members)
    && (forall f | f in fields && f.name in j.members :: Meant(f, j.members[f.name]))
  }

  lemma PropertiesMean(fields: seq<Field>, members: map<string, Instance>)
    ensures EachAccepted(Map(PropertyMember, fields), members) <==>
              forall f | f in fields && f.name in members :: Meant(f, members[f.name])
  {
    forall f | f in fields && f.name in members
      ensures PropertyMember(f) in Map(PropertyMember, fields)
      ensures Accepts(PropertySchema(f), members[f.name]) <==> Meant(f, members[f.name])
    {
      MapIn(PropertyMember, fields, f);
      PropertySchemaMeans(f, members[f.name]);
    }
    forall p | p in Map(PropertyMember, fields) ensures exists f | f in fields :: p == PropertyMember(f) {
      var f := MapInInverse(PropertyMember, fields, p);
    }
  }

  lemma PropertyNames(fields: seq<Field>, k: string)
    ensures (exists p | p in Map(PropertyMember, fields) :: p.key == k) <==> exists f | f in fields :: f.name == k
  {
    if f :| f in fields && f.name == k {
      MapIn(PropertyMember, fields, f);
    }
    if p :| p in Map(PropertyMember, fields) && p.key == k {
      var f := MapInInverse(PropertyMember, fields, p);
    }
  }

  lemma KnownNames(fields: seq<Field>, members: map<string, Instance>)
    ensures KnownOnly(Map(PropertyMember, fields), members) <==> forall k | k in members :: exists f | f in fields :: f.name == k
  {
    forall k | k in members
      ensures (exists p | p in Map(PropertyMember, fields) :: p.key == k) <==> exists f | f in fields :: f.name == k
    {
      PropertyNames(fields, k);
    }
  }

  lemma RequiredNamesMean(fields: seq<Field>, members: map<string, Instance>)
    ensures NamesThere(RequiredNames(fields), members) <==>
              forall f | f in fields && f.required :: f.name in members
  {
    forall f | f in fields && f.required ensures StrNode(f.name) in RequiredNames(fields) {
      RequiredMeans(fields, StrNode(f.name));
    }
    forall n | n in RequiredNames(fields) ensures exists f | f in fields :: f.required && n == StrNode(f.name) {
      RequiredMeans(fields, n);
    }
  }

  lemma SortedMeans(fields: seq<Field>, j: Instance)
    ensures ObjectMeant(SortBy(NameOfField, fields), j) <==> ObjectMeant(fields, j)
  {
    SortByCorrect(NameOfField, fields);
    PermMembers(fields, SortBy(NameOfField, fields));
  }

  /** The definition emitted for a model accepts exactly the objects meant. */
  lemma DefinitionMeans(m: Model, j: Instance)
    ensures Definition(m).value.ObjNode?
    ensures ObjectAccepts(Definition(m).value.members, j) <==> ObjectMeant(m.fields, j)
  {
    var fields := SortBy(NameOfField, m.fields);
    DefinitionKeywords(m);
    SortedMeans(m.fields, j);
    if j.JsonObject? {
      PropertiesMean(fields, j.members);
      RequiredNamesMean(fields, j.members);
      KnownNames(fields, j.members);
    }
  }

  // ----- whole rows of a stored model -----

  /** Every column has a value that stands for the member it stores, and there are no other members. */
  ghost predicate RowExists(m: Model, s: Storage, j: Instance) {
    && j.JsonObject? && j.members.Keys == ToSet(FieldNames(m))
    && forall c | c in s.columns :: c.field in j.members && c.field in FieldMap(m) && Storable(c, FieldMap(m)[c.field], j.members[c.field])
  }

  predicate NoNul(m: Model, j: Instance) {
    j.JsonObject? && forall f | f in m.fields && f.name in j.members :: !HoldsNul(f, j.members[f.name])
  }

  predicate CanonicalUuids(m: Model, j: Instance) {
    j.JsonObject? && forall f | f in m.fields && f.name in j.members :: !OtherSpelling(f, j.members[f.name])
  }

  lemma FieldIsMapped(m: Model, s: Storage, f: Field)
    requires NoDup(FieldNames(m)) && MappingOk(m, s) && f in m.fields
    ensures f.name in FieldMap(m) && FieldMap(m)[f.name] == f
    ensures exists c | c in s.columns :: c.field == f.name
  {
    IndexByFinds(NameOfField, m.fields, f);
    IndexByKeys(FieldOfColumn, s.columns);
    assert f.name in ColumnMap(s);
  }

  lemma ColumnIsMapped(m: Model, s: Storage, c: Column)
    requires NoDup(FieldNames(m)) && MappingOk(m, s) && c in s.columns
    ensures c.field in FieldMap(m) && FieldMap(m)[c.field] in m.fields && FieldMap(m)[c.field].name == c.field
  {
    IndexByFinds(FieldOfColumn, s.columns, c);
    IndexByKeys(NameOfField, m.fields);
    assert c.field in ColumnMap(s);
  }

  lemma AllMembersThere(m: Model, j: Instance)
    requires (forall f | f in m.fields :: f.required) && j.JsonObject?
    ensures ObjectMeant(m.fields, j) <==>
              j.members.Keys == ToSet(FieldNames(m)) && forall f | f in m.fields && f.name in j.members :: Meant(f, j.members[f.name])
  {
    forall f | f in m.fields ensures f.name in FieldNames(m) {
      MapIn(NameOfField, m.fields, f);
    }
    forall k | k in FieldNames(m) ensures exists f | f in m.fields :: f.name == k {
      var f := MapInInverse(NameOfField, m.fields, k);
    }
  }

  lemma MeantIsStorable(m: Model, s: Storage, j: Instance)
    requires NoDup(FieldNames(m)) && MappingOk(m, s) && (forall f | f in m.fields :: FieldOk(f))
    requires ObjectMeant(m.fields, j) && NoNul(m, j)
    ensures RowExists(m, s, j) && CanonicalUuids(m, j)
  {
    AllMembersThere(m, j);
    forall c | c in s.columns
      ensures c.field in j.members && c.field in FieldMap(m) && Storable(c, FieldMap(m)[c.field], j.members[c.field])
    {
      ColumnIsMapped(m, s, c);
      PropertySchemaMeans(FieldMap(m)[c.field], j.members[c.field]);
      SchemaAgainstColumn(c, FieldMap(m)[c.field], j.members[c.field]);
    }
    forall f | f in m.fields && f.name in j.members ensures !OtherSpelling(f, j.members[f.name]) {
      PropertySchemaMeans(f, j.members[f.name]);
      SchemaAgainstColumn(Column(f.name, f.name), f, j.members[f.name]);
    }
  }

  lemma StorableIsMeant(m: Model, s: Storage, j: Instance)
    requires NoDup(FieldNames(m)) && MappingOk(m, s) && (forall f | f in m.fields :: FieldOk(f))
    requires RowExists(m, s, j) && CanonicalUuids(m, j)
    ensures ObjectMeant(m.fields, j) && NoNul(m, j)
  {
    AllMembersThere(m, j);
    forall f | f in m.fields && f.name in j.members ensures Meant(f, j.members[f.name]) && !HoldsNul(f, j.members[f.name]) {
      FieldIsMapped(m, s, f);
      var c :| c in s.columns && c.field == f.name;
      PropertySchemaMeans(f, j.members[f.name]);
      SchemaAgainstColumn(c, f, j.members[f.name]);
    }
  }

  /**
   * For a stored model: the objects the schema accepts, less those with a NUL in a text, are the
   * objects some row stands for, less those with a uuid in another spelling.
   */
  lemma SchemaAgainstRow(m: Model, s: Storage, j: Instance)
    requires NoDup(FieldNames(m)) && MappingOk(m, s) && (forall f | f in m.fields :: FieldOk(f))
    ensures Definition(m).value.ObjNode?
    ensures ObjectAccepts(Definition(m).value.members, j) && NoNul(m, j) <==> RowExists(m, s, j) && CanonicalUuids(m, j)
  {
    DefinitionMeans(m, j);
    if ObjectMeant(m.fields, j) && NoNul(m, j) {
      MeantIsStorable(m, s, j);
    }
    if RowExists(m, s, j) && CanonicalUuids(m, j) {
      StorableIsMeant(m, s, j);
    }
  }
}
