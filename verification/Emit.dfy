/** The three emitters, as the trees they print. */
module Emit {
  import opened Seqs
  import opened Strings
  import opened Json
  import opened Document
  import JsonText
  import Naming

  // ----- PostgreSQL -----

  datatype Check = LengthAtLeast(column: string, bound: nat) | LengthAtMost(column: string, bound: nat)
  datatype ColumnDef = ColumnDef(name: string, scalar: Scalar, notNull: bool, checks: seq<Check>)
  datatype KeyDef = KeyDef(name: string, primary: bool, columns: seq<string>)
  datatype ForeignDef = ForeignDef(
    name: string, columns: seq<string>, target: Relation, targetColumns: seq<string>, onDelete: DeleteAction)
  datatype Statement =
    | CreateSchema(schema: string)
    | CreateTable(table: Relation, columns: seq<ColumnDef>, keys: seq<KeyDef>)
    | AddForeignKey(owner: Relation, foreign: ForeignDef)

  function NameOfColumnDef(c: ColumnDef): string { c.name }
  function NameOfKeyDef(k: KeyDef): string { k.name }
  function NameOfForeignDef(f: ForeignDef): string { f.name }

  function Quote(s: string): string { "\"" + s + "\"" }

  /** `"schema"."table"`, the key stored models are sorted by. */
  function QualifiedName(p: Persisted): string {
    Quote(p.storage.schema) + "." + Quote(p.storage.table)
  }

  function SchemaOf(p: Persisted): string { p.storage.schema }

  /** The first occurrences of the items of a list: `[...new Set(items)]`. */
  function Distinct(items: seq<string>): (r: seq<string>)
    ensures forall x :: x in r <==> x in items
    ensures NoDup(r)
  {
    if items == [] then []
    else
      var n := |items| - 1;
      var r := Distinct(items[..n]);
      assert items == items[..n] + [items[n]];
      if items[n] in r then r else r + [items[n]]
  }

  predicate NotPublic(schema: string) { schema != "public" }

  function WithoutPublic(schemas: seq<string>): (r: seq<string>)
    ensures forall x :: x in r <==> x in schemas && NotPublic(x)
    ensures NoDup(schemas) ==> NoDup(r)
  {
    if schemas == [] then []
    else
      var n := |schemas| - 1;
      var r := WithoutPublic(schemas[..n]);
      assert schemas == schemas[..n] + [schemas[n]];
      assert NoDup(schemas) ==> schemas[n] !in schemas[..n];
      if NotPublic(schemas[n]) then r + [schemas[n]] else r
  }

  function SchemaStatement(schema: string): Statement { CreateSchema(schema) }

  /** The names of the columns a list of fields is stored in. */
  function ColumnNames(s: Storage, names: seq<string>): (r: seq<string>)
    requires forall n | n in names :: n in ColumnMap(s)
    ensures |r| == |names|
    ensures forall i | 0 <= i < |names| :: r[i] == ColumnMap(s)[names[i]].name
  {
    seq(|names|, i requires 0 <= i < |names| && names[i] in ColumnMap(s) => ColumnMap(s)[names[i]].name)
  }

  function Checks(column: string, f: Field): seq<Check> {
    (if f.minLength.Some? then [LengthAtLeast(column, f.minLength.value)] else []) +
    (if f.maxLength.Some? then [LengthAtMost(column, f.maxLength.value)] else [])
  }

  function ColumnDefOf(c: Column, f: Field): ColumnDef {
    ColumnDef(c.name, f.scalar, !f.nullable, Checks(c.name, f))
  }

  function ColumnDefs(fields: map<string, Field>, columns: seq<Column>): (r: seq<ColumnDef>)
    requires forall c | c in columns :: c.field in fields
    ensures |r| == |columns|
    ensures forall i | 0 <= i < |columns| :: r[i] == ColumnDefOf(columns[i], fields[columns[i].field])
  {
    seq(|columns|, i requires 0 <= i < |columns| && columns[i].field in fields =>
      ColumnDefOf(columns[i], fields[columns[i].field]))
  }

  predicate KeyMapped(s: Storage, key: seq<string>) {
    forall n | n in key :: n in ColumnMap(s)
  }

  function KeyDefOf(s: Storage, kind: Naming.Kind, key: seq<string>): KeyDef
    requires KeyMapped(s, key)
  {
    KeyDef(KeyName(s, kind, key), kind == Naming.PrimaryKey, ColumnNames(s, key))
  }

  function UniqueDefs(s: Storage, keys: seq<seq<string>>): (r: seq<KeyDef>)
    requires forall k | k in keys :: KeyMapped(s, k)
    ensures |r| == |keys|
    ensures forall i | 0 <= i < |keys| :: r[i] == KeyDefOf(s, Naming.UniqueKey, keys[i])
  {
    seq(|keys|, i requires 0 <= i < |keys| && KeyMapped(s, keys[i]) => KeyDefOf(s, Naming.UniqueKey, keys[i]))
  }

  function KeyDefs(s: Storage, uniqueKeys: seq<seq<string>>): seq<KeyDef>
    requires KeyMapped(s, s.primaryKey) && forall k | k in uniqueKeys :: KeyMapped(s, k)
  {
    [KeyDefOf(s, Naming.PrimaryKey, s.primaryKey)] + UniqueDefs(s, uniqueKeys)
  }

  function ForeignDefOf(s: Storage, k: ForeignKey, target: Storage): ForeignDef
    requires KeyMapped(s, k.fields) && KeyMapped(target, k.targetFields)
  {
    ForeignDef(ForeignName(s, k, target), ColumnNames(s, k.fields), TableOf(target),
               ColumnNames(target, k.targetFields), k.onDelete)
  }

  predicate ForeignMapped(s: Storage, k: ForeignKey, models: map<string, Model>) {
    && KeyMapped(s, k.fields)
    && k.model in models && models[k.model].storage.Some?
    && KeyMapped(models[k.model].storage.value, k.targetFields)
  }

  predicate ForeignsMapped(s: Storage, keys: seq<ForeignKey>, models: map<string, Model>) {
    forall i | 0 <= i < |keys| :: ForeignMapped(s, keys[i], models)
  }

  function ForeignDefs(s: Storage, keys: seq<ForeignKey>, models: map<string, Model>): (r: seq<ForeignDef>)
    requires ForeignsMapped(s, keys, models)
    ensures |r| == |keys|
    ensures forall i | 0 <= i < |keys| ::
              r[i] == ForeignDefOf(s, keys[i], models[keys[i].model].storage.value)
  {
    seq(|keys|, i requires 0 <= i < |keys| && ForeignMapped(s, keys[i], models) =>
      ForeignDefOf(s, keys[i], models[keys[i].model].storage.value))
  }

  /** Every look-up the emitter makes for this model succeeds. */
  predicate Emittable(p: Persisted, models: map<string, Model>) {
    var s := p.storage;
    && (forall c | c in s.columns :: c.field in FieldMap(p.model))
    && KeyMapped(s, s.primaryKey)
    && (forall k | k in s.uniqueKeys :: KeyMapped(s, k))
    && (forall k | k in s.foreignKeys :: ForeignMapped(s, k, models))
  }

  function SortedColumns(s: Storage): (r: seq<Column>)
    ensures forall c :: c in r <==> c in s.columns
  {
    SortByCorrect(NameOfColumn, s.columns);
    PermMembers(s.columns, SortBy(NameOfColumn, s.columns));
    SortBy(NameOfColumn, s.columns)
  }

  function SortedUniqueKeys(s: Storage): (r: seq<seq<string>>)
    ensures forall k :: k in r <==> k in s.uniqueKeys
  {
    SortByCorrect(NulJoin, s.uniqueKeys);
    PermMembers(s.uniqueKeys, SortBy(NulJoin, s.uniqueKeys));
    SortBy(NulJoin, s.uniqueKeys)
  }

  function ForeignSortKey(k: ForeignKey): string {
    JsonText.Print(JsonText.List([
      JsonText.List(JsonText.Texts(k.fields)), JsonText.Text(k.model),
      JsonText.List(JsonText.Texts(k.targetFields)), JsonText.Text(ActionText(k.onDelete))]))
  }

  function SortedForeignKeys(s: Storage): (r: seq<ForeignKey>)
    ensures forall k :: k in r <==> k in s.foreignKeys
  {
    SortByCorrect(ForeignSortKey, s.foreignKeys);
    PermMembers(s.foreignKeys, SortBy(ForeignSortKey, s.foreignKeys));
    SortBy(ForeignSortKey, s.foreignKeys)
  }

  function TableStatement(p: Persisted, models: map<string, Model>): Statement
    requires Emittable(p, models)
  {
    var s := p.storage;
    CreateTable(TableOf(s), ColumnDefs(FieldMap(p.model), SortedColumns(s)), KeyDefs(s, SortedUniqueKeys(s)))
  }

  predicate EachEmittable(ps: seq<Persisted>, models: map<string, Model>) {
    forall i | 0 <= i < |ps| :: Emittable(ps[i], models)
  }

  function TableStatements(ps: seq<Persisted>, models: map<string, Model>): (r: seq<Statement>)
    requires EachEmittable(ps, models)
    ensures |r| == |ps|
    ensures forall i | 0 <= i < |ps| :: r[i] == TableStatement(ps[i], models)
  {
    seq(|ps|, i requires 0 <= i < |ps| && Emittable(ps[i], models) => TableStatement(ps[i], models))
  }

  function AddAll(owner: Relation, foreigns: seq<ForeignDef>): (r: seq<Statement>)
    ensures |r| == |foreigns|
    ensures forall i | 0 <= i < |foreigns| :: r[i] == AddForeignKey(owner, foreigns[i])
  {
    seq(|foreigns|, i requires 0 <= i < |foreigns| => AddForeignKey(owner, foreigns[i]))
  }

  function ModelForeigns(p: Persisted, models: map<string, Model>): seq<Statement>
    requires Emittable(p, models)
  {
    var s := p.storage;
    AddAll(TableOf(s), ForeignDefs(s, SortedForeignKeys(s), models))
  }

  function ForeignStatements(ps: seq<Persisted>, models: map<string, Model>): seq<Statement>
    requires EachEmittable(ps, models)
  {
    if ps == [] then []
    else ForeignStatements(ps[..|ps| - 1], models) + ModelForeigns(ps[|ps| - 1], models)
  }

  function SortedStored(d: Document): (r: seq<Persisted>)
    ensures forall p :: p in r <==> p in Stored(d)
  {
    SortByCorrect(QualifiedName, Stored(d));
    PermMembers(Stored(d), SortBy(QualifiedName, Stored(d)));
    SortBy(QualifiedName, Stored(d))
  }

  function NewSchemas(d: Document): seq<string> {
    WithoutPublic(SortBy(Self, Distinct(Map(SchemaOf, SortedStored(d)))))
  }

  predicate AllEmittable(d: Document) {
    forall p | p in Stored(d) :: Emittable(p, ModelMap(d))
  }

  /** Schemas, then every table, then every foreign key. */
  function PostgresStatements(d: Document): seq<Statement>
    requires AllEmittable(d)
  {
    var ps := SortedStored(d);
    Map(SchemaStatement, NewSchemas(d)) + TableStatements(ps, ModelMap(d)) + ForeignStatements(ps, ModelMap(d))
  }

  method EmitColumn(c: Column, f: Field) returns (row: ColumnDef)
    ensures row == ColumnDefOf(c, f)
  {
    var checks := [];
    if f.minLength.Some? {
      checks := checks + [LengthAtLeast(c.name, f.minLength.value)];
    }
    if f.maxLength.Some? {
      checks := checks + [LengthAtMost(c.name, f.maxLength.value)];
    }
    row := ColumnDef(c.name, f.scalar, !f.nullable, checks);
  }

  lemma Grows<T>(a: seq<T>, i: nat)
    requires i < |a|
    ensures a[..i + 1] == a[..i] + [a[i]]
  {
  }

  method EmitColumns(fields: map<string, Field>, columns: seq<Column>) returns (rows: seq<ColumnDef>)
    requires forall c | c in columns :: c.field in fields
    ensures rows == ColumnDefs(fields, columns)
  {
    rows := [];
    ghost var all := ColumnDefs(fields, columns);
    for i := 0 to |columns|
      invariant rows == all[..i]
    {
      var row := EmitColumn(columns[i], fields[columns[i].field]);
      rows := rows + [row];
      Grows(all, i);
    }
  }

  method EmitKeys(s: Storage, uniqueKeys: seq<seq<string>>) returns (rows: seq<KeyDef>)
    requires KeyMapped(s, s.primaryKey) && forall k | k in uniqueKeys :: KeyMapped(s, k)
    ensures rows == KeyDefs(s, uniqueKeys)
  {
    rows := [KeyDefOf(s, Naming.PrimaryKey, s.primaryKey)];
    ghost var (first, all) := (rows, UniqueDefs(s, uniqueKeys));
    for i := 0 to |uniqueKeys|
      invariant rows == first + all[..i]
    {
      rows := rows + [KeyDefOf(s, Naming.UniqueKey, uniqueKeys[i])];
      Grows(all, i);
    }
  }

  method EmitTable(p: Persisted, models: map<string, Model>) returns (statement: Statement)
    requires Emittable(p, models)
    ensures statement == TableStatement(p, models)
  {
    var rows := EmitColumns(FieldMap(p.model), SortedColumns(p.storage));
    var keys := EmitKeys(p.storage, SortedUniqueKeys(p.storage));
    statement := CreateTable(TableOf(p.storage), rows, keys);
  }

  method EmitForeignKeys(s: Storage, keys: seq<ForeignKey>, models: map<string, Model>) returns (statements: seq<Statement>)
    requires ForeignsMapped(s, keys, models)
    ensures statements == AddAll(TableOf(s), ForeignDefs(s, keys, models))
  {
    statements := [];
    ghost var all := AddAll(TableOf(s), ForeignDefs(s, keys, models));
    for i := 0 to |keys|
      invariant statements == all[..i]
    {
      assert ForeignMapped(s, keys[i], models);
      var target := models[keys[i].model].storage.value;
      statements := statements + [AddForeignKey(TableOf(s), ForeignDefOf(s, keys[i], target))];
      Grows(all, i);
    }
  }

  method EmitSchemas(schemas: seq<string>) returns (statements: seq<Statement>)
    ensures statements == Map(SchemaStatement, schemas)
  {
    statements := [];
    ghost var all := Map(SchemaStatement, schemas);
    for i := 0 to |schemas|
      invariant statements == all[..i]
    {
      statements := statements + [CreateSchema(schemas[i])];
      Grows(all, i);
    }
  }

  method EmitTables(stored: seq<Persisted>, models: map<string, Model>) returns (statements: seq<Statement>)
    requires EachEmittable(stored, models)
    ensures statements == TableStatements(stored, models)
  {
    statements := [];
    ghost var all := TableStatements(stored, models);
    for i := 0 to |stored|
      invariant statements == all[..i]
    {
      var table := EmitTable(stored[i], models);
      statements := statements + [table];
      Grows(all, i);
    }
  }

  lemma SnocForeign(ps: seq<Persisted>, models: map<string, Model>, i: nat)
    requires EachEmittable(ps, models) && i < |ps|
    ensures ForeignStatements(ps[..i + 1], models) == ForeignStatements(ps[..i], models) + ModelForeigns(ps[i], models)
  {
    assert ps[..i + 1][..i] == ps[..i];
  }

  method EmitReferences(stored: seq<Persisted>, models: map<string, Model>) returns (statements: seq<Statement>)
    requires EachEmittable(stored, models)
    ensures statements == ForeignStatements(stored, models)
  {
    statements := [];
    for i := 0 to |stored|
      invariant statements == ForeignStatements(stored[..i], models)
    {
      assert Emittable(stored[i], models);
      var foreigns := EmitForeignKeys(stored[i].storage, SortedForeignKeys(stored[i].storage), models);
      SnocForeign(stored, models, i);
      statements := statements + foreigns;
    }
    assert stored[..|stored|] == stored;
  }

  /** Pushes schemas, then tables, then foreign keys; every look-up it makes succeeds. */
  method EmitPostgres(ir: Document) returns (statements: seq<Statement>)
    requires AllEmittable(ir)
    ensures statements == PostgresStatements(ir)
  {
    var stored := SortedStored(ir);
    var models := ModelMap(ir);
    statements := EmitSchemas(NewSchemas(ir));
    var tables := EmitTables(stored, models);
    statements := statements + tables;
    var references := EmitReferences(stored, models);
    statements := statements + references;
  }

  // ----- JSON Schema -----

  /** A JSON text as it is printed: the order of members matters. */
  datatype Node = StrNode(s: string) | NumNode(n: int) | BoolNode(b: bool) | ArrNode(items: seq<Node>) | ObjNode(members: seq<Member>)
  datatype Member = Member(key: string, value: Node)

  const UUID_PATTERN := "^[0-9a-f]{8}-[0-9a-f]{4}-[0-9a-f]{4}-[0-9a-f]{4}-[0-9a-f]{12}(?![\\s\\S])"

  function TypeName(scalar: Scalar): string {
    match scalar case Int32Type => "integer" case BooleanType => "boolean" case _ => "string"
  }

  function LengthMember(key: string, length: Option<nat>): seq<Member> {
    if length.Some? then [Member(key, NumNode(length.value))] else []
  }

  function TypeMember(f: Field): seq<Member> {
    var name := StrNode(TypeName(f.scalar));
    [Member("type", if f.nullable then ArrNode([name, StrNode("null")]) else name)]
  }

  function RangeMembers(f: Field): seq<Member> {
    if f.scalar == Int32Type then [Member("minimum", NumNode(-2147483648)), Member("maximum", NumNode(2147483647))] else []
  }

  function PatternMembers(f: Field): seq<Member> {
    if f.scalar == UuidType then [Member("format", StrNode("uuid")), Member("pattern", StrNode(UUID_PATTERN))] else []
  }

  function PropertySchema(f: Field): seq<Member> {
    TypeMember(f) + RangeMembers(f) + PatternMembers(f) +
    (LengthMember("minLength", f.minLength) + LengthMember("maxLength", f.maxLength))
  }

  method EmitPropertySchema(f: Field) returns (result: seq<Member>)
    ensures result == PropertySchema(f)
  {
    var name := StrNode(TypeName(f.scalar));
    result := [Member("type", if f.nullable then ArrNode([name, StrNode("null")]) else name)];
    if f.scalar == Int32Type {
      result := result + [Member("minimum", NumNode(-2147483648))];
      result := result + [Member("maximum", NumNode(2147483647))];
    }
    assert result == TypeMember(f) + RangeMembers(f);
    ghost var typed := result;
    if f.scalar == UuidType {
      result := result + [Member("format", StrNode("uuid"))];
      result := result + [Member("pattern", StrNode(UUID_PATTERN))];
    }
    assert result == typed + PatternMembers(f);
    ghost var shaped := result;
    if f.minLength.Some? {
      result := result + [Member("minLength", NumNode(f.minLength.value))];
    }
    if f.maxLength.Some? {
      result := result + [Member("maxLength", NumNode(f.maxLength.value))];
    }
    assert result == shaped + (LengthMember("minLength", f.minLength) + LengthMember("maxLength", f.maxLength));
  }

  function PropertyMember(f: Field): Member { Member(f.name, ObjNode(PropertySchema(f))) }

  function RequiredNames(fields: seq<Field>): seq<Node> {
    if fields == [] then []
    else (if fields[0].required then [StrNode(fields[0].name)] else []) + RequiredNames(fields[1..])
  }

  function Definition(m: Model): Member {
    var fields := SortBy(NameOfField, m.fields);
    Member(m.name, ObjNode([
      Member("type", StrNode("object")), Member("additionalProperties", BoolNode(false)),
      Member("properties", ObjNode(Map(PropertyMember, fields))), Member("required", ArrNode(RequiredNames(fields)))]))
  }

  function Reference(m: Model): Node { ObjNode([Member("$ref", StrNode("#/$defs/" + m.name))]) }

  function RootSchema(references: seq<Node>, definitions: seq<Member>): Node {
    ObjNode([
      Member("$schema", StrNode("https://json-schema.org/draft/2020-12/schema")),
      Member("anyOf", ArrNode(references)), Member("$defs", ObjNode(definitions))])
  }

  function JsonSchema(d: Document): Node {
    var models := SortBy(NameOfModel, d);
    RootSchema(Map(Reference, models), Map(Definition, models))
  }

  method EmitProperties(fields: seq<Field>) returns (members: seq<Member>)
    ensures members == Map(PropertyMember, fields)
  {
    members := [];
    ghost var all := Map(PropertyMember, fields);
    for i := 0 to |fields|
      invariant members == all[..i]
    {
      var schema := EmitPropertySchema(fields[i]);
      members := members + [Member(fields[i].name, ObjNode(schema))];
      Grows(all, i);
    }
  }

  method EmitDefinition(m: Model) returns (definition: Member)
    ensures definition == Definition(m)
  {
    var fields := SortBy(NameOfField, m.fields);
    var properties := EmitProperties(fields);
    definition := Member(m.name, ObjNode([
      Member("type", StrNode("object")), Member("additionalProperties", BoolNode(false)),
      Member("properties", ObjNode(properties)), Member("required", ArrNode(RequiredNames(fields)))]));
  }

  method EmitDefinitions(models: seq<Model>) returns (definitions: seq<Member>)
    ensures definitions == Map(Definition, models)
  {
    definitions := [];
    ghost var all := Map(Definition, models);
    for i := 0 to |models|
      invariant definitions == all[..i]
    {
      var definition := EmitDefinition(models[i]);
      definitions := definitions + [definition];
      Grows(all, i);
    }
  }

  /** The source maps over models and fields; the callbacks update members, so the maps are loops here. */
  method EmitJsonSchema(ir: Document) returns (schema: Node)
    ensures schema == JsonSchema(ir)
  {
    var models := SortBy(NameOfModel, ir);
    var definitions := EmitDefinitions(models);
    schema := RootSchema(Map(Reference, models), definitions);
  }

  // ----- TypeScript -----

  function TypeScriptName(s: Scalar): string {
    match s case StringType => "string" case BooleanType => "boolean" case Int32Type => "number" case UuidType => "string"
  }

  /** A read-only property: its name, whether it carries a question mark, and the union of its type. */
  datatype Property = Property(name: string, optional: bool, union: seq<string>)
  datatype Interface = Interface(name: string, properties: seq<Property>)

  function PropertyOf(f: Field): Property {
    Property(f.name, !f.required, [TypeScriptName(f.scalar)] + if f.nullable then ["null"] else [])
  }

  function InterfaceOf(m: Model): Interface { Interface(m.name, Map(PropertyOf, SortBy(NameOfField, m.fields))) }
  function TypeScript(d: Document): seq<Interface> { Map(InterfaceOf, SortBy(NameOfModel, d)) }
}
