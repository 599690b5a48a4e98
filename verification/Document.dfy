/**
 * The schema documents of `ores.schema-ir.v1`: their typed form, their JSON form, and the
 * rules a document must meet before anything is emitted from it.
 */
module Document {
  import opened Characters
  import opened Seqs
  import opened Strings
  import opened Json
  import JsonText
  import Naming

  const VERSION := "ores.schema-ir.v1"

  datatype Scalar = StringType | BooleanType | Int32Type | UuidType
  datatype Field = Field(
    name: string, scalar: Scalar, required: bool, nullable: bool,
    minLength: Option<nat>, maxLength: Option<nat>)
  datatype Column = Column(field: string, name: string)
  datatype DeleteAction = Restrict | Cascade | SetNull
  datatype ForeignKey = ForeignKey(
    fields: seq<string>, model: string, targetFields: seq<string>, onDelete: DeleteAction)
  datatype Storage = Storage(
    schema: string, table: string, columns: seq<Column>, primaryKey: seq<string>,
    uniqueKeys: seq<seq<string>>, foreignKeys: seq<ForeignKey>)
  datatype Model = Model(name: string, fields: seq<Field>, storage: Option<Storage>)
  type Document = seq<Model>

  // ----- identifiers -----

  predicate ModelName(s: string) {
    1 <= |s| <= 63 && Upper(s[0]) && forall c | c in s :: Alphanumeric(c)
  }

  predicate FieldName(s: string) {
    1 <= |s| <= 63 && Lower(s[0]) && forall c | c in s :: Alphanumeric(c) || c == '_'
  }

  predicate SqlName(s: string) {
    1 <= |s| <= 63 && Lower(s[0]) && forall c | c in s :: Lower(c) || Digit(c) || c == '_'
  }

  // ----- identifiers hold nothing that separates or is escaped -----

  lemma NamesAreNulFree(names: seq<string>)
    requires forall n | n in names :: FieldName(n)
    ensures forall n | n in names :: NulFree(n)
  {
  }

  lemma NamePlain(s: string)
    requires FieldName(s) || ModelName(s) || SqlName(s)
    ensures JsonText.Plain(s)
  {
  }

  lemma TextsPlain(names: seq<string>)
    requires forall n | n in names :: FieldName(n)
    ensures JsonText.PlainTerm(JsonText.List(JsonText.Texts(names)))
  {
    forall x | x in JsonText.Texts(names) ensures JsonText.PlainTerm(x) {
      var i :| 0 <= i < |names| && JsonText.Texts(names)[i] == x;
      assert names[i] in names;
      NamePlain(names[i]);
    }
  }

  // ----- limits of a single declaration -----

  const MAX_LENGTH: nat := 1048576

  predicate LengthOk(scalar: Scalar, length: Option<nat>) {
    length.Some? ==> scalar == StringType && length.value <= MAX_LENGTH
  }

  predicate FieldOk(f: Field) {
    && FieldName(f.name)
    && LengthOk(f.scalar, f.minLength)
    && LengthOk(f.scalar, f.maxLength)
    && (f.minLength.Some? && f.maxLength.Some? ==> f.minLength.value <= f.maxLength.value)
  }

  ghost predicate FieldListOk(names: seq<string>) {
    1 <= |names| <= 128 && (forall n | n in names :: FieldName(n)) && NoDup(names)
  }

  predicate ColumnOk(c: Column) {
    FieldName(c.field) && SqlName(c.name)
  }

  ghost predicate ForeignKeyOk(k: ForeignKey) {
    FieldListOk(k.fields) && ModelName(k.model) && FieldListOk(k.targetFields)
  }

  ghost predicate StorageOk(s: Storage) {
    && SqlName(s.schema) && SqlName(s.table)
    && 1 <= |s.columns| <= 128 && (forall c | c in s.columns :: ColumnOk(c))
    && FieldListOk(s.primaryKey)
    && |s.uniqueKeys| <= 64 && (forall k | k in s.uniqueKeys :: FieldListOk(k))
    && |s.foreignKeys| <= 64 && (forall k | k in s.foreignKeys :: ForeignKeyOk(k))
  }

  ghost predicate ModelOk(m: Model) {
    && ModelName(m.name)
    && 1 <= |m.fields| <= 128 && (forall f | f in m.fields :: FieldOk(f))
    && (m.storage.Some? ==> StorageOk(m.storage.value))
  }

  ghost predicate DeclarationsOk(d: Document) {
    1 <= |d| <= 64 && forall m | m in d :: ModelOk(m)
  }

  // ----- names and look-up by name -----

  function ActionText(a: DeleteAction): string {
    match a case Restrict => "restrict" case Cascade => "cascade" case SetNull => "setNull"
  }

  function NameOfModel(m: Model): string { m.name }
  function NameOfField(f: Field): string { f.name }
  function FieldOfColumn(c: Column): string { c.field }
  function NameOfColumn(c: Column): string { c.name }
  function FieldSet(key: seq<string>): set<string> { ToSet(key) }
  function Relationship(k: ForeignKey): (seq<string>, string, seq<string>) {
    (k.fields, k.model, k.targetFields)
  }

  function FieldNames(m: Model): seq<string> { Map(NameOfField, m.fields) }

  /** `new Map(items.map((item) => [key(item), item]))`: a later item replaces an earlier one. */
  function IndexBy<T>(key: T -> string, items: seq<T>): map<string, T> {
    if items == [] then map[]
    else
      var last := items[|items| - 1];
      IndexBy(key, items[..|items| - 1])[key(last) := last]
  }

  lemma {:induction false} IndexByKeys<T>(key: T -> string, items: seq<T>)
    ensures IndexBy(key, items).Keys == ToSet(Map(key, items))
    ensures forall n | n in IndexBy(key, items) ::
              IndexBy(key, items)[n] in items && key(IndexBy(key, items)[n]) == n
  {
    if items != [] {
      var (rest, last) := (items[..|items| - 1], items[|items| - 1]);
      IndexByKeys(key, rest);
      assert items == rest + [last];
      MapAppend(key, rest, [last]);
      KeysSnoc(IndexBy(key, rest), Map(key, rest), key(last), last);
    }
  }

  lemma KeysSnoc<T>(m: map<string, T>, names: seq<string>, n: string, x: T)
    requires m.Keys == ToSet(names)
    ensures m[n := x].Keys == ToSet(names + [n])
  {
  }

  /** When names are distinct, look-up by name finds every item. */
  lemma IndexByFinds<T>(key: T -> string, items: seq<T>, x: T)
    requires NoDup(Map(key, items)) && x in items
    ensures key(x) in IndexBy(key, items) && IndexBy(key, items)[key(x)] == x
  {
    IndexByKeys(key, items);
    MapIn(key, items, x);
    KeyInjective(key, items, IndexBy(key, items)[key(x)], x);
  }

  lemma IndexByOrderBlind<T>(key: T -> string, a: seq<T>, b: seq<T>)
    requires Perm(a, b) && NoDup(Map(key, a))
    ensures IndexBy(key, a) == IndexBy(key, b)
  {
    PermMembers(a, b);
    MapPerm(key, a, b);
    PermMembers(Map(key, a), Map(key, b));
    PermNoDup(Map(key, a), Map(key, b));
    IndexByKeys(key, a);
    IndexByKeys(key, b);
    assert IndexBy(key, a).Keys == IndexBy(key, b).Keys;
    forall n | n in IndexBy(key, a) ensures IndexBy(key, a)[n] == IndexBy(key, b)[n] {
      IndexByFinds(key, b, IndexBy(key, a)[n]);
    }
  }

  function FieldMap(m: Model): map<string, Field> { IndexBy(NameOfField, m.fields) }
  function ModelMap(d: Document): map<string, Model> { IndexBy(NameOfModel, d) }
  function ColumnMap(s: Storage): map<string, Column> { IndexBy(FieldOfColumn, s.columns) }

  // ----- relational rules -----

  const SYSTEM_COLUMNS := {"tableoid", "xmin", "cmin", "xmax", "cmax", "ctid"}

  predicate ReservedSchema(s: string) {
    "pg_" <= s || s == "information_schema"
  }

  function Keys(s: Storage): seq<seq<string>> {
    [s.primaryKey] + s.uniqueKeys
  }

  predicate Resolves(m: Model, names: seq<string>) {
    forall n | n in names :: n in FieldMap(m)
  }

  /** A foreign key resolves to an ordered key of a stored model, type for type. */
  predicate ReferenceOk(m: Model, k: ForeignKey, models: map<string, Model>) {
    && k.model in models
    && models[k.model].storage.Some?
    && var target := models[k.model];
    && |k.fields| == |k.targetFields|
    && Resolves(m, k.fields)
    && Resolves(target, k.targetFields)
    && k.targetFields in Keys(target.storage.value)
    && (forall i | 0 <= i < |k.fields| ::
         FieldMap(m)[k.fields[i]].scalar == FieldMap(target)[k.targetFields[i]].scalar)
    && (k.onDelete == SetNull ==> forall n | n in k.fields :: FieldMap(m)[n].nullable)
  }

  ghost predicate MappingOk(m: Model, s: Storage) {
    && NoDup(Map(FieldOfColumn, s.columns))
    && NoDup(Map(NameOfColumn, s.columns))
    && (forall c | c in s.columns :: c.name !in SYSTEM_COLUMNS)
    && ColumnMap(s).Keys == FieldMap(m).Keys
    && (forall f | f in m.fields :: f.required)
  }

  ghost predicate KeysOk(m: Model, s: Storage) {
    && NoDup(Map(FieldSet, Keys(s)))
    && (forall k | k in Keys(s) :: Resolves(m, k))
    && (forall n | n in s.primaryKey && n in FieldMap(m) :: !FieldMap(m)[n].nullable)
  }

  ghost predicate ReferencesOk(m: Model, s: Storage, models: map<string, Model>) {
    && NoDup(Map(Relationship, s.foreignKeys))
    && (forall k | k in s.foreignKeys :: ReferenceOk(m, k, models))
  }

  ghost predicate StoredModelOk(m: Model, s: Storage, models: map<string, Model>) {
    !ReservedSchema(s.schema) && MappingOk(m, s) && KeysOk(m, s) && ReferencesOk(m, s, models)
  }

  ghost predicate ModelResolved(m: Model, models: map<string, Model>) {
    NoDup(FieldNames(m)) && (m.storage.Some? ==> StoredModelOk(m, m.storage.value, models))
  }

  type Relation = (string, string)

  /** A model together with the storage it declares. */
  datatype Persisted = Persisted(model: Model, storage: Storage)

  function Stored(d: Document): (r: seq<Persisted>)
    ensures forall p :: p in r <==> p.model in d && p.model.storage == Some(p.storage)
  {
    if d == [] then []
    else
      var last := d[|d| - 1];
      Stored(d[..|d| - 1]) + if last.storage.Some? then [Persisted(last, last.storage.value)] else []
  }

  function StoredOf(m: Model): seq<Persisted> {
    if m.storage.Some? then [Persisted(m, m.storage.value)] else []
  }

  lemma {:induction false} MapStored<T>(f: Persisted -> T, g: Model -> seq<T>, d: Document)
    requires forall m | m in d :: g(m) == Map(f, StoredOf(m))
    ensures Map(f, Stored(d)) == FlatMap(g, d)
  {
    if d != [] {
      var rest, m := d[..|d| - 1], d[|d| - 1];
      assert m in d;
      MapStored(f, g, rest);
      MapAppend(f, Stored(rest), StoredOf(m));
    }
  }

  function TableOf(s: Storage): Relation { (s.schema, s.table) }
  function TableId(p: Persisted): Relation { TableOf(p.storage) }

  ghost predicate RelationsOk(d: Document) {
    && NoDup(Map(NameOfModel, d))
    && NoDup(Map(TableId, Stored(d)))
    && (forall m | m in d :: ModelResolved(m, ModelMap(d)))
  }

  // ----- generated names -----

  function KeyName(s: Storage, kind: Naming.Kind, key: seq<string>): string {
    Naming.ConstraintName(s.schema, s.table, kind, JsonText.List(JsonText.Texts(key)))
  }

  function ForeignIdentity(k: ForeignKey, target: Storage): JsonText.Term {
    JsonText.List([
      JsonText.List(JsonText.Texts(k.fields)), JsonText.Text(target.schema), JsonText.Text(target.table),
      JsonText.List(JsonText.Texts(k.targetFields))])
  }

  function ForeignName(s: Storage, k: ForeignKey, target: Storage): string {
    Naming.ConstraintName(s.schema, s.table, Naming.Foreign, ForeignIdentity(k, target))
  }

  function UniqueNames(s: Storage, keys: seq<seq<string>>): (r: seq<string>)
    ensures |r| == |keys|
    ensures forall i | 0 <= i < |keys| :: r[i] == KeyName(s, Naming.UniqueKey, keys[i])
  {
    seq(|keys|, i requires 0 <= i < |keys| => KeyName(s, Naming.UniqueKey, keys[i]))
  }

  function IndexNames(s: Storage): seq<string> {
    [KeyName(s, Naming.PrimaryKey, s.primaryKey)] + UniqueNames(s, s.uniqueKeys)
  }

  /** The storage a resolved foreign key points at. */
  predicate Targets(keys: seq<ForeignKey>, models: map<string, Model>) {
    forall k | k in keys :: k.model in models && models[k.model].storage.Some?
  }

  function ForeignNames(s: Storage, keys: seq<ForeignKey>, models: map<string, Model>): (r: seq<string>)
    requires Targets(keys, models)
    ensures |r| == |keys|
    ensures forall i | 0 <= i < |keys| ::
              r[i] == ForeignName(s, keys[i], models[keys[i].model].storage.value)
  {
    if keys == [] then []
    else [ForeignName(s, keys[0], models[keys[0].model].storage.value)] + ForeignNames(s, keys[1..], models)
  }

  function InSchema(schema: string, names: seq<string>): (r: seq<Relation>)
    ensures |r| == |names|
    ensures forall i | 0 <= i < |names| :: r[i] == (schema, names[i])
  {
    seq(|names|, i requires 0 <= i < |names| => (schema, names[i]))
  }

  /** The relations the keys of one model create, next to its table. */
  function ModelIndexIds(p: Persisted): seq<Relation> {
    InSchema(p.storage.schema, IndexNames(p.storage))
  }

  function IndexIds(ps: seq<Persisted>): seq<Relation> {
    FlatMap(ModelIndexIds, ps)
  }

  function RelationIds(ps: seq<Persisted>): seq<Relation> {
    Map(TableId, ps) + IndexIds(ps)
  }

  /** The constraint names of one table are distinct. */
  ghost predicate ConstraintNamesOk(p: Persisted, models: map<string, Model>) {
    Targets(p.storage.foreignKeys, models) ==>
      NoDup(IndexNames(p.storage) + ForeignNames(p.storage, p.storage.foreignKeys, models))
  }

  ghost predicate NamesOk(d: Document) {
    && (forall p | p in Stored(d) :: ConstraintNamesOk(p, ModelMap(d)))
    && NoDup(RelationIds(Stored(d)))
  }

  /** Everything the compiler demands of a document. */
  ghost predicate WellFormed(d: Document) {
    DeclarationsOk(d) && RelationsOk(d) && NamesOk(d)
  }
}
