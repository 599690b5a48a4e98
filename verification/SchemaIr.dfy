/** The schema-IR front end: which IR is valid, and the canonical form it is normalised to. */
module SchemaIr {
  import opened Characters
  import opened Seqs
  import opened Strings
  import opened Json
  import opened Numbers
  import opened Document
  import JsonText
  import Shape

  datatype IrField = IrField(
    name: string, column: string, scalar: Scalar, required: bool, nullable: bool,
    minLength: Option<int>, maxLength: Option<int>, minimum: Option<int>, maximum: Option<int>)
  datatype IrAction = NoAction | RestrictDelete | CascadeDelete | SetNullOnDelete
  datatype IrForeign = IrForeign(fields: seq<string>, entity: string, targetFields: seq<string>, onDelete: IrAction)
  datatype Entity = Entity(
    name: string, table: string, fields: seq<IrField>, primaryKey: seq<string>,
    uniqueKeys: seq<seq<string>>, indexes: seq<seq<string>>, foreignKeys: seq<IrForeign>)
  datatype Ir = Ir(databaseSchema: string, entities: seq<Entity>)

  // ----- identifiers -----

  const RESERVED_A := {
    "abstract", "as", "assert", "async", "await", "base", "break", "case", "catch", "class", "const",
    "continue", "covariant", "crate", "debugger", "default", "deferred", "do", "dynamic", "else"}
  const RESERVED_B := {
    "enum", "export", "extends", "extension", "external", "factory", "false", "final", "finally", "fn", "for",
    "function", "get", "if", "implements", "import", "in", "interface", "is", "late"}
  const RESERVED_C := {
    "let", "library", "macro", "match", "mixin", "mod", "move", "mut", "native", "new", "null", "of", "on",
    "operator", "override", "part", "priv", "pub", "rethrow", "return"}
  const RESERVED_D := {
    "self", "set", "static", "struct", "super", "switch", "sync", "this", "throw", "trait", "true", "try",
    "type", "typedef", "typeof", "union", "unsafe", "use", "var", "virtual", "void", "where", "while", "with",
    "yield", "hashCode", "runtimeType", "toString", "noSuchMethod", "constructor", "prototype", "then"}
  /** Reserved in one of the generated languages. */
  predicate ReservedField(s: string) { s in RESERVED_A || s in RESERVED_B || s in RESERVED_C || s in RESERVED_D }
  const RESERVED_MODELS := {
    "SchemaOptional", "SchemaMissing", "SchemaPresent", "String", "Object", "Null", "Never", "Type", "Function", "List",
    "Map", "Set", "Symbol", "Future", "Stream", "DateTime", "Self"}

  predicate FieldIdentifier(s: string) {
    1 <= |s| <= 63 && Lower(s[0]) && (forall c | c in s :: Alphanumeric(c)) && !ReservedField(s)
  }

  predicate EntityIdentifier(s: string) { ModelName(s) && s !in RESERVED_MODELS }
  predicate TableIdentifier(s: string) { SqlName(s) }
  predicate ColumnIdentifier(s: string) { SqlName(s) && s !in SYSTEM_COLUMNS }

  // ----- the rules of one entity -----

  function Or(x: Option<int>, otherwise: int): int { if x.Some? then x.value else otherwise }

  predicate BoundOk(x: Option<int>, allowed: bool, low: int, high: int) {
    x.Some? ==> allowed && low <= x.value <= high
  }

  predicate IrFieldOk(f: IrField) {
    && FieldIdentifier(f.name) && ColumnIdentifier(f.column)
    && BoundOk(f.minLength, f.scalar == StringType, 0, 1000000)
    && BoundOk(f.maxLength, f.scalar == StringType, 0, 1000000)
    && BoundOk(f.minimum, f.scalar == Int32Type, INT_MIN, INT_MAX)
    && BoundOk(f.maximum, f.scalar == Int32Type, INT_MIN, INT_MAX)
    && Or(f.minLength, 0) <= Or(f.maxLength, 1000000)
    && Or(f.minimum, INT_MIN) <= Or(f.maximum, INT_MAX)
  }

  function NameOfIrField(f: IrField): string { f.name }
  function ColumnOfIrField(f: IrField): string { f.column }
  function NameOfEntity(e: Entity): string { e.name }
  function TableOfEntity(e: Entity): string { e.table }
  function LowerName(e: Entity): string { Map(LowerCase, e.name) }

  function IrFields(e: Entity): map<string, IrField> { IndexBy(NameOfIrField, e.fields) }
  function EntityKeys(e: Entity): seq<seq<string>> { [e.primaryKey] + e.uniqueKeys }

  ghost predicate TupleOk(key: seq<string>, fields: map<string, IrField>) {
    1 <= |key| <= 16 && (forall n | n in key :: n in fields) && NoDup(key)
  }

  function KeyText(key: seq<string>): string { JsonText.Print(JsonText.List(JsonText.Texts(key))) }
  function SortedKeyText(key: seq<string>): string { KeyText(SortBy(Self, key)) }

  function RelationTerm(k: IrForeign): JsonText.Term {
    JsonText.Record([
      JsonText.Entry("entity", JsonText.Text(k.entity)),
      JsonText.Entry("fields", JsonText.List(JsonText.Texts(k.targetFields)))])
  }

  /** `JSON.stringify([fk.fields, fk.references])` */
  function RelationText(k: IrForeign): string {
    JsonText.Print(JsonText.List([JsonText.List(JsonText.Texts(k.fields)), RelationTerm(k)]))
  }

  function IrActionText(a: IrAction): string {
    match a case NoAction => "noAction" case RestrictDelete => "restrict" case CascadeDelete => "cascade" case SetNullOnDelete => "setNull"
  }

  function ForeignTerm(k: IrForeign): JsonText.Term {
    JsonText.Record([
      JsonText.Entry("fields", JsonText.List(JsonText.Texts(k.fields))),
      JsonText.Entry("references", RelationTerm(k)),
      JsonText.Entry("onDelete", JsonText.Text(IrActionText(k.onDelete)))])
  }

  function ForeignText(k: IrForeign): string { JsonText.Print(ForeignTerm(k)) }

  ghost predicate IrForeignOk(k: IrForeign, fields: map<string, IrField>) {
    && EntityIdentifier(k.entity)
    && 1 <= |k.targetFields| <= 16 && (forall n | n in k.targetFields :: FieldIdentifier(n)) && NoDup(k.targetFields)
    && TupleOk(k.fields, fields)
    && |k.fields| == |k.targetFields|
  }

  predicate SolidKey(key: seq<string>, fields: map<string, IrField>) {
    forall n | n in key && n in fields :: fields[n].required && !fields[n].nullable
  }

  ghost predicate EntityFieldsOk(fields: seq<IrField>) {
    && 1 <= |fields| <= 256 && (forall f | f in fields :: IrFieldOk(f))
    && NoDup(Map(NameOfIrField, fields)) && NoDup(Map(ColumnOfIrField, fields))
  }

  ghost predicate TuplesOk(keys: seq<seq<string>>, fields: map<string, IrField>) {
    |keys| <= 64 && forall k | k in keys :: TupleOk(k, fields)
  }

  ghost predicate EntityKeysOk(e: Entity) {
    && TupleOk(e.primaryKey, IrFields(e)) && SolidKey(e.primaryKey, IrFields(e))
    && TuplesOk(e.uniqueKeys, IrFields(e)) && TuplesOk(e.indexes, IrFields(e))
    && NoDup(Map(SortedKeyText, EntityKeys(e))) && NoDup(Map(KeyText, e.indexes))
  }

  ghost predicate EntityForeignsOk(e: Entity) {
    && |e.foreignKeys| <= 64 && (forall k | k in e.foreignKeys :: IrForeignOk(k, IrFields(e)))
    && NoDup(Map(RelationText, e.foreignKeys))
  }

  ghost predicate EntityOk(e: Entity) {
    && EntityIdentifier(e.name) && TableIdentifier(e.table)
    && EntityFieldsOk(e.fields) && EntityKeysOk(e) && EntityForeignsOk(e)
  }

  // ----- the rules across entities -----

  function Entities(entities: seq<Entity>): map<string, Entity> { IndexBy(NameOfEntity, entities) }

  predicate IrReferenceOk(fields: map<string, IrField>, k: IrForeign, target: Entity) {
    && (forall n | n in k.targetFields :: n in IrFields(target))
    && k.targetFields in EntityKeys(target)
    && |k.fields| == |k.targetFields|
    && (forall i | 0 <= i < |k.fields| ::
         k.fields[i] in fields && fields[k.fields[i]].scalar == IrFields(target)[k.targetFields[i]].scalar)
    && (k.onDelete == SetNullOnDelete ==> forall n | n in k.fields && n in fields :: fields[n].nullable)
  }

  predicate IrReferencesOk(e: Entity, entities: map<string, Entity>) {
    forall k | k in e.foreignKeys :: k.entity in entities && IrReferenceOk(IrFields(e), k, entities[k.entity])
  }

  ghost predicate IrOk(ir: Ir) {
    && SqlName(ir.databaseSchema) && !ReservedSchema(ir.databaseSchema)
    && 1 <= |ir.entities| <= 64
    && (forall e | e in ir.entities :: EntityOk(e))
    && NoDup(Map(LowerName, ir.entities)) && NoDup(Map(TableOfEntity, ir.entities))
    && (forall e | e in ir.entities :: IrReferencesOk(e, Entities(ir.entities)))
  }

  // ----- the canonical form -----

  function CanonEntity(e: Entity): Entity {
    e.(fields := SortBy(NameOfIrField, e.fields), uniqueKeys := SortBy(KeyText, e.uniqueKeys),
       indexes := SortBy(KeyText, e.indexes), foreignKeys := SortBy(ForeignText, e.foreignKeys))
  }

  function Canonical(ir: Ir): Ir {
    Ir(ir.databaseSchema, SortBy(NameOfEntity, Map(CanonEntity, ir.entities)))
  }

  // ----- what the front end reads, and how it writes it back -----

  predicate IsStrings(j: Json) { j.Arr? && forall x | x in j.items :: x.Str? }
  predicate IsStringsList(j: Json) { j.Arr? && forall x | x in j.items :: IsStrings(x) }

  predicate IntegerIfPresent(j: Json, key: string) {
    Shape.Has(j, key) ==> IsInteger(Shape.Get(j, key))
  }

  const FIELD_KEYS := {"name", "column", "type", "required", "nullable"}
  const BOUND_KEYS := {"minLength", "maxLength", "minimum", "maximum"}

  predicate FieldShape(j: Json) {
    && IsRecord(j, FIELD_KEYS, BOUND_KEYS)
    && Shape.Get(j, "name").Str? && Shape.Get(j, "column").Str?
    && Shape.ScalarOf(Shape.Get(j, "type")).Some?
    && Shape.Get(j, "required").Bool? && Shape.Get(j, "nullable").Bool?
    && IntegerIfPresent(j, "minLength") && IntegerIfPresent(j, "maxLength")
    && IntegerIfPresent(j, "minimum") && IntegerIfPresent(j, "maximum")
  }

  function ReadBound(j: Json, key: string): Option<int> {
    if Shape.Has(j, key) && IsInteger(Shape.Get(j, key)) then Some(ToInt(Shape.Get(j, key))) else None
  }

  function ReadField(j: Json): IrField {
    var scalar := Shape.ScalarOf(Shape.Get(j, "type"));
    IrField(Shape.TextOf(Shape.Get(j, "name")), Shape.TextOf(Shape.Get(j, "column")),
            if scalar.Some? then scalar.value else StringType,
            Shape.TruthOf(Shape.Get(j, "required")), Shape.TruthOf(Shape.Get(j, "nullable")),
            ReadBound(j, "minLength"), ReadBound(j, "maxLength"), ReadBound(j, "minimum"), ReadBound(j, "maximum"))
  }

  function ActionOf(j: Json): Option<IrAction> {
    if j == Str("noAction") then Some(NoAction)
    else if j == Str("restrict") then Some(RestrictDelete)
    else if j == Str("cascade") then Some(CascadeDelete)
    else if j == Str("setNull") then Some(SetNullOnDelete)
    else None
  }

  const FOREIGN_KEYS := {"fields", "references"}
  const REFERENCE_KEYS := {"entity", "fields"}

  predicate ForeignShape(j: Json) {
    && IsRecord(j, FOREIGN_KEYS, {"onDelete"})
    && IsStrings(Shape.Get(j, "fields"))
    && IsRecord(Shape.Get(j, "references"), REFERENCE_KEYS, {})
    && Shape.Get(Shape.Get(j, "references"), "entity").Str?
    && IsStrings(Shape.Get(Shape.Get(j, "references"), "fields"))
    && (Shape.Has(j, "onDelete") ==> ActionOf(Shape.Get(j, "onDelete")).Some?)
  }

  predicate IsForeignList(j: Json) { j.Arr? && forall x | x in j.items :: ForeignShape(x) }

  /** An absent delete action is `noAction`. */
  function ReadForeign(j: Json): IrForeign {
    var target := Shape.Get(j, "references");
    var action := ActionOf(Shape.Get(j, "onDelete"));
    IrForeign(Shape.DecodeNames(Shape.Get(j, "fields")), Shape.TextOf(Shape.Get(target, "entity")),
              Shape.DecodeNames(Shape.Get(target, "fields")), if action.Some? then action.value else NoAction)
  }

  const ENTITY_KEYS := {"name", "table", "fields", "primaryKey"}
  const LIST_KEYS := {"uniqueKeys", "indexes", "foreignKeys"}

  /** An absent list is empty. */
  function ListOr(j: Json, key: string): Json { if Shape.Has(j, key) then Shape.Get(j, key) else Arr([]) }

  predicate EntityBaseShape(j: Json) {
    && IsRecord(j, ENTITY_KEYS, LIST_KEYS)
    && Shape.Get(j, "name").Str? && Shape.Get(j, "table").Str?
    && Shape.Get(j, "fields").Arr? && (forall x | x in Shape.Get(j, "fields").items :: FieldShape(x))
    && IsStrings(Shape.Get(j, "primaryKey"))
  }

  predicate EntityShape(j: Json) {
    && EntityBaseShape(j)
    && IsStringsList(ListOr(j, "uniqueKeys")) && IsStringsList(ListOr(j, "indexes"))
    && IsForeignList(ListOr(j, "foreignKeys"))
  }

  function ReadEntity(j: Json): Entity {
    Entity(Shape.TextOf(Shape.Get(j, "name")), Shape.TextOf(Shape.Get(j, "table")),
           Map(ReadField, Shape.ItemsOf(Shape.Get(j, "fields"))), Shape.DecodeNames(Shape.Get(j, "primaryKey")),
           Map(Shape.DecodeNames, Shape.ItemsOf(ListOr(j, "uniqueKeys"))),
           Map(Shape.DecodeNames, Shape.ItemsOf(ListOr(j, "indexes"))),
           Map(ReadForeign, Shape.ItemsOf(ListOr(j, "foreignKeys"))))
  }

  const IR_KEYS := {"schemaVersion", "databaseSchema", "entities"}

  predicate IrShape(j: Json) {
    && IsRecord(j, IR_KEYS, {})
    && Shape.Get(j, "schemaVersion") == Str(VERSION)
    && Shape.Get(j, "databaseSchema").Str?
    && Shape.Get(j, "entities").Arr? && (forall x | x in Shape.Get(j, "entities").items :: EntityShape(x))
  }

  function ReadIr(j: Json): Ir {
    Ir(Shape.TextOf(Shape.Get(j, "databaseSchema")), Map(ReadEntity, Shape.ItemsOf(Shape.Get(j, "entities"))))
  }

  /** The canonical form of valid data; `None` stands for a thrown validation error. */
  ghost function Normalize(j: Json): Option<Ir> {
    if IrShape(j) && IrOk(ReadIr(j)) then Some(Canonical(ReadIr(j))) else None
  }
}
