/** The shape phase of the validator: which JSON data is a document with well-formed declarations. */
module Shape {
  import opened Seqs
  import opened Json
  import opened Diagnostics
  import opened Document

  // ----- reading JSON data -----

  function Get(j: Json, key: string): Json {
    if j.Obj? && key in j.members then j.members[key] else Null
  }

  predicate Has(j: Json, key: string) {
    j.Obj? && key in j.members
  }

  function TextOf(j: Json): string { if j.Str? then j.s else "" }
  function TruthOf(j: Json): bool { j.Bool? && j.b }
  function ItemsOf(j: Json): seq<Json> { if j.Arr? then j.items else [] }
  function LengthOf(j: Json): Option<nat> { if IsInteger(j) && ToInt(j) >= 0 then Some(ToInt(j)) else None }

  // ----- faults of the building blocks -----

  function RecordFaults(j: Json, required: set<string>, optional: set<string>, path: Path): (r: seq<Diagnostic>)
    ensures r == [] <==> IsRecord(j, required, optional)
    ensures |r| <= 1
  {
    if !j.Obj? then [Diagnostic(INVALID_SHAPE, path)]
    else if !(j.members.Keys <= required + optional) then [Diagnostic(UNKNOWN_PROPERTY, path)]
    else Unless(required <= j.members.Keys, MISSING_PROPERTY, path)
  }

  predicate IsArray(j: Json, min: nat, max: nat) { j.Arr? && min <= |j.items| <= max }

  predicate IsName(j: Json, pattern: string -> bool) { j.Str? && pattern(j.s) }

  function NameFaults(j: Json, pattern: string -> bool, path: Path): seq<Diagnostic> {
    Unless(IsName(j, pattern), INVALID_IDENTIFIER, path)
  }

  ghost function NameCheck(pattern: string -> bool, path: Path): (Json, int) -> seq<Diagnostic> {
    (j: Json, i: int) => NameFaults(j, pattern, Under(path, Item(i)))
  }

  predicate Primitive(j: Json) { !j.Arr? && !j.Obj? }

  /** Two equal primitives: distinct objects are never the same member of a set. */
  ghost predicate Repeats(items: seq<Json>) {
    exists i, k | 0 <= i < k < |items| :: items[i] == items[k] && Primitive(items[i])
  }

  /** `new Set(items).size` */
  function SetSizeOf(items: seq<Json>): (r: nat)
    ensures r <= |items|
    ensures r == |items| <==> !Repeats(items)
  {
    if items == [] then 0
    else
      var n := |items| - 1;
      var before := items[..n];
      assert forall i | 0 <= i < n :: before[i] == items[i];
      var fresh' := !Primitive(items[n]) || items[n] !in before;
      assert !fresh' ==> Repeats(items) by {
        if !fresh' {
          var i :| 0 <= i < n && before[i] == items[n];
          assert items[i] == items[n];
        }
      }
      assert Repeats(before) ==> Repeats(items) by {
        if Repeats(before) {
          var i, k :| 0 <= i < k < |before| && before[i] == before[k] && Primitive(before[i]);
          assert items[i] == items[k];
        }
      }
      assert Repeats(items) ==> !fresh' || Repeats(before) by {
        if Repeats(items) {
          var i, k :| 0 <= i < k < |items| && items[i] == items[k] && Primitive(items[i]);
          if k < n { assert before[i] == before[k]; } else { assert before[i] == items[n]; }
        }
      }
      SetSizeOf(before) + if fresh' then 1 else 0
  }

  ghost function FieldListFaults(j: Json, path: Path): seq<Diagnostic> {
    if !IsArray(j, 1, 128) then [Diagnostic(INVALID_ARRAY, path)]
    else Each(NameCheck(FieldName, path), j.items) + Unless(!Repeats(j.items), DUPLICATE_KEY_FIELD, path)
  }

  // ----- faults of a field -----

  function ScalarText(s: Scalar): string {
    match s case StringType => "string" case BooleanType => "boolean" case Int32Type => "int32" case UuidType => "uuid"
  }

  function ScalarOf(j: Json): Option<Scalar> {
    if j == Str("string") then Some(StringType)
    else if j == Str("boolean") then Some(BooleanType)
    else if j == Str("int32") then Some(Int32Type)
    else if j == Str("uuid") then Some(UuidType)
    else None
  }

  predicate LengthAllowed(j: Json, key: string) {
    Has(j, key) ==>
      && Get(j, "type") == Str("string")
      && IsInteger(Get(j, key)) && 0 <= ToInt(Get(j, key)) <= MAX_LENGTH
  }

  predicate LengthsAgree(j: Json) {
    var (min, max) := (Get(j, "minLength"), Get(j, "maxLength"));
    IsInteger(min) && IsInteger(max) ==> ToInt(min) <= ToInt(max)
  }

  const FIELD_KEYS := {"name", "type", "required", "nullable"}
  const LENGTH_KEYS := {"minLength", "maxLength"}

  function FieldFaults(j: Json, path: Path): seq<Diagnostic> {
    var shape := RecordFaults(j, FIELD_KEYS, LENGTH_KEYS, path);
    if shape != [] then shape
    else
      NameFaults(Get(j, "name"), FieldName, Under(path, AtName)) +
      Unless(ScalarOf(Get(j, "type")).Some?, UNSUPPORTED_TYPE, Under(path, AtType)) +
      Unless(Get(j, "required").Bool?, INVALID_BOOLEAN, Under(path, AtRequired)) +
      Unless(Get(j, "nullable").Bool?, INVALID_BOOLEAN, Under(path, AtNullable)) +
      Unless(LengthAllowed(j, "minLength"), INVALID_LENGTH, Under(path, AtMinLength)) +
      Unless(LengthAllowed(j, "maxLength"), INVALID_LENGTH, Under(path, AtMaxLength)) +
      Unless(LengthsAgree(j), CONTRADICTORY_LENGTH, path)
  }

  ghost function FieldCheck(path: Path): (Json, int) -> seq<Diagnostic> {
    (j: Json, i: int) => FieldFaults(j, Under(path, Item(i)))
  }

  // ----- faults of a storage -----

  const COLUMN_KEYS := {"field", "name"}

  function ColumnFaults(j: Json, path: Path): seq<Diagnostic> {
    var shape := RecordFaults(j, COLUMN_KEYS, {}, path);
    if shape != [] then shape
    else
      NameFaults(Get(j, "field"), FieldName, Under(path, AtField)) +
      NameFaults(Get(j, "name"), SqlName, Under(path, AtName))
  }

  ghost function ColumnCheck(path: Path): (Json, int) -> seq<Diagnostic> {
    (j: Json, i: int) => ColumnFaults(j, Under(path, Item(i)))
  }

  function ActionOf(j: Json): Option<DeleteAction> {
    if j == Str("restrict") then Some(Restrict)
    else if j == Str("cascade") then Some(Cascade)
    else if j == Str("setNull") then Some(SetNull)
    else None
  }

  const FOREIGN_KEYS := {"fields", "references", "onDelete"}
  const REFERENCE_KEYS := {"model", "fields"}

  ghost function ReferenceFaults(j: Json, path: Path): seq<Diagnostic> {
    var shape := RecordFaults(j, REFERENCE_KEYS, {}, path);
    if shape != [] then shape
    else
      NameFaults(Get(j, "model"), ModelName, Under(path, AtModel)) +
      FieldListFaults(Get(j, "fields"), Under(path, AtFields))
  }

  ghost function ForeignFaults(j: Json, path: Path): seq<Diagnostic> {
    var shape := RecordFaults(j, FOREIGN_KEYS, {}, path);
    if shape != [] then shape
    else
      FieldListFaults(Get(j, "fields"), Under(path, AtFields)) +
      ReferenceFaults(Get(j, "references"), Under(path, AtReferences)) +
      Unless(ActionOf(Get(j, "onDelete")).Some?, UNSUPPORTED_DELETE_ACTION, Under(path, AtOnDelete))
  }

  ghost function KeyCheck(path: Path): (Json, int) -> seq<Diagnostic> {
    (j: Json, i: int) => FieldListFaults(j, Under(path, Item(i)))
  }

  ghost function ForeignCheck(path: Path): (Json, int) -> seq<Diagnostic> {
    (j: Json, i: int) => ForeignFaults(j, Under(path, Item(i)))
  }

  /** The faults of an array: its size, or else those of its items. */
  ghost function ListFaults(check: (Json, int) -> seq<Diagnostic>, j: Json, min: nat, max: nat, path: Path): seq<Diagnostic> {
    if !IsArray(j, min, max) then [Diagnostic(INVALID_ARRAY, path)] else Each(check, j.items)
  }

  const STORAGE_KEYS := {"schema", "table", "columns", "primaryKey", "uniqueKeys", "foreignKeys"}

  ghost function StorageFaults(j: Json, path: Path): seq<Diagnostic> {
    var shape := RecordFaults(j, STORAGE_KEYS, {}, path);
    if shape != [] then shape
    else
      NameFaults(Get(j, "schema"), SqlName, Under(path, AtSchema)) +
      NameFaults(Get(j, "table"), SqlName, Under(path, AtTable)) +
      ListFaults(ColumnCheck(Under(path, AtColumns)), Get(j, "columns"), 1, 128, Under(path, AtColumns)) +
      FieldListFaults(Get(j, "primaryKey"), Under(path, AtPrimaryKey)) +
      ListFaults(KeyCheck(Under(path, AtUniqueKeys)), Get(j, "uniqueKeys"), 0, 64, Under(path, AtUniqueKeys)) +
      ListFaults(ForeignCheck(Under(path, AtForeignKeys)), Get(j, "foreignKeys"), 0, 64, Under(path, AtForeignKeys))
  }

  // ----- faults of a model and of a document -----

  const MODEL_KEYS := {"name", "fields"}

  ghost function ModelFaults(j: Json, path: Path): seq<Diagnostic> {
    var shape := RecordFaults(j, MODEL_KEYS, {"storage"}, path);
    if shape != [] then shape
    else
      NameFaults(Get(j, "name"), ModelName, Under(path, AtName)) +
      ListFaults(FieldCheck(Under(path, AtFields)), Get(j, "fields"), 1, 128, Under(path, AtFields)) +
      if Has(j, "storage") then StorageFaults(Get(j, "storage"), Under(path, AtStorage)) else []
  }

  ghost function ModelCheck(path: Path): (Json, int) -> seq<Diagnostic> {
    (j: Json, i: int) => ModelFaults(j, Under(path, Item(i)))
  }

  const DOCUMENT_KEYS := {"version", "models"}

  ghost function ShapeFaults(j: Json): seq<Diagnostic> {
    var shape := RecordFaults(j, DOCUMENT_KEYS, {}, Root);
    if shape != [] then shape
    else
      Unless(Get(j, "version") == Str(VERSION), UNSUPPORTED_VERSION, Under(Root, AtVersion)) +
      ListFaults(ModelCheck(Under(Root, AtModels)), Get(j, "models"), 1, 64, Under(Root, AtModels))
  }

  // ----- the JSON form of a document, and reading it back -----

  function EncodeNames(names: seq<string>): Json { Arr(Map(EncodeText, names)) }
  function EncodeText(s: string): Json { Str(s) }

  function EncodeLength(key: string, length: Option<nat>): map<string, Json> {
    if length.Some? then map[key := Num(length.value as real)] else map[]
  }

  function EncodeField(f: Field): Json {
    Obj(map["name" := Str(f.name), "type" := Str(ScalarText(f.scalar)),
            "required" := Bool(f.required), "nullable" := Bool(f.nullable)] +
        EncodeLength("minLength", f.minLength) + EncodeLength("maxLength", f.maxLength))
  }

  function EncodeColumn(c: Column): Json { Obj(map["field" := Str(c.field), "name" := Str(c.name)]) }

  function EncodeForeign(k: ForeignKey): Json {
    Obj(map["fields" := EncodeNames(k.fields),
            "references" := EncodeReference(k),
            "onDelete" := Str(ActionText(k.onDelete))])
  }

  function EncodeStorage(s: Storage): Json {
    Obj(map["schema" := Str(s.schema), "table" := Str(s.table), "columns" := Arr(Map(EncodeColumn, s.columns)),
            "primaryKey" := EncodeNames(s.primaryKey), "uniqueKeys" := Arr(Map(EncodeNames, s.uniqueKeys)),
            "foreignKeys" := Arr(Map(EncodeForeign, s.foreignKeys))])
  }

  function EncodeModel(m: Model): Json {
    Obj(map["name" := Str(m.name), "fields" := Arr(Map(EncodeField, m.fields))] +
        Optional("storage", if m.storage.Some? then EncodeStorage(m.storage.value) else Null, m.storage.Some?))
  }

  function Encode(d: Document): Json {
    Obj(map["version" := Str(VERSION), "models" := Arr(Map(EncodeModel, d))])
  }

  function DecodeNames(j: Json): seq<string> { Map(TextOf, ItemsOf(j)) }

  function DecodeField(j: Json): Field {
    var scalar := ScalarOf(Get(j, "type"));
    Field(TextOf(Get(j, "name")), if scalar.Some? then scalar.value else StringType,
          TruthOf(Get(j, "required")), TruthOf(Get(j, "nullable")),
          LengthOf(Get(j, "minLength")), LengthOf(Get(j, "maxLength")))
  }

  function DecodeColumn(j: Json): Column { Column(TextOf(Get(j, "field")), TextOf(Get(j, "name"))) }

  function DecodeForeign(j: Json): ForeignKey {
    var (target, action) := (Get(j, "references"), ActionOf(Get(j, "onDelete")));
    ForeignKey(DecodeNames(Get(j, "fields")), TextOf(Get(target, "model")), DecodeNames(Get(target, "fields")),
               if action.Some? then action.value else Restrict)
  }

  function DecodeStorage(j: Json): Storage {
    Storage(TextOf(Get(j, "schema")), TextOf(Get(j, "table")), Map(DecodeColumn, ItemsOf(Get(j, "columns"))),
            DecodeNames(Get(j, "primaryKey")), Map(DecodeNames, ItemsOf(Get(j, "uniqueKeys"))),
            Map(DecodeForeign, ItemsOf(Get(j, "foreignKeys"))))
  }

  function DecodeModel(j: Json): Model {
    Model(TextOf(Get(j, "name")), Map(DecodeField, ItemsOf(Get(j, "fields"))),
          if Has(j, "storage") then Some(DecodeStorage(Get(j, "storage"))) else None)
  }

  function Decode(j: Json): Document { Map(DecodeModel, ItemsOf(Get(j, "models"))) }

  // ----- a piece without faults is the JSON form of a valid piece, and the other way round -----

  // A record is its members, key by key.

  lemma ColumnRecord(a: Json, b: Json)
    ensures var j := Obj(map["field" := a, "name" := b]);
            IsRecord(j, COLUMN_KEYS, {}) && Get(j, "field") == a && Get(j, "name") == b
  {}

  lemma ColumnMembers(j: Json)
    requires IsRecord(j, COLUMN_KEYS, {})
    ensures j == Obj(map["field" := Get(j, "field"), "name" := Get(j, "name")])
  {}

  lemma ReferenceRecord(a: Json, b: Json)
    ensures var j := Obj(map["model" := a, "fields" := b]);
            IsRecord(j, REFERENCE_KEYS, {}) && Get(j, "model") == a && Get(j, "fields") == b
  {}

  lemma ReferenceMembers(j: Json)
    requires IsRecord(j, REFERENCE_KEYS, {})
    ensures j == Obj(map["model" := Get(j, "model"), "fields" := Get(j, "fields")])
  {}

  lemma ForeignRecord(a: Json, b: Json, c: Json)
    ensures var j := Obj(map["fields" := a, "references" := b, "onDelete" := c]);
            IsRecord(j, FOREIGN_KEYS, {}) && Get(j, "fields") == a && Get(j, "references") == b && Get(j, "onDelete") == c
  {}

  lemma ForeignMembers(j: Json)
    requires IsRecord(j, FOREIGN_KEYS, {})
    ensures j == Obj(map["fields" := Get(j, "fields"), "references" := Get(j, "references"), "onDelete" := Get(j, "onDelete")])
  {}

  lemma StorageRecord(a: Json, b: Json, c: Json, d: Json, e: Json, f: Json)
    ensures var j := Obj(map["schema" := a, "table" := b, "columns" := c, "primaryKey" := d, "uniqueKeys" := e, "foreignKeys" := f]);
            && IsRecord(j, STORAGE_KEYS, {}) && Get(j, "schema") == a && Get(j, "table") == b && Get(j, "columns") == c
            && Get(j, "primaryKey") == d && Get(j, "uniqueKeys") == e && Get(j, "foreignKeys") == f
  {}

  lemma StorageMembers(j: Json)
    requires IsRecord(j, STORAGE_KEYS, {})
    ensures j == Obj(map["schema" := Get(j, "schema"), "table" := Get(j, "table"), "columns" := Get(j, "columns"),
                         "primaryKey" := Get(j, "primaryKey"), "uniqueKeys" := Get(j, "uniqueKeys"),
                         "foreignKeys" := Get(j, "foreignKeys")])
  {}

  function Optional(key: string, j: Json, present: bool): map<string, Json> {
    if present then map[key := j] else map[]
  }

  lemma ModelRecord(a: Json, b: Json, c: Json, stored: bool)
    ensures var j := Obj(map["name" := a, "fields" := b] + Optional("storage", c, stored));
            && IsRecord(j, MODEL_KEYS, {"storage"}) && Get(j, "name") == a && Get(j, "fields") == b
            && Has(j, "storage") == stored && (stored ==> Get(j, "storage") == c)
  {}

  lemma ModelMembers(j: Json)
    requires IsRecord(j, MODEL_KEYS, {"storage"})
    ensures j == Obj(map["name" := Get(j, "name"), "fields" := Get(j, "fields")] +
                     Optional("storage", Get(j, "storage"), Has(j, "storage")))
  {
    assert j.members == map["name" := Get(j, "name"), "fields" := Get(j, "fields")] +
                        Optional("storage", Get(j, "storage"), Has(j, "storage"));
  }

  lemma DocumentRecord(a: Json, b: Json)
    ensures var j := Obj(map["version" := a, "models" := b]);
            IsRecord(j, DOCUMENT_KEYS, {}) && Get(j, "version") == a && Get(j, "models") == b
  {}

  lemma DocumentMembers(j: Json)
    requires IsRecord(j, DOCUMENT_KEYS, {})
    ensures j == Obj(map["version" := Get(j, "version"), "models" := Get(j, "models")])
  {}

  /** An item without faults is the JSON form of what is read from it. */
  predicate Decodes<T>(
    check: (Json, int) -> seq<Diagnostic>, encode: T -> Json, decode: Json -> T, ok: T -> bool, x: Json, i: int)
  {
    check(x, i) == [] ==> ok(decode(x)) && encode(decode(x)) == x
  }

  lemma ListDecodes<T>(
    check: (Json, int) -> seq<Diagnostic>, encode: T -> Json, decode: Json -> T, ok: T -> bool,
    j: Json, min: nat, max: nat, path: Path)
    requires ListFaults(check, j, min, max, path) == []
    requires forall i | 0 <= i < |ItemsOf(j)| :: Decodes(check, encode, decode, ok, ItemsOf(j)[i], i)
    ensures j.Arr? && min <= |Map(decode, j.items)| <= max
    ensures forall t | t in Map(decode, j.items) :: ok(t)
    ensures Arr(Map(encode, Map(decode, j.items))) == j
  {
    EachClean(check, j.items);
    forall i | 0 <= i < |j.items| ensures ok(decode(j.items[i])) && encode(decode(j.items[i])) == j.items[i] {
      assert Decodes(check, encode, decode, ok, ItemsOf(j)[i], i);
    }
    assert Map(encode, Map(decode, j.items)) == j.items;
  }

  /** The JSON form of an item has no faults and is read back. */
  predicate Encodes<T(==)>(check: (Json, int) -> seq<Diagnostic>, encode: T -> Json, decode: Json -> T, t: T, i: int) {
    check(encode(t), i) == [] && decode(encode(t)) == t
  }

  lemma ListEncodes<T>(
    check: (Json, int) -> seq<Diagnostic>, encode: T -> Json, decode: Json -> T,
    s: seq<T>, min: nat, max: nat, path: Path)
    requires min <= |s| <= max
    requires forall i | 0 <= i < |s| :: Encodes(check, encode, decode, s[i], i)
    ensures ListFaults(check, Arr(Map(encode, s)), min, max, path) == []
    ensures Map(decode, Map(encode, s)) == s
  {
    var items := Map(encode, s);
    forall i | 0 <= i < |items| ensures check(items[i], i) == [] && decode(items[i]) == s[i] {
      assert Encodes(check, encode, decode, s[i], i);
    }
    EachClean(check, items);
    assert Map(decode, items) == s;
  }

  lemma TextsDistinct(items: seq<Json>)
    requires forall i | 0 <= i < |items| :: items[i].Str?
    ensures Repeats(items) <==> !NoDup(Map(TextOf, items))
  {
    var names := Map(TextOf, items);
    if Repeats(items) {
      var i, k :| 0 <= i < k < |items| && items[i] == items[k] && Primitive(items[i]);
      assert names[i] == names[k];
    }
    if !NoDup(names) {
      var i, k :| 0 <= i < k < |names| && names[i] == names[k];
      assert items[i] == items[k] && Primitive(items[i]);
    }
  }

  lemma NamesClean(items: seq<Json>, path: Path)
    ensures Each(NameCheck(FieldName, path), items) == [] <==> forall i | 0 <= i < |items| :: IsName(items[i], FieldName)
  {
    EachClean(NameCheck(FieldName, path), items);
    forall i | 0 <= i < |items| ensures NameCheck(FieldName, path)(items[i], i) == [] <==> IsName(items[i], FieldName) {}
  }

  lemma NamesDecode(j: Json, path: Path)
    requires FieldListFaults(j, path) == []
    ensures FieldListOk(DecodeNames(j)) && EncodeNames(DecodeNames(j)) == j
  {
    NamesClean(j.items, path);
    TextsDistinct(j.items);
    assert Map(EncodeText, Map(TextOf, j.items)) == j.items;
  }

  lemma NamesEncode(names: seq<string>, path: Path)
    requires FieldListOk(names)
    ensures FieldListFaults(EncodeNames(names), path) == [] && DecodeNames(EncodeNames(names)) == names
  {
    var items := Map(EncodeText, names);
    assert Map(TextOf, items) == names;
    forall i | 0 <= i < |items| ensures IsName(items[i], FieldName) {
      assert names[i] in names;
    }
    NamesClean(items, path);
    TextsDistinct(items);
  }

  lemma LengthDecodes(j: Json, key: string)
    requires j.Obj? && LengthAllowed(j, key)
    ensures key in j.members <==> LengthOf(Get(j, key)).Some?
    ensures key in j.members ==> Num(LengthOf(Get(j, key)).value as real) == j.members[key]
  {
    if key !in j.members {
      assert Get(j, key) == Null;
    }
  }

  lemma FieldRead(j: Json, path: Path)
    requires FieldFaults(j, path) == []
    ensures IsRecord(j, FIELD_KEYS, LENGTH_KEYS) && IsName(j.members["name"], FieldName)
    ensures ScalarOf(j.members["type"]).Some? && j.members["required"].Bool? && j.members["nullable"].Bool?
    ensures LengthAllowed(j, "minLength") && LengthAllowed(j, "maxLength") && LengthsAgree(j)
  {}

  lemma FieldMembers(j: Json)
    requires IsRecord(j, FIELD_KEYS, LENGTH_KEYS)
    ensures j == Obj(map["name" := Get(j, "name"), "type" := Get(j, "type"), "required" := Get(j, "required"), "nullable" := Get(j, "nullable")] +
                     Optional("minLength", Get(j, "minLength"), Has(j, "minLength")) +
                     Optional("maxLength", Get(j, "maxLength"), Has(j, "maxLength")))
  {
    assert j.members == map["name" := Get(j, "name"), "type" := Get(j, "type"), "required" := Get(j, "required"), "nullable" := Get(j, "nullable")] +
                        Optional("minLength", Get(j, "minLength"), Has(j, "minLength")) +
                        Optional("maxLength", Get(j, "maxLength"), Has(j, "maxLength"));
  }

  lemma FieldRecord(a: Json, b: Json, c: Json, d: Json, min: Json, max: Json, hasMin: bool, hasMax: bool)
    ensures var j := Obj(map["name" := a, "type" := b, "required" := c, "nullable" := d] +
                         Optional("minLength", min, hasMin) + Optional("maxLength", max, hasMax));
            && IsRecord(j, FIELD_KEYS, LENGTH_KEYS)
            && Get(j, "name") == a && Get(j, "type") == b && Get(j, "required") == c && Get(j, "nullable") == d
            && Has(j, "minLength") == hasMin && (hasMin ==> Get(j, "minLength") == min)
            && Has(j, "maxLength") == hasMax && (hasMax ==> Get(j, "maxLength") == max)
  {
  }

  lemma LengthOptional(j: Json, key: string)
    requires j.Obj? && LengthAllowed(j, key)
    ensures EncodeLength(key, LengthOf(Get(j, key))) == Optional(key, Get(j, key), Has(j, key))
  {
    LengthDecodes(j, key);
  }

  lemma ScalarReads(j: Json)
    requires ScalarOf(j).Some?
    ensures Str(ScalarText(ScalarOf(j).value)) == j
  {
  }

  lemma FieldDecodes(j: Json, path: Path)
    requires FieldFaults(j, path) == []
    ensures FieldOk(DecodeField(j)) && EncodeField(DecodeField(j)) == j
  {
    FieldRead(j, path);
    LengthsDecode(j);
    FieldMembers(j);
    LengthOptional(j, "minLength");
    LengthOptional(j, "maxLength");
    ScalarReads(Get(j, "type"));
  }

  lemma LengthsDecode(j: Json)
    requires IsRecord(j, FIELD_KEYS, LENGTH_KEYS) && IsName(Get(j, "name"), FieldName)
    requires ScalarOf(Get(j, "type")).Some?
    requires LengthAllowed(j, "minLength") && LengthAllowed(j, "maxLength") && LengthsAgree(j)
    ensures FieldOk(DecodeField(j))
  {
    LengthDecodes(j, "minLength");
    LengthDecodes(j, "maxLength");
  }

  function LengthJson(length: Option<nat>): Json { Num(if length.Some? then length.value as real else 0.0) }

  lemma LengthWritten(key: string, length: Option<nat>)
    ensures EncodeLength(key, length) == Optional(key, LengthJson(length), length.Some?)
    ensures length.Some? ==> IsInteger(LengthJson(length)) && ToInt(LengthJson(length)) == length.value
  {
  }

  lemma ScalarWrites(s: Scalar)
    ensures ScalarOf(Str(ScalarText(s))) == Some(s)
  {
  }

  lemma FieldEncodes(f: Field, path: Path)
    requires FieldOk(f)
    ensures FieldFaults(EncodeField(f), path) == [] && DecodeField(EncodeField(f)) == f
  {
    LengthWritten("minLength", f.minLength);
    LengthWritten("maxLength", f.maxLength);
    ScalarWrites(f.scalar);
    FieldRecord(Str(f.name), Str(ScalarText(f.scalar)), Bool(f.required), Bool(f.nullable),
                LengthJson(f.minLength), LengthJson(f.maxLength), f.minLength.Some?, f.maxLength.Some?);
  }

  lemma ColumnDecodes(j: Json, path: Path)
    requires ColumnFaults(j, path) == []
    ensures ColumnOk(DecodeColumn(j)) && EncodeColumn(DecodeColumn(j)) == j
  {
    ColumnMembers(j);
  }

  lemma ReferenceDecodes(j: Json, path: Path)
    requires ReferenceFaults(j, path) == []
    ensures ModelName(TextOf(Get(j, "model"))) && FieldListOk(DecodeNames(Get(j, "fields")))
    ensures Obj(map["model" := Str(TextOf(Get(j, "model"))), "fields" := EncodeNames(DecodeNames(Get(j, "fields")))]) == j
  {
    NamesDecode(Get(j, "fields"), Under(path, AtFields));
    ReferenceMembers(j);
  }

  lemma ForeignDecodes(j: Json, path: Path)
    requires ForeignFaults(j, path) == []
    ensures ForeignKeyOk(DecodeForeign(j)) && EncodeForeign(DecodeForeign(j)) == j
  {
    NamesDecode(Get(j, "fields"), Under(path, AtFields));
    ReferenceDecodes(Get(j, "references"), Under(path, AtReferences));
    ForeignMembers(j);
  }

  function EncodeReference(k: ForeignKey): Json {
    Obj(map["model" := Str(k.model), "fields" := EncodeNames(k.targetFields)])
  }

  lemma ReferenceEncodes(k: ForeignKey, path: Path)
    requires ModelName(k.model) && FieldListOk(k.targetFields)
    ensures ReferenceFaults(EncodeReference(k), path) == []
    ensures Get(EncodeReference(k), "model") == Str(k.model) && DecodeNames(Get(EncodeReference(k), "fields")) == k.targetFields
  {
    ReferenceRecord(Str(k.model), EncodeNames(k.targetFields));
    NamesEncode(k.targetFields, Under(path, AtFields));
  }

  lemma ForeignClean(k: ForeignKey, path: Path)
    requires ForeignKeyOk(k)
    ensures ForeignFaults(EncodeForeign(k), path) == []
  {
    ForeignRecord(EncodeNames(k.fields), EncodeReference(k), Str(ActionText(k.onDelete)));
    ReferenceEncodes(k, Under(path, AtReferences));
    NamesEncode(k.fields, Under(path, AtFields));
    ActionReads(k.onDelete);
    NoForeignFaults(EncodeForeign(k), path);
  }

  lemma NoForeignFaults(j: Json, path: Path)
    requires IsRecord(j, FOREIGN_KEYS, {}) && FieldListFaults(Get(j, "fields"), Under(path, AtFields)) == []
    requires ReferenceFaults(Get(j, "references"), Under(path, AtReferences)) == [] && ActionOf(Get(j, "onDelete")).Some?
    ensures ForeignFaults(j, path) == []
  {
  }

  lemma ForeignReads(k: ForeignKey)
    requires ForeignKeyOk(k)
    ensures DecodeForeign(EncodeForeign(k)) == k
  {
    ForeignRecord(EncodeNames(k.fields), EncodeReference(k), Str(ActionText(k.onDelete)));
    ReferenceEncodes(k, Root);
    NamesEncode(k.fields, Root);
    ActionReads(k.onDelete);
  }

  lemma ActionReads(a: DeleteAction)
    ensures ActionOf(Str(ActionText(a))) == Some(a)
  {
  }

  lemma ForeignEncodes(k: ForeignKey, path: Path)
    requires ForeignKeyOk(k)
    ensures ForeignFaults(EncodeForeign(k), path) == [] && DecodeForeign(EncodeForeign(k)) == k
  {
    ForeignClean(k, path);
    ForeignReads(k);
  }

  lemma ColumnsDecode(j: Json, path: Path)
    requires ListFaults(ColumnCheck(path), j, 1, 128, path) == []
    ensures j.Arr? && 1 <= |Map(DecodeColumn, j.items)| <= 128
    ensures forall c | c in Map(DecodeColumn, j.items) :: ColumnOk(c)
    ensures Arr(Map(EncodeColumn, Map(DecodeColumn, j.items))) == j
  {
    forall i | 0 <= i < |ItemsOf(j)| ensures Decodes(ColumnCheck(path), EncodeColumn, DecodeColumn, ColumnOk, ItemsOf(j)[i], i) {
      var x := ItemsOf(j)[i];
      if ColumnCheck(path)(x, i) == [] {
        ColumnDecodes(x, Under(path, Item(i)));
      }
    }
    ListDecodes(ColumnCheck(path), EncodeColumn, DecodeColumn, ColumnOk, j, 1, 128, path);
  }

  lemma ColumnEncodes(c: Column, path: Path)
    requires ColumnOk(c)
    ensures ColumnFaults(EncodeColumn(c), path) == [] && DecodeColumn(EncodeColumn(c)) == c
  {
    ColumnRecord(Str(c.field), Str(c.name));
  }

  lemma ColumnsEncode(s: seq<Column>, path: Path)
    requires 1 <= |s| <= 128 && forall c | c in s :: ColumnOk(c)
    ensures ListFaults(ColumnCheck(path), Arr(Map(EncodeColumn, s)), 1, 128, path) == []
    ensures Map(DecodeColumn, Map(EncodeColumn, s)) == s
  {
    forall i | 0 <= i < |s| ensures Encodes(ColumnCheck(path), EncodeColumn, DecodeColumn, s[i], i) {
      assert s[i] in s;
      ColumnEncodes(s[i], Under(path, Item(i)));
    }
    ListEncodes(ColumnCheck(path), EncodeColumn, DecodeColumn, s, 1, 128, path);
  }

  lemma KeysDecode(j: Json, path: Path)
    requires ListFaults(KeyCheck(path), j, 0, 64, path) == []
    ensures j.Arr? && |Map(DecodeNames, j.items)| <= 64
    ensures forall k | k in Map(DecodeNames, j.items) :: FieldListOk(k)
    ensures Arr(Map(EncodeNames, Map(DecodeNames, j.items))) == j
  {
    forall i | 0 <= i < |ItemsOf(j)| ensures Decodes(KeyCheck(path), EncodeNames, DecodeNames, FieldListOk, ItemsOf(j)[i], i) {
      var x := ItemsOf(j)[i];
      if KeyCheck(path)(x, i) == [] {
        NamesDecode(x, Under(path, Item(i)));
      }
    }
    ListDecodes(KeyCheck(path), EncodeNames, DecodeNames, FieldListOk, j, 0, 64, path);
  }

  lemma KeysEncode(s: seq<seq<string>>, path: Path)
    requires |s| <= 64 && forall k | k in s :: FieldListOk(k)
    ensures ListFaults(KeyCheck(path), Arr(Map(EncodeNames, s)), 0, 64, path) == []
    ensures Map(DecodeNames, Map(EncodeNames, s)) == s
  {
    forall i | 0 <= i < |s| ensures Encodes(KeyCheck(path), EncodeNames, DecodeNames, s[i], i) {
      assert s[i] in s;
      NamesEncode(s[i], Under(path, Item(i)));
    }
    ListEncodes(KeyCheck(path), EncodeNames, DecodeNames, s, 0, 64, path);
  }

  lemma ForeignsDecode(j: Json, path: Path)
    requires ListFaults(ForeignCheck(path), j, 0, 64, path) == []
    ensures j.Arr? && |Map(DecodeForeign, j.items)| <= 64
    ensures forall k | k in Map(DecodeForeign, j.items) :: ForeignKeyOk(k)
    ensures Arr(Map(EncodeForeign, Map(DecodeForeign, j.items))) == j
  {
    forall i | 0 <= i < |ItemsOf(j)| ensures Decodes(ForeignCheck(path), EncodeForeign, DecodeForeign, ForeignKeyOk, ItemsOf(j)[i], i) {
      var x := ItemsOf(j)[i];
      if ForeignCheck(path)(x, i) == [] {
        ForeignDecodes(x, Under(path, Item(i)));
      }
    }
    ListDecodes(ForeignCheck(path), EncodeForeign, DecodeForeign, ForeignKeyOk, j, 0, 64, path);
  }

  lemma ForeignsEncode(s: seq<ForeignKey>, path: Path)
    requires |s| <= 64 && forall k | k in s :: ForeignKeyOk(k)
    ensures ListFaults(ForeignCheck(path), Arr(Map(EncodeForeign, s)), 0, 64, path) == []
    ensures Map(DecodeForeign, Map(EncodeForeign, s)) == s
  {
    forall i | 0 <= i < |s| ensures Encodes(ForeignCheck(path), EncodeForeign, DecodeForeign, s[i], i) {
      assert s[i] in s;
      ForeignEncodes(s[i], Under(path, Item(i)));
    }
    ListEncodes(ForeignCheck(path), EncodeForeign, DecodeForeign, s, 0, 64, path);
  }

  lemma FieldsDecode(j: Json, path: Path)
    requires ListFaults(FieldCheck(path), j, 1, 128, path) == []
    ensures j.Arr? && 1 <= |Map(DecodeField, j.items)| <= 128
    ensures forall f | f in Map(DecodeField, j.items) :: FieldOk(f)
    ensures Arr(Map(EncodeField, Map(DecodeField, j.items))) == j
  {
    forall i | 0 <= i < |ItemsOf(j)| ensures Decodes(FieldCheck(path), EncodeField, DecodeField, FieldOk, ItemsOf(j)[i], i) {
      var x := ItemsOf(j)[i];
      if FieldCheck(path)(x, i) == [] {
        FieldDecodes(x, Under(path, Item(i)));
      }
    }
    ListDecodes(FieldCheck(path), EncodeField, DecodeField, FieldOk, j, 1, 128, path);
  }

  lemma FieldsEncode(s: seq<Field>, path: Path)
    requires 1 <= |s| <= 128 && forall f | f in s :: FieldOk(f)
    ensures ListFaults(FieldCheck(path), Arr(Map(EncodeField, s)), 1, 128, path) == []
    ensures Map(DecodeField, Map(EncodeField, s)) == s
  {
    forall i | 0 <= i < |s| ensures Encodes(FieldCheck(path), EncodeField, DecodeField, s[i], i) {
      assert s[i] in s;
      FieldEncodes(s[i], Under(path, Item(i)));
    }
    ListEncodes(FieldCheck(path), EncodeField, DecodeField, s, 1, 128, path);
  }

  lemma StorageDecodes(j: Json, path: Path)
    requires StorageFaults(j, path) == []
    ensures StorageOk(DecodeStorage(j)) && EncodeStorage(DecodeStorage(j)) == j
  {
    ColumnsDecode(Get(j, "columns"), Under(path, AtColumns));
    NamesDecode(Get(j, "primaryKey"), Under(path, AtPrimaryKey));
    KeysDecode(Get(j, "uniqueKeys"), Under(path, AtUniqueKeys));
    ForeignsDecode(Get(j, "foreignKeys"), Under(path, AtForeignKeys));
    StorageMembers(j);
  }

  lemma StorageClean(s: Storage, path: Path)
    requires StorageOk(s)
    ensures StorageFaults(EncodeStorage(s), path) == []
  {
    StorageRecord(Str(s.schema), Str(s.table), Arr(Map(EncodeColumn, s.columns)), EncodeNames(s.primaryKey),
                  Arr(Map(EncodeNames, s.uniqueKeys)), Arr(Map(EncodeForeign, s.foreignKeys)));
    StorageListsEncode(s, path);
    NamesEncode(s.primaryKey, Under(path, AtPrimaryKey));
  }

  lemma StorageReads(s: Storage)
    requires StorageOk(s)
    ensures DecodeStorage(EncodeStorage(s)) == s
  {
    StorageRecord(Str(s.schema), Str(s.table), Arr(Map(EncodeColumn, s.columns)), EncodeNames(s.primaryKey),
                  Arr(Map(EncodeNames, s.uniqueKeys)), Arr(Map(EncodeForeign, s.foreignKeys)));
    StorageListsEncode(s, Root);
    NamesEncode(s.primaryKey, Root);
  }

  lemma StorageEncodes(s: Storage, path: Path)
    requires StorageOk(s)
    ensures StorageFaults(EncodeStorage(s), path) == [] && DecodeStorage(EncodeStorage(s)) == s
  {
    StorageClean(s, path);
    StorageReads(s);
  }

  lemma StorageListsEncode(s: Storage, path: Path)
    requires StorageOk(s)
    ensures ListFaults(ColumnCheck(Under(path, AtColumns)), Arr(Map(EncodeColumn, s.columns)), 1, 128, Under(path, AtColumns)) == []
    ensures ListFaults(KeyCheck(Under(path, AtUniqueKeys)), Arr(Map(EncodeNames, s.uniqueKeys)), 0, 64, Under(path, AtUniqueKeys)) == []
    ensures ListFaults(ForeignCheck(Under(path, AtForeignKeys)), Arr(Map(EncodeForeign, s.foreignKeys)), 0, 64, Under(path, AtForeignKeys)) == []
    ensures Map(DecodeColumn, Map(EncodeColumn, s.columns)) == s.columns
    ensures Map(DecodeNames, Map(EncodeNames, s.uniqueKeys)) == s.uniqueKeys
    ensures Map(DecodeForeign, Map(EncodeForeign, s.foreignKeys)) == s.foreignKeys
  {
    ColumnsEncode(s.columns, Under(path, AtColumns));
    KeysEncode(s.uniqueKeys, Under(path, AtUniqueKeys));
    ForeignsEncode(s.foreignKeys, Under(path, AtForeignKeys));
  }

  lemma ModelDecodes(j: Json, path: Path)
    requires ModelFaults(j, path) == []
    ensures ModelOk(DecodeModel(j)) && EncodeModel(DecodeModel(j)) == j
  {
    FieldsDecode(Get(j, "fields"), Under(path, AtFields));
    if Has(j, "storage") {
      StorageDecodes(Get(j, "storage"), Under(path, AtStorage));
    }
    ModelMembers(j);
  }

  lemma ModelEncodes(m: Model, path: Path)
    requires ModelOk(m)
    ensures ModelFaults(EncodeModel(m), path) == [] && DecodeModel(EncodeModel(m)) == m
  {
    ModelRecord(Str(m.name), Arr(Map(EncodeField, m.fields)),
                if m.storage.Some? then EncodeStorage(m.storage.value) else Null, m.storage.Some?);
    FieldsEncode(m.fields, Under(path, AtFields));
    if m.storage.Some? {
      StorageEncodes(m.storage.value, Under(path, AtStorage));
    }
  }

  /** A document is read back from its JSON form, which has no shape faults. */
  lemma DocumentEncodes(d: Document)
    requires DeclarationsOk(d)
    ensures ShapeFaults(Encode(d)) == [] && Decode(Encode(d)) == d
  {
    DocumentRecord(Str(VERSION), Arr(Map(EncodeModel, d)));
    forall i | 0 <= i < |d| ensures Encodes(ModelCheck(Under(Root, AtModels)), EncodeModel, DecodeModel, d[i], i) {
      assert d[i] in d;
      ModelEncodes(d[i], Under(Under(Root, AtModels), Item(i)));
    }
    ListEncodes(ModelCheck(Under(Root, AtModels)), EncodeModel, DecodeModel, d, 1, 64, Under(Root, AtModels));
  }

  /** JSON data without shape faults is the JSON form of the document read from it. */
  lemma DocumentDecodes(j: Json)
    requires ShapeFaults(j) == []
    ensures DeclarationsOk(Decode(j)) && Encode(Decode(j)) == j
  {
    var items := ItemsOf(Get(j, "models"));
    forall i | 0 <= i < |items| ensures Decodes(ModelCheck(Under(Root, AtModels)), EncodeModel, DecodeModel, ModelOk, items[i], i) {
      if ModelCheck(Under(Root, AtModels))(items[i], i) == [] {
        ModelDecodes(items[i], Under(Under(Root, AtModels), Item(i)));
      }
    }
    ListDecodes(ModelCheck(Under(Root, AtModels)), EncodeModel, DecodeModel, ModelOk, Get(j, "models"), 1, 64, Under(Root, AtModels));
    DocumentMembers(j);
  }
}
