/** What each relational diagnostic says of a document, declaration by declaration. */
module RelationalMeaning {
  import opened Seqs
  import opened Json
  import opened Diagnostics
  import opened Document
  import opened Relational

  // ----- paths and look-up -----

  function ModelAt(i: int): Path { Under(Under(Root, AtModels), Item(i)) }
  function StorageAt(i: int): Path { Under(ModelAt(i), AtStorage) }
  function ForeignAt(i: int, k: int): Path { Under(Under(StorageAt(i), AtForeignKeys), Item(k)) }

  /** The last field of this name, which is the one that counts. */
  predicate LastField(m: Model, name: string, i: int) {
    0 <= i < |m.fields| && m.fields[i].name == name && forall k | i < k < |m.fields| :: m.fields[k].name != name
  }

  predicate LastModel(d: Document, name: string, i: int) {
    0 <= i < |d| && d[i].name == name && forall k | i < k < |d| :: d[k].name != name
  }

  predicate Declares(m: Model, name: string) { exists f | f in m.fields :: f.name == name }

  predicate Nullable(m: Model, name: string) {
    exists i | 0 <= i < |m.fields| :: LastField(m, name, i) && m.fields[i].nullable
  }

  predicate TypesDiffer(m: Model, a: string, t: Model, b: string) {
    exists i, k | 0 <= i < |m.fields| && 0 <= k < |t.fields| :: LastField(m, a, i) && LastField(t, b, k) && m.fields[i].scalar != t.fields[k].scalar
  }

  // ----- the faults of one foreign key -----

  /** The stored model that the key references. */
  predicate Target(d: Document, k: ForeignKey, t: int) {
    LastModel(d, k.model, t) && d[t].storage.Some?
  }

  /** As many fields on either side, all of them declared. */
  predicate Paired(m: Model, k: ForeignKey, t: Model) {
    && |k.fields| == |k.targetFields|
    && AllDeclared(m, k.fields) && AllDeclared(t, k.targetFields)
  }

  predicate PairedTarget(d: Document, m: Model, k: ForeignKey, t: int) {
    Target(d, k, t) && Paired(m, k, d[t])
  }

  ghost predicate ForeignWrong(d: Document, m: Model, keys: seq<ForeignKey>, i: int, path: Path, x: Diagnostic)
    requires 0 <= i < |keys|
  {
    var k := keys[i];
    match x.code
    case DUPLICATE_FOREIGN_KEY =>
      && x.path == path
      && exists j | 0 <= j < i :: keys[j].fields == k.fields && keys[j].model == k.model && keys[j].targetFields == k.targetFields
    case UNKNOWN_REFERENCE => x.path == Under(path, AtReferences) && !exists t :: Target(d, k, t)
    case INVALID_FOREIGN_KEY => x.path == path && exists t :: Target(d, k, t) && !Paired(m, k, d[t])
    case NON_UNIQUE_REFERENCE =>
      && x.path == Under(path, AtReferences)
      && exists t :: PairedTarget(d, m, k, t) && k.targetFields != d[t].storage.value.primaryKey && k.targetFields !in d[t].storage.value.uniqueKeys
    case FOREIGN_KEY_TYPE_MISMATCH =>
      && x.path == path
      && exists t, p :: PairedTarget(d, m, k, t) && 0 <= p < |k.fields| && TypesDiffer(m, k.fields[p], d[t], k.targetFields[p])
    case INVALID_SET_NULL =>
      && x.path == path && k.onDelete == SetNull
      && (exists t :: PairedTarget(d, m, k, t)) && exists n | n in k.fields :: !Nullable(m, n)
    case _ => false
  }

  // ----- the faults of one model -----

  predicate SystemSchema(name: string) { "pg_" <= name || name == "information_schema" }
  predicate SystemColumn(name: string) { name in ["tableoid", "xmin", "cmin", "xmax", "cmax", "ctid"] }

  /** A model before this one is stored in the same table. */
  predicate TableTwice(d: Document, i: int, s: Storage) {
    exists j | 0 <= j < i && j < |d| :: d[j].storage.Some? && d[j].storage.value.schema == s.schema && d[j].storage.value.table == s.table
  }

  predicate ColumnTwice(s: Storage) {
    exists a, b | 0 <= a < b < |s.columns| :: s.columns[a].field == s.columns[b].field || s.columns[a].name == s.columns[b].name
  }

  predicate MapsField(s: Storage, name: string) { exists c | c in s.columns :: c.field == name }

  predicate MappingIncomplete(m: Model, s: Storage) {
    (exists f | f in m.fields :: !MapsField(s, f.name)) || exists c | c in s.columns :: !Declares(m, c.field)
  }

  ghost predicate KeyTwice(keys: seq<seq<string>>) {
    exists a, b | 0 <= a < b < |keys| :: SameMembers(keys[a], keys[b])
  }

  predicate AllDeclared(m: Model, names: seq<string>) { forall n | n in names :: Declares(m, n) }

  predicate SchemaWrong(d: Document, i: int, s: Storage, x: Diagnostic) {
    || (x == Diagnostic(RESERVED_SCHEMA, Under(StorageAt(i), AtSchema)) && SystemSchema(s.schema))
    || (x == Diagnostic(DUPLICATE_TABLE, StorageAt(i)) && TableTwice(d, i, s))
  }

  predicate MappingWrong(i: int, m: Model, s: Storage, x: Diagnostic) {
    || (x == Diagnostic(DUPLICATE_COLUMN, Under(StorageAt(i), AtColumns)) && ColumnTwice(s))
    || (x == Diagnostic(RESERVED_COLUMN, Under(StorageAt(i), AtColumns)) && exists c | c in s.columns :: SystemColumn(c.name))
    || (x == Diagnostic(INCOMPLETE_MAPPING, Under(StorageAt(i), AtColumns)) && MappingIncomplete(m, s))
    || (x == Diagnostic(LOSSY_PRESENCE, StorageAt(i)) && exists f | f in m.fields :: !f.required)
  }

  ghost predicate KeysWrong(i: int, m: Model, s: Storage, x: Diagnostic) {
    var keys := [s.primaryKey] + s.uniqueKeys;
    || (x == Diagnostic(DUPLICATE_KEY, StorageAt(i)) && KeyTwice(keys))
    || (x == Diagnostic(UNKNOWN_KEY_FIELD, StorageAt(i)) && exists k | k in keys :: !AllDeclared(m, k))
    || (x == Diagnostic(NULLABLE_PRIMARY_KEY, Under(StorageAt(i), AtPrimaryKey)) && exists n | n in s.primaryKey :: Nullable(m, n))
  }

  ghost predicate StoredWrong(d: Document, i: int, m: Model, s: Storage, x: Diagnostic) {
    || SchemaWrong(d, i, s, x) || MappingWrong(i, m, s, x) || KeysWrong(i, m, s, x)
    || exists k | 0 <= k < |s.foreignKeys| :: ForeignWrong(d, m, s.foreignKeys, k, ForeignAt(i, k), x)
  }

  ghost predicate ModelWrong(d: Document, i: int, m: Model, x: Diagnostic) {
    || (&& x == Diagnostic(DUPLICATE_FIELD, Under(ModelAt(i), AtFields))
        && exists a, b | 0 <= a < b < |m.fields| :: m.fields[a].name == m.fields[b].name)
    || (m.storage.Some? && StoredWrong(d, i, m, m.storage.value, x))
  }

  /** The document breaks the relational rule the code names, where the path points. */
  ghost predicate Misrelated(d: Document, x: Diagnostic) {
    || (x == Diagnostic(DUPLICATE_MODEL, Under(Root, AtModels)) && exists a, b | 0 <= a < b < |d| :: d[a].name == d[b].name)
    || exists i | 0 <= i < |d| :: ModelWrong(d, i, d[i], x)
  }

  // ----- look-up by name finds the last -----

  lemma {:induction false} IndexByLast<T>(key: T -> string, items: seq<T>, name: string) returns (i: int)
    requires name in IndexBy(key, items)
    ensures 0 <= i < |items| && items[i] == IndexBy(key, items)[name] && key(items[i]) == name
    ensures forall k | i < k < |items| :: key(items[k]) != name
  {
    var n := |items| - 1;
    if key(items[n]) == name {
      i := n;
    } else {
      i := IndexByLast(key, items[..n], name);
    }
  }

  lemma {:induction false} DeclaresIff(m: Model, name: string)
    ensures Declares(m, name) <==> name in FieldMap(m)
  {
    IndexByKeys(NameOfField, m.fields);
    if name in FieldMap(m) {
      assert FieldMap(m)[name] in m.fields;
    }
    if f :| f in m.fields && f.name == name {
      MapIn(NameOfField, m.fields, f);
    }
  }

  lemma {:induction false} LastFieldIs(m: Model, name: string) returns (i: int)
    requires name in FieldMap(m)
    ensures LastField(m, name, i) && m.fields[i] == FieldMap(m)[name]
  {
    i := IndexByLast(NameOfField, m.fields, name);
  }

  lemma {:induction false} NullableIff(m: Model, name: string)
    ensures Nullable(m, name) <==> name in FieldMap(m) && FieldMap(m)[name].nullable
  {
    DeclaresIff(m, name);
    if name in FieldMap(m) {
      var i := LastFieldIs(m, name);
    }
  }

  lemma {:induction false} TypesDifferIff(m: Model, a: string, t: Model, b: string)
    requires a in FieldMap(m) && b in FieldMap(t)
    ensures TypesDiffer(m, a, t, b) <==> FieldMap(m)[a].scalar != FieldMap(t)[b].scalar
  {
    var i := LastFieldIs(m, a);
    var k := LastFieldIs(t, b);
  }

  lemma {:induction false} TargetIs(d: Document, k: ForeignKey) returns (t: int)
    requires k.model in ModelMap(d)
    ensures LastModel(d, k.model, t) && d[t] == ModelMap(d)[k.model]
  {
    t := IndexByLast(NameOfModel, d, k.model);
  }

  lemma {:induction false} TargetIff(d: Document, k: ForeignKey)
    ensures (exists t :: Target(d, k, t)) <==> k.model in ModelMap(d) && ModelMap(d)[k.model].storage.Some?
    ensures forall t :: Target(d, k, t) ==> k.model in ModelMap(d) && d[t] == ModelMap(d)[k.model]
  {
    IndexByKeys(NameOfModel, d);
    forall t | LastModel(d, k.model, t) ensures k.model in ModelMap(d) && d[t] == ModelMap(d)[k.model] {
      MapIn(NameOfModel, d, d[t]);
      var u := TargetIs(d, k);
    }
    if k.model in ModelMap(d) {
      var t := TargetIs(d, k);
      if d[t].storage.Some? {
        assert Target(d, k, t);
      }
    }
  }

  lemma {:induction false} ResolvesIff(m: Model, names: seq<string>)
    ensures Resolves(m, names) <==> AllDeclared(m, names)
  {
    forall n | n in names ensures Declares(m, n) <==> n in FieldMap(m) {
      DeclaresIff(m, n);
    }
  }

  // ----- one foreign key -----

  lemma {:induction false} SameRelationship(keys: seq<ForeignKey>, i: int)
    requires 0 <= i < |keys| && forall k | k in keys :: ForeignKeyOk(k)
    ensures Repeated(RelationshipText, keys, i) <==>
              exists j | 0 <= j < i :: keys[j].fields == keys[i].fields && keys[j].model == keys[i].model && keys[j].targetFields == keys[i].targetFields
  {
    var before := Map(RelationshipText, keys[..i]);
    forall j | 0 <= j < i
      ensures before[j] == RelationshipText(keys[j])
      ensures RelationshipText(keys[j]) == RelationshipText(keys[i]) <==> Relationship(keys[j]) == Relationship(keys[i])
    {
      RelationshipTextFaithful(keys[j], keys[i]);
    }
  }

  /** What is wrong with a key, by what is known of its target. */
  predicate Against(paired: bool, unique: bool, alike: bool, nullable: bool, k: ForeignKey, path: Path, x: Diagnostic) {
    match x.code
    case INVALID_FOREIGN_KEY => x.path == path && !paired
    case NON_UNIQUE_REFERENCE => x.path == Under(path, AtReferences) && paired && !unique
    case FOREIGN_KEY_TYPE_MISMATCH => x.path == path && paired && !alike
    case INVALID_SET_NULL => x.path == path && paired && k.onDelete == SetNull && !nullable
    case _ => false
  }

  predicate IsKey(s: Storage, names: seq<string>) { names == s.primaryKey || names in s.uniqueKeys }

  predicate Alike(m: Model, k: ForeignKey, t: Model) {
    |k.fields| == |k.targetFields| && !exists p | 0 <= p < |k.fields| :: TypesDiffer(m, k.fields[p], t, k.targetFields[p])
  }

  predicate AllNullable(m: Model, names: seq<string>) { !exists n | n in names :: !Nullable(m, n) }

  predicate AgainstTarget(m: Model, k: ForeignKey, t: Model, path: Path, x: Diagnostic)
    requires t.storage.Some?
  {
    Against(Paired(m, k, t), IsKey(t.storage.value, k.targetFields), Alike(m, k, t), AllNullable(m, k.fields), k, path, x)
  }

  lemma {:induction false} PairedIff(m: Model, k: ForeignKey, t: Model)
    ensures Paired(m, k, t) <==> |k.fields| == |k.targetFields| && Resolves(m, k.fields) && Resolves(t, k.targetFields)
  {
    ResolvesIff(m, k.fields);
    ResolvesIff(t, k.targetFields);
  }

  lemma {:induction false} SameTypesIff(m: Model, k: ForeignKey, t: Model)
    requires |k.fields| == |k.targetFields| && Resolves(m, k.fields) && Resolves(t, k.targetFields)
    ensures SameTypes(m, k, t) == Alike(m, k, t)
  {
    forall p | 0 <= p < |k.fields|
      ensures TypesDiffer(m, k.fields[p], t, k.targetFields[p]) <==>
                FieldMap(m)[k.fields[p]].scalar != FieldMap(t)[k.targetFields[p]].scalar
    {
      assert k.fields[p] in k.fields && k.targetFields[p] in k.targetFields;
      TypesDifferIff(m, k.fields[p], t, k.targetFields[p]);
    }
  }

  lemma {:induction false} NullableFieldsIff(m: Model, names: seq<string>)
    requires Resolves(m, names)
    ensures NullableFields(m, names) == AllNullable(m, names)
  {
    forall n | n in names ensures Nullable(m, n) <==> FieldMap(m)[n].nullable {
      NullableIff(m, n);
    }
  }

  lemma {:induction false} AgainstPaired(a: bool, b: bool, c: bool, k: ForeignKey, path: Path, x: Diagnostic)
    ensures Against(true, a, b, c, k, path, x) <==>
              x in Unless(a, NON_UNIQUE_REFERENCE, Under(path, AtReferences)) + Unless(b, FOREIGN_KEY_TYPE_MISMATCH, path) +
                   Unless(k.onDelete == SetNull ==> c, INVALID_SET_NULL, path)
  {
  }

  lemma {:induction false} UniqueIff(k: ForeignKey, s: Storage)
    ensures (k.targetFields in Keys(s)) == IsKey(s, k.targetFields)
  {
  }

  lemma {:induction false} PairedFaults(m: Model, k: ForeignKey, models: map<string, Model>, path: Path)
    requires k.model in models && models[k.model].storage.Some?
    requires |k.fields| == |k.targetFields| && Resolves(m, k.fields) && Resolves(models[k.model], k.targetFields)
    ensures ReferenceFaults(m, k, models, path) ==
              Unless(k.targetFields in Keys(models[k.model].storage.value), NON_UNIQUE_REFERENCE, Under(path, AtReferences)) +
              Unless(SameTypes(m, k, models[k.model]), FOREIGN_KEY_TYPE_MISMATCH, path) +
              Unless(k.onDelete == SetNull ==> NullableFields(m, k.fields), INVALID_SET_NULL, path)
  {
  }

  lemma {:induction false} AgainstIs(a: bool, b: bool, c: bool, m: Model, k: ForeignKey, t: Model, path: Path, x: Diagnostic)
    requires t.storage.Some? && Paired(m, k, t)
    requires a == IsKey(t.storage.value, k.targetFields) && b == Alike(m, k, t) && c == AllNullable(m, k.fields)
    ensures AgainstTarget(m, k, t, path, x) <==>
              x in Unless(a, NON_UNIQUE_REFERENCE, Under(path, AtReferences)) + Unless(b, FOREIGN_KEY_TYPE_MISMATCH, path) +
                   Unless(k.onDelete == SetNull ==> c, INVALID_SET_NULL, path)
  {
    AgainstPaired(a, b, c, k, path, x);
  }

  lemma {:induction false} PairedTests(m: Model, k: ForeignKey, t: Model, path: Path, x: Diagnostic)
    requires t.storage.Some? && |k.fields| == |k.targetFields| && Resolves(m, k.fields) && Resolves(t, k.targetFields)
    ensures AgainstTarget(m, k, t, path, x) <==>
              x in Unless(k.targetFields in Keys(t.storage.value), NON_UNIQUE_REFERENCE, Under(path, AtReferences)) +
                   Unless(SameTypes(m, k, t), FOREIGN_KEY_TYPE_MISMATCH, path) +
                   Unless(k.onDelete == SetNull ==> NullableFields(m, k.fields), INVALID_SET_NULL, path)
  {
    PairedIff(m, k, t);
    SameTypesIff(m, k, t);
    NullableFieldsIff(m, k.fields);
    UniqueIff(k, t.storage.value);
    AgainstIs(k.targetFields in Keys(t.storage.value), SameTypes(m, k, t), NullableFields(m, k.fields), m, k, t, path, x);
  }

  lemma {:induction false} PairedMeans(d: Document, m: Model, k: ForeignKey, path: Path, x: Diagnostic)
    requires k.model in ModelMap(d) && ModelMap(d)[k.model].storage.Some?
    ensures x in ReferenceFaults(m, k, ModelMap(d), path) <==> AgainstTarget(m, k, ModelMap(d)[k.model], path, x)
  {
    var t := ModelMap(d)[k.model];
    PairedIff(m, k, t);
    if Paired(m, k, t) {
      PairedFaults(m, k, ModelMap(d), path);
      PairedTests(m, k, t, path, x);
    }
  }

  lemma {:induction false} TargetWrong(d: Document, m: Model, keys: seq<ForeignKey>, i: int, path: Path, x: Diagnostic)
    requires 0 <= i < |keys| && keys[i].model in ModelMap(d) && ModelMap(d)[keys[i].model].storage.Some?
    requires x.code != DUPLICATE_FOREIGN_KEY
    ensures ForeignWrong(d, m, keys, i, path, x) <==> AgainstTarget(m, keys[i], ModelMap(d)[keys[i].model], path, x)
  {
    TargetIff(d, keys[i]);
    var t :| Target(d, keys[i], t);
    assert PairedTarget(d, m, keys[i], t) <==> Paired(m, keys[i], d[t]);
  }

  lemma {:induction false} ReferenceMeans(d: Document, m: Model, keys: seq<ForeignKey>, i: int, path: Path, x: Diagnostic)
    requires 0 <= i < |keys| && x.code != DUPLICATE_FOREIGN_KEY
    ensures x in ReferenceFaults(m, keys[i], ModelMap(d), path) <==> ForeignWrong(d, m, keys, i, path, x)
  {
    TargetIff(d, keys[i]);
    if exists t :: Target(d, keys[i], t) {
      PairedMeans(d, m, keys[i], path, x);
      TargetWrong(d, m, keys, i, path, x);
    }
  }

  lemma {:induction false} OtherCodes(m: Model, k: ForeignKey, models: map<string, Model>, path: Path, x: Diagnostic)
    requires x in ReferenceFaults(m, k, models, path)
    ensures x.code in {UNKNOWN_REFERENCE, INVALID_FOREIGN_KEY, NON_UNIQUE_REFERENCE, FOREIGN_KEY_TYPE_MISMATCH, INVALID_SET_NULL}
  {
  }

  lemma {:induction false} ForeignMeans(d: Document, m: Model, keys: seq<ForeignKey>, i: int, base: Path, x: Diagnostic)
    requires 0 <= i < |keys| && forall k | k in keys :: ForeignKeyOk(k)
    ensures x in ForeignCheck(m, keys, ModelMap(d), base)(keys[i], i) <==> ForeignWrong(d, m, keys, i, Under(base, Item(i)), x)
  {
    if x.code == DUPLICATE_FOREIGN_KEY {
      SameRelationship(keys, i);
      if x in ReferenceFaults(m, keys[i], ModelMap(d), Under(base, Item(i))) {
        OtherCodes(m, keys[i], ModelMap(d), Under(base, Item(i)), x);
      }
    } else {
      ReferenceMeans(d, m, keys, i, Under(base, Item(i)), x);
    }
  }

  // ----- one stored model -----

  lemma {:induction false} TableTwiceIff(d: Document, i: int, s: Storage)
    requires DeclarationsOk(d) && 0 <= i < |d| && d[i].storage == Some(s)
    ensures TableTaken(d, i, s) <==> TableTwice(d, i, s)
  {
    if TableTaken(d, i, s) {
      var m := FlatMapSource(TableTexts, d[..i], TableText(s));
      var j :| 0 <= j < i && d[j] == m;
      SameTexts(d, i, j);
    }
    if j :| 0 <= j < i && d[j].storage.Some? && d[j].storage.value.schema == s.schema && d[j].storage.value.table == s.table {
      FlatMapHas(TableTexts, d[..i], j, TableText(s));
    }
  }

  lemma {:induction false} SameTexts(d: Document, i: int, j: int)
    requires DeclarationsOk(d) && 0 <= i < |d| && 0 <= j < |d| && d[i].storage.Some? && d[j].storage.Some?
    requires TableText(d[i].storage.value) == TableText(d[j].storage.value)
    ensures TableOf(d[i].storage.value) == TableOf(d[j].storage.value)
  {
    assert d[i] in d && d[j] in d;
    TableTextFaithful(Persisted(d[i], d[i].storage.value), Persisted(d[j], d[j].storage.value));
  }

  lemma {:induction false} SchemaMeans(d: Document, i: int, s: Storage, x: Diagnostic)
    requires DeclarationsOk(d) && 0 <= i < |d| && d[i].storage == Some(s)
    ensures SchemaWrong(d, i, s, x) <==>
              x in Unless(!ReservedSchema(s.schema), RESERVED_SCHEMA, Under(StorageAt(i), AtSchema)) +
                   Unless(!TableTaken(d, i, s), DUPLICATE_TABLE, StorageAt(i))
  {
    TableTwiceIff(d, i, s);
  }

  lemma {:induction false} ColumnTwiceIff(s: Storage)
    ensures ColumnTwice(s) == !ColumnsDistinct(s)
  {
    var (fields, names) := (Map(FieldOfColumn, s.columns), Map(NameOfColumn, s.columns));
    forall a | 0 <= a < |s.columns| ensures fields[a] == s.columns[a].field && names[a] == s.columns[a].name {}
    if !NoDup(fields) {
      var a, b :| 0 <= a < b < |fields| && fields[a] == fields[b];
      assert s.columns[a].field == s.columns[b].field;
    } else if !NoDup(names) {
      var a, b :| 0 <= a < b < |names| && names[a] == names[b];
      assert s.columns[a].name == s.columns[b].name;
    }
  }

  lemma {:induction false} SystemColumnIff(s: Storage)
    ensures (exists c | c in s.columns :: SystemColumn(c.name)) <==> !ColumnsUnreserved(s)
  {
  }

  lemma {:induction false} MapsFieldIff(s: Storage, name: string)
    ensures MapsField(s, name) <==> name in ColumnMap(s)
  {
    IndexByKeys(FieldOfColumn, s.columns);
    if name in ColumnMap(s) {
      assert ColumnMap(s)[name] in s.columns;
    }
    if c :| c in s.columns && c.field == name {
      MapIn(FieldOfColumn, s.columns, c);
    }
  }

  lemma {:induction false} IncompleteIff(m: Model, s: Storage)
    ensures MappingIncomplete(m, s) <==> ColumnMap(s).Keys != FieldMap(m).Keys
  {
    forall n ensures MapsField(s, n) <==> n in ColumnMap(s) { MapsFieldIff(s, n); }
    forall n ensures Declares(m, n) <==> n in FieldMap(m) { DeclaresIff(m, n); }
    if ColumnMap(s).Keys != FieldMap(m).Keys {
      if n :| n in FieldMap(m) && n !in ColumnMap(s) {
        var f :| f in m.fields && f.name == n;
        assert !MapsField(s, f.name);
      } else {
        var n :| n in ColumnMap(s) && n !in FieldMap(m);
        assert MapsField(s, n);
      }
    }
    if MappingIncomplete(m, s) {
      if f :| f in m.fields && !MapsField(s, f.name) {
        assert Declares(m, f.name);
      } else {
        var c :| c in s.columns && !Declares(m, c.field);
        assert MapsField(s, c.field);
      }
    }
  }

  lemma {:induction false} InFour(a: bool, b: bool, c: bool, e: bool, i: int, x: Diagnostic)
    ensures x in Unless(a, DUPLICATE_COLUMN, Under(StorageAt(i), AtColumns)) + Unless(b, RESERVED_COLUMN, Under(StorageAt(i), AtColumns)) +
                 Unless(c, INCOMPLETE_MAPPING, Under(StorageAt(i), AtColumns)) + Unless(e, LOSSY_PRESENCE, StorageAt(i)) <==>
              || (x == Diagnostic(DUPLICATE_COLUMN, Under(StorageAt(i), AtColumns)) && !a)
              || (x == Diagnostic(RESERVED_COLUMN, Under(StorageAt(i), AtColumns)) && !b)
              || (x == Diagnostic(INCOMPLETE_MAPPING, Under(StorageAt(i), AtColumns)) && !c)
              || (x == Diagnostic(LOSSY_PRESENCE, StorageAt(i)) && !e)
  {
  }

  lemma {:induction false} MappingMeans(i: int, m: Model, s: Storage, x: Diagnostic)
    ensures MappingWrong(i, m, s, x) <==> x in MappingFaults(m, s, StorageAt(i))
  {
    ColumnTwiceIff(s);
    SystemColumnIff(s);
    IncompleteIff(m, s);
    InFour(ColumnsDistinct(s), ColumnsUnreserved(s), ColumnMap(s).Keys == FieldMap(m).Keys, AllRequired(m), i, x);
  }

  lemma {:induction false} KeyTwiceIff(keys: seq<seq<string>>)
    requires forall k | k in keys :: FieldListOk(k)
    ensures KeyTwice(keys) <==> !NoDup(Map(Signature, keys))
  {
    SignaturesDecide(keys);
    var sets := Map(FieldSet, keys);
    forall a, b | 0 <= a < b < |keys| ensures sets[a] == sets[b] <==> SameMembers(keys[a], keys[b]) {
      SameFieldsIff(keys[a], keys[b]);
    }
    if !NoDup(sets) {
      var a, b :| 0 <= a < b < |sets| && sets[a] == sets[b];
      assert SameMembers(keys[a], keys[b]);
    }
  }

  lemma {:induction false} SameFieldsIff(a: seq<string>, b: seq<string>)
    ensures SameMembers(a, b) <==> FieldSet(a) == FieldSet(b)
  {
    forall n ensures (n in a <==> n in FieldSet(a)) && (n in b <==> n in FieldSet(b)) {}
  }

  lemma {:induction false} KeyFieldsMean(m: Model, keys: seq<seq<string>>, path: Path, x: Diagnostic)
    ensures x in Each(KeyFieldCheck(m, path), keys) <==>
              x == Diagnostic(UNKNOWN_KEY_FIELD, path) && exists k | k in keys :: !AllDeclared(m, k)
  {
    EachMember(KeyFieldCheck(m, path), keys, x);
    forall a | 0 <= a < |keys|
      ensures x in KeyFieldCheck(m, path)(keys[a], a) <==> x == Diagnostic(UNKNOWN_KEY_FIELD, path) && !AllDeclared(m, keys[a])
    {
      ResolvesIff(m, keys[a]);
    }
    if k :| k in keys && !AllDeclared(m, k) {
      var a :| 0 <= a < |keys| && keys[a] == k;
    }
  }

  lemma {:induction false} NullableKeyIff(m: Model, names: seq<string>)
    ensures (exists n | n in names :: Nullable(m, n)) <==> !NotNullableFields(m, names)
  {
    forall n | n in names ensures Nullable(m, n) <==> n in FieldMap(m) && FieldMap(m)[n].nullable {
      NullableIff(m, n);
    }
  }

  lemma {:induction false} KeysMean(i: int, m: Model, s: Storage, x: Diagnostic)
    requires StorageOk(s)
    ensures KeysWrong(i, m, s, x) <==> x in KeyFaults(m, s, StorageAt(i))
  {
    assert Keys(s) == [s.primaryKey] + s.uniqueKeys;
    KeyTwiceIff(Keys(s));
    KeyFieldsMean(m, Keys(s), StorageAt(i), x);
    NullableKeyIff(m, s.primaryKey);
  }

  lemma {:induction false} ForeignsMean(d: Document, i: int, m: Model, s: Storage, x: Diagnostic)
    requires StorageOk(s)
    ensures x in Each(ForeignCheck(m, s.foreignKeys, ModelMap(d), Under(StorageAt(i), AtForeignKeys)), s.foreignKeys) <==>
              exists k | 0 <= k < |s.foreignKeys| :: ForeignWrong(d, m, s.foreignKeys, k, ForeignAt(i, k), x)
  {
    var base := Under(StorageAt(i), AtForeignKeys);
    EachMember(ForeignCheck(m, s.foreignKeys, ModelMap(d), base), s.foreignKeys, x);
    forall k | 0 <= k < |s.foreignKeys|
      ensures x in ForeignCheck(m, s.foreignKeys, ModelMap(d), base)(s.foreignKeys[k], k) <==> ForeignWrong(d, m, s.foreignKeys, k, ForeignAt(i, k), x)
    {
      ForeignMeans(d, m, s.foreignKeys, k, base, x);
    }
  }

  lemma {:induction false} StoredMeans(d: Document, i: int, m: Model, s: Storage, x: Diagnostic)
    requires DeclarationsOk(d) && 0 <= i < |d| && d[i].storage == Some(s) && StorageOk(s)
    ensures x in StoredFaults(d, i, m, s, StorageAt(i)) <==> StoredWrong(d, i, m, s, x)
  {
    SchemaMeans(d, i, s, x);
    MappingMeans(i, m, s, x);
    KeysMean(i, m, s, x);
    ForeignsMean(d, i, m, s, x);
  }

  lemma {:induction false} ModelMeans(d: Document, i: int, x: Diagnostic)
    requires DeclarationsOk(d) && 0 <= i < |d|
    ensures x in ModelFaults(d, i, d[i], ModelAt(i)) <==> ModelWrong(d, i, d[i], x)
  {
    assert d[i] in d;
    if d[i].storage.Some? {
      StoredMeans(d, i, d[i], d[i].storage.value, x);
    }
  }

  /** The relational phase reports exactly what the document breaks. */
  lemma {:induction false} RelationalFaultsMean(d: Document, x: Diagnostic)
    requires DeclarationsOk(d)
    ensures x in RelationalFaults(d) <==> Misrelated(d, x)
  {
    EachMember(ModelCheck(d), d, x);
    forall i | 0 <= i < |d| ensures x in ModelCheck(d)(d[i], i) <==> ModelWrong(d, i, d[i], x) {
      ModelMeans(d, i, x);
    }
  }

  // ----- generated names -----

  /** Two constraints of one table would have the same name. */
  ghost predicate ConstraintTwice(d: Document, s: Storage) {
    && Targets(s.foreignKeys, ModelMap(d))
    && var names := IndexNames(s) + ForeignNames(s, s.foreignKeys, ModelMap(d));
       exists a, b | 0 <= a < b < |names| :: names[a] == names[b]
  }

  predicate StoredAt(d: Document, j: int) { 0 <= j < |d| && d[j].storage.Some? }

  /** The index of a key of model `i` would be a table, an index of an earlier model, or an earlier index of its own. */
  ghost predicate IndexTaken(d: Document, i: int, a: int)
    requires StoredAt(d, i) && 0 <= a < |IndexNames(d[i].storage.value)|
  {
    var s := d[i].storage.value;
    var index := (s.schema, IndexNames(s)[a]);
    || (exists j | StoredAt(d, j) :: TableOf(d[j].storage.value) == index)
    || (exists j | 0 <= j < i && StoredAt(d, j) ::
         d[j].storage.value.schema == index.0 && index.1 in IndexNames(d[j].storage.value))
    || index.1 in IndexNames(s)[..a]
  }

  ghost predicate ModelMisnamed(d: Document, i: int)
    requires StoredAt(d, i)
  {
    || ConstraintTwice(d, d[i].storage.value)
    || exists a | 0 <= a < |IndexNames(d[i].storage.value)| :: IndexTaken(d, i, a)
  }

  ghost predicate Misnamed(d: Document, x: Diagnostic) {
    exists i | StoredAt(d, i) :: x == Diagnostic(SQL_NAME_COLLISION, StorageAt(i)) && ModelMisnamed(d, i)
  }

  lemma {:induction false} SchemaDotFree(d: Document, j: int)
    requires DeclarationsOk(d) && StoredAt(d, j)
    ensures DotFree(d[j].storage.value.schema)
  {
    assert d[j] in d;
  }

  lemma {:induction false} TextAt(m: Model, a: int)
    requires m.storage.Some? && 0 <= a < |IndexNames(m.storage.value)|
    ensures |IndexTexts(m)| == |IndexNames(m.storage.value)|
    ensures IndexTexts(m)[a] == RelationText((m.storage.value.schema, IndexNames(m.storage.value)[a]))
  {
  }

  lemma {:induction false} TextIn(d: Document, j: int, r: Relation)
    requires DeclarationsOk(d) && StoredAt(d, j) && DotFree(r.0)
    ensures RelationText(r) in TableTexts(d[j]) <==> TableOf(d[j].storage.value) == r
    ensures RelationText(r) in IndexTexts(d[j]) <==> d[j].storage.value.schema == r.0 && r.1 in IndexNames(d[j].storage.value)
  {
    var s := d[j].storage.value;
    SchemaDotFree(d, j);
    assert TableTexts(d[j]) == [RelationText(TableOf(s))];
    if RelationText(r) == RelationText(TableOf(s)) {
      DottedInjective(r, TableOf(s));
    }
    if RelationText(r) in IndexTexts(d[j]) {
      var a :| 0 <= a < |IndexTexts(d[j])| && IndexTexts(d[j])[a] == RelationText(r);
      TextAt(d[j], a);
      DottedInjective(r, (s.schema, IndexNames(s)[a]));
    }
    if s.schema == r.0 && r.1 in IndexNames(s) {
      var a :| 0 <= a < |IndexNames(s)| && IndexNames(s)[a] == r.1;
      TextAt(d[j], a);
    }
  }

  lemma {:induction false} TableTextIn(d: Document, r: Relation)
    requires DeclarationsOk(d) && DotFree(r.0)
    ensures RelationText(r) in FlatMap(TableTexts, d) <==> exists j | StoredAt(d, j) :: TableOf(d[j].storage.value) == r
  {
    if RelationText(r) in FlatMap(TableTexts, d) {
      var m := FlatMapSource(TableTexts, d, RelationText(r));
      var j :| 0 <= j < |d| && d[j] == m;
      TextIn(d, j, r);
    }
    if j :| StoredAt(d, j) && TableOf(d[j].storage.value) == r {
      TextIn(d, j, r);
      FlatMapHas(TableTexts, d, j, RelationText(r));
    }
  }

  lemma {:induction false} IndexTextIn(d: Document, i: int, r: Relation)
    requires DeclarationsOk(d) && DotFree(r.0) && 0 <= i <= |d|
    ensures RelationText(r) in FlatMap(IndexTexts, d[..i]) <==>
              exists j | 0 <= j < i && StoredAt(d, j) :: d[j].storage.value.schema == r.0 && r.1 in IndexNames(d[j].storage.value)
  {
    if RelationText(r) in FlatMap(IndexTexts, d[..i]) {
      var m := FlatMapSource(IndexTexts, d[..i], RelationText(r));
      var j :| 0 <= j < i && d[j] == m;
      TextIn(d, j, r);
    }
    if j :| 0 <= j < i && StoredAt(d, j) && d[j].storage.value.schema == r.0 && r.1 in IndexNames(d[j].storage.value) {
      TextIn(d, j, r);
      FlatMapHas(IndexTexts, d[..i], j, RelationText(r));
    }
  }

  lemma {:induction false} OwnTextIn(m: Model, a: int)
    requires m.storage.Some? && 0 <= a < |IndexNames(m.storage.value)| && DotFree(m.storage.value.schema)
    ensures |IndexTexts(m)| == |IndexNames(m.storage.value)|
    ensures IndexTexts(m)[a] in IndexTexts(m)[..a] <==> IndexNames(m.storage.value)[a] in IndexNames(m.storage.value)[..a]
  {
    var (texts, names, schema) := (IndexTexts(m), IndexNames(m.storage.value), m.storage.value.schema);
    TextAt(m, a);
    if texts[a] in texts[..a] {
      var b :| 0 <= b < a && texts[b] == texts[a];
      TextAt(m, b);
      DottedInjective((schema, names[a]), (schema, names[b]));
    }
    if names[a] in names[..a] {
      var b :| 0 <= b < a && names[b] == names[a];
      TextAt(m, b);
    }
  }

  lemma {:induction false} TakenIff(d: Document, i: int, a: int)
    requires DeclarationsOk(d) && StoredAt(d, i) && 0 <= a < |IndexNames(d[i].storage.value)|
    ensures |IndexTexts(d[i])| == |IndexNames(d[i].storage.value)|
    ensures IndexTaken(d, i, a) <==> IndexTexts(d[i])[a] in RelationsBefore(d, i) + Before(IndexTexts(d[i]), a)
  {
    var s := d[i].storage.value;
    SchemaDotFree(d, i);
    TextAt(d[i], a);
    TableTextIn(d, (s.schema, IndexNames(s)[a]));
    IndexTextIn(d, i, (s.schema, IndexNames(s)[a]));
    OwnTextIn(d[i], a);
  }

  lemma {:induction false} TakenMeans(d: Document, i: int, path: Path, x: Diagnostic)
    requires DeclarationsOk(d) && StoredAt(d, i)
    ensures x in Each(TakenCheck(RelationsBefore(d, i), IndexTexts(d[i]), path), IndexTexts(d[i])) <==>
              x == Diagnostic(SQL_NAME_COLLISION, path) && exists a | 0 <= a < |IndexNames(d[i].storage.value)| :: IndexTaken(d, i, a)
  {
    var (texts, names) := (IndexTexts(d[i]), IndexNames(d[i].storage.value));
    var check := TakenCheck(RelationsBefore(d, i), texts, path);
    EachMember(check, texts, x);
    assert |names| > 0;
    TextAt(d[i], 0);
    forall a | 0 <= a < |names|
      ensures x in check(texts[a], a) <==> x == Diagnostic(SQL_NAME_COLLISION, path) && IndexTaken(d, i, a)
    {
      TakenIff(d, i, a);
    }
  }

  lemma {:induction false} ConstraintTwiceIff(d: Document, i: int)
    requires StoredAt(d, i)
    ensures ConstraintTwice(d, d[i].storage.value) <==> !ConstraintNamesOk(Persisted(d[i], d[i].storage.value), ModelMap(d))
  {
  }

  lemma {:induction false} ModelNamesMean(d: Document, i: int, x: Diagnostic)
    requires DeclarationsOk(d) && 0 <= i < |d|
    ensures x in NameCheck(d)(d[i], i) <==> StoredAt(d, i) && x == Diagnostic(SQL_NAME_COLLISION, StorageAt(i)) && ModelMisnamed(d, i)
  {
    if StoredAt(d, i) {
      ConstraintTwiceIff(d, i);
      TakenMeans(d, i, StorageAt(i), x);
    }
  }

  /** The name phase reports exactly the models whose generated names clash. */
  lemma {:induction false} NameFaultsMean(d: Document, x: Diagnostic)
    requires DeclarationsOk(d)
    ensures x in NameFaults(d) <==> Misnamed(d, x)
  {
    EachMember(NameCheck(d), d, x);
    forall i | 0 <= i < |d|
      ensures x in NameCheck(d)(d[i], i) <==> StoredAt(d, i) && x == Diagnostic(SQL_NAME_COLLISION, StorageAt(i)) && ModelMisnamed(d, i)
    {
      ModelNamesMean(d, i, x);
    }
  }
}
