/** When a schema IR is valid, declaration by declaration, and what it is normalised to. */
module IrMeaning {
  import opened Seqs
  import opened Strings
  import opened Json
  import opened Document
  import opened SchemaIr
  import opened ShapeMeaning
  import opened IrCanonical
  import Characters
  import IrReading
  import JsonText
  import Relational

  // ----- names -----

  /** A small letter, and at most sixty-two more letters or digits. */
  predicate FieldNamed(s: string) {
    && 1 <= |s| <= 63 && 'a' <= s[0] <= 'z'
    && (forall c | c in s :: 'a' <= c <= 'z' || 'A' <= c <= 'Z' || '0' <= c <= '9') && !ReservedField(s)
  }

  predicate EntityNamed(s: string) {
    && Matches(ModelWord, s)
    && s !in ["SchemaOptional", "SchemaMissing", "SchemaPresent", "String", "Object", "Null", "Never", "Type", "Function",
              "List", "Map", "Set", "Symbol", "Future", "Stream", "DateTime", "Self"]
  }

  predicate ColumnNamed(s: string) { Matches(SqlWord, s) && s !in ["tableoid", "xmin", "cmin", "xmax", "cmax", "ctid"] }

  function Folded(c: char): int { if 65 <= c as int <= 90 then c as int + 32 else c as int }

  /** Equal but for capitals. */
  predicate SameFolded(a: string, b: string) { |a| == |b| && forall i | 0 <= i < |a| :: Folded(a[i]) == Folded(b[i]) }

  // ----- one entity -----

  predicate FieldValid(f: IrField) {
    && FieldNamed(f.name) && ColumnNamed(f.column)
    && (f.minLength.Some? ==> f.scalar == StringType && 0 <= f.minLength.value <= 1000000)
    && (f.maxLength.Some? ==> f.scalar == StringType && 0 <= f.maxLength.value <= 1000000)
    && (f.minLength.Some? && f.maxLength.Some? ==> f.minLength.value <= f.maxLength.value)
    && (f.minimum.Some? ==> f.scalar == Int32Type && -2147483648 <= f.minimum.value <= 2147483647)
    && (f.maximum.Some? ==> f.scalar == Int32Type && -2147483648 <= f.maximum.value <= 2147483647)
    && (f.minimum.Some? && f.maximum.Some? ==> f.minimum.value <= f.maximum.value)
  }

  predicate HasField(e: Entity, name: string) { exists f | f in e.fields :: f.name == name }

  predicate TupleValid(e: Entity, key: seq<string>) {
    1 <= |key| <= 16 && (forall n | n in key :: HasField(e, n)) && forall i, k | 0 <= i < k < |key| :: key[i] != key[k]
  }

  predicate TuplesValid(e: Entity, keys: seq<seq<string>>) { |keys| <= 64 && forall k | k in keys :: TupleValid(e, k) }

  predicate FieldsValid(e: Entity) {
    && 1 <= |e.fields| <= 256 && (forall f | f in e.fields :: FieldValid(f))
    && forall i, k | 0 <= i < k < |e.fields| :: e.fields[i].name != e.fields[k].name && e.fields[i].column != e.fields[k].column
  }

  /** The primary key is never absent or null, no two keys have the same fields, and no two indexes are equal. */
  ghost predicate KeysValid(e: Entity) {
    var keys := [e.primaryKey] + e.uniqueKeys;
    && TupleValid(e, e.primaryKey) && (forall f | f in e.fields && f.name in e.primaryKey :: f.required && !f.nullable)
    && TuplesValid(e, e.uniqueKeys) && TuplesValid(e, e.indexes)
    && (forall i, k | 0 <= i < k < |keys| :: !SameMembers(keys[i], keys[k]))
    && forall i, k | 0 <= i < k < |e.indexes| :: e.indexes[i] != e.indexes[k]
  }

  // ----- references -----

  predicate SameRelation(a: IrForeign, b: IrForeign) {
    a.fields == b.fields && a.entity == b.entity && a.targetFields == b.targetFields
  }

  predicate SameTypes(e: Entity, k: IrForeign, t: Entity)
    requires |k.fields| == |k.targetFields|
  {
    forall i, f, g | 0 <= i < |k.fields| && f in e.fields && g in t.fields && f.name == k.fields[i] && g.name == k.targetFields[i] ::
      f.scalar == g.scalar
  }

  /** The referenced fields are a key of the target in its order, type for type. */
  predicate References(e: Entity, k: IrForeign, t: Entity) {
    && t.name == k.entity && (k.targetFields == t.primaryKey || k.targetFields in t.uniqueKeys)
    && |k.fields| == |k.targetFields| && SameTypes(e, k, t)
  }

  predicate NullableFields(e: Entity, names: seq<string>) { forall f | f in e.fields && f.name in names :: f.nullable }

  predicate ForeignValid(entities: seq<Entity>, e: Entity, k: IrForeign) {
    && TupleValid(e, k.fields)
    && (exists t | t in entities :: References(e, k, t))
    && (k.onDelete == SetNullOnDelete ==> NullableFields(e, k.fields))
  }

  predicate ForeignsValid(entities: seq<Entity>, e: Entity) {
    && |e.foreignKeys| <= 64 && (forall k | k in e.foreignKeys :: ForeignValid(entities, e, k))
    && forall i, k | 0 <= i < k < |e.foreignKeys| :: !SameRelation(e.foreignKeys[i], e.foreignKeys[k])
  }

  /** Everything the front end demands of an IR. */
  ghost predicate IrValid(ir: Ir) {
    && Matches(SqlWord, ir.databaseSchema) && !("pg_" <= ir.databaseSchema) && ir.databaseSchema != "information_schema"
    && 1 <= |ir.entities| <= 64
    && (forall e | e in ir.entities ::
         EntityNamed(e.name) && Matches(SqlWord, e.table) && FieldsValid(e) && KeysValid(e) && ForeignsValid(ir.entities, e))
    && forall i, k | 0 <= i < k < |ir.entities| ::
         !SameFolded(ir.entities[i].name, ir.entities[k].name) && ir.entities[i].table != ir.entities[k].table
  }

  // ----- names and fields -----

  lemma {:induction false} FieldNamedIff(s: string)
    ensures FieldNamed(s) <==> FieldIdentifier(s)
  {
  }

  lemma {:induction false} EntityNamedIff(s: string)
    ensures EntityNamed(s) <==> EntityIdentifier(s)
  {
    PatternIs(ModelWord, s);
  }

  lemma {:induction false} ColumnNamedIff(s: string)
    ensures ColumnNamed(s) <==> ColumnIdentifier(s)
  {
    PatternIs(SqlWord, s);
  }

  lemma {:induction false} FieldValidIff(f: IrField)
    ensures FieldValid(f) <==> IrFieldOk(f)
  {
    FieldNamedIff(f.name);
    ColumnNamedIff(f.column);
  }

  lemma {:induction false} FieldsValidIff(e: Entity)
    ensures FieldsValid(e) <==> EntityFieldsOk(e.fields)
  {
    forall f | f in e.fields ensures FieldValid(f) <==> IrFieldOk(f) { FieldValidIff(f); }
    var (names, columns) := (Map(NameOfIrField, e.fields), Map(ColumnOfIrField, e.fields));
    forall i | 0 <= i < |e.fields| ensures names[i] == e.fields[i].name && columns[i] == e.fields[i].column {}
  }

  lemma {:induction false} HasFieldIff(e: Entity, n: string)
    ensures HasField(e, n) <==> n in IrFields(e)
  {
    IndexByKeys(NameOfIrField, e.fields);
    if n in IrFields(e) {
      assert IrFields(e)[n] in e.fields;
    }
    if f :| f in e.fields && f.name == n {
      MapIn(NameOfIrField, e.fields, f);
    }
  }

  lemma {:induction false} FieldFound(e: Entity, f: IrField)
    requires NoDup(Map(NameOfIrField, e.fields)) && f in e.fields
    ensures f.name in IrFields(e) && IrFields(e)[f.name] == f
  {
    IndexByFinds(NameOfIrField, e.fields, f);
  }

  lemma {:induction false} FieldNamedBy(e: Entity, n: string)
    requires n in IrFields(e)
    ensures IrFields(e)[n] in e.fields && IrFields(e)[n].name == n
  {
    IndexByKeys(NameOfIrField, e.fields);
  }

  // ----- keys -----

  lemma {:induction false} TupleIff(e: Entity, key: seq<string>)
    ensures TupleValid(e, key) <==> TupleOk(key, IrFields(e))
  {
    forall n | n in key ensures HasField(e, n) <==> n in IrFields(e) { HasFieldIff(e, n); }
  }

  lemma {:induction false} TuplesIff(e: Entity, keys: seq<seq<string>>)
    ensures TuplesValid(e, keys) <==> TuplesOk(keys, IrFields(e))
  {
    forall k | k in keys ensures TupleValid(e, k) <==> TupleOk(k, IrFields(e)) { TupleIff(e, k); }
  }

  lemma {:induction false} SolidIff(e: Entity, key: seq<string>)
    requires NoDup(Map(NameOfIrField, e.fields))
    ensures (forall f | f in e.fields && f.name in key :: f.required && !f.nullable) <==> SolidKey(key, IrFields(e))
  {
    forall f | f in e.fields ensures f.name in IrFields(e) && IrFields(e)[f.name] == f { FieldFound(e, f); }
    forall n | n in IrFields(e) ensures IrFields(e)[n] in e.fields && IrFields(e)[n].name == n { FieldNamedBy(e, n); }
  }

  /** Sorted and printed, two keys are equal exactly when they have the same fields. */
  lemma {:induction false} SortedTextIff(a: seq<string>, b: seq<string>)
    requires NoDup(a) && NoDup(b) && (forall n | n in a :: FieldIdentifier(n)) && forall n | n in b :: FieldIdentifier(n)
    ensures SortedKeyText(a) == SortedKeyText(b) <==> SameMembers(a, b)
  {
    var (x, y) := (SortBy(Self, a), SortBy(Self, b));
    SortByCorrect(Self, a);
    SortByCorrect(Self, b);
    PermMembers(a, x);
    PermMembers(b, y);
    KeyTextInjective(x, y);
    if SameMembers(a, b) {
      assert ToSet(a) == ToSet(b);
      Relational.SameMembersSorted(a, b);
    }
  }

  /** Pairwise apart, whatever tells the keys apart. */
  lemma {:induction false} PairsApart<T>(text: seq<string> -> T, keys: seq<seq<string>>)
    requires forall a, b | a in keys && b in keys :: text(a) == text(b) <==> SameMembers(a, b)
    ensures NoDup(Map(text, keys)) <==> forall i, k | 0 <= i < k < |keys| :: !SameMembers(keys[i], keys[k])
  {
    forall i, k | 0 <= i < k < |keys| ensures Map(text, keys)[i] == Map(text, keys)[k] <==> SameMembers(keys[i], keys[k]) {
      assert keys[i] in keys && keys[k] in keys;
    }
  }

  lemma {:induction false} IndexesApart(indexes: seq<seq<string>>)
    requires forall k, n | k in indexes && n in k :: FieldIdentifier(n)
    ensures NoDup(Map(KeyText, indexes)) <==> forall i, k | 0 <= i < k < |indexes| :: indexes[i] != indexes[k]
  {
    forall i, k | 0 <= i < k < |indexes| ensures Map(KeyText, indexes)[i] == Map(KeyText, indexes)[k] <==> indexes[i] == indexes[k] {
      assert indexes[i] in indexes && indexes[k] in indexes;
      KeyTextInjective(indexes[i], indexes[k]);
    }
  }

  lemma {:induction false} KeysApart(e: Entity)
    requires (forall f | f in e.fields :: IrFieldOk(f)) && TupleOk(e.primaryKey, IrFields(e)) && TuplesOk(e.uniqueKeys, IrFields(e))
    ensures NoDup(Map(SortedKeyText, EntityKeys(e))) <==>
              forall i, k | 0 <= i < k < |EntityKeys(e)| :: !SameMembers(EntityKeys(e)[i], EntityKeys(e)[k])
  {
    forall a, b | a in EntityKeys(e) && b in EntityKeys(e) ensures SortedKeyText(a) == SortedKeyText(b) <==> SameMembers(a, b) {
      TupleIdentifiers(e, a);
      TupleIdentifiers(e, b);
      SortedTextIff(a, b);
    }
    PairsApart(SortedKeyText, EntityKeys(e));
  }

  lemma {:induction false} KeysValidIff(e: Entity)
    requires EntityFieldsOk(e.fields)
    ensures KeysValid(e) <==> EntityKeysOk(e)
  {
    TupleIff(e, e.primaryKey);
    TuplesIff(e, e.uniqueKeys);
    TuplesIff(e, e.indexes);
    SolidIff(e, e.primaryKey);
    if TupleOk(e.primaryKey, IrFields(e)) && TuplesOk(e.uniqueKeys, IrFields(e)) && TuplesOk(e.indexes, IrFields(e)) {
      KeysApart(e);
      forall k, n | k in e.indexes && n in k ensures FieldIdentifier(n) {
        TupleIdentifiers(e, k);
      }
      IndexesApart(e.indexes);
    }
  }

  // ----- references, in either form -----

  /** An entity whose names, fields and keys are in order. */
  ghost predicate EntitySound(e: Entity) {
    EntityIdentifier(e.name) && TableIdentifier(e.table) && EntityFieldsOk(e.fields) && EntityKeysOk(e)
  }

  lemma {:induction false} TypesIff(e: Entity, k: IrForeign, t: Entity)
    requires NoDup(Map(NameOfIrField, e.fields)) && NoDup(Map(NameOfIrField, t.fields)) && |k.fields| == |k.targetFields|
    requires (forall n | n in k.fields :: n in IrFields(e)) && forall n | n in k.targetFields :: n in IrFields(t)
    ensures SameTypes(e, k, t) <==>
            forall i | 0 <= i < |k.fields| :: IrFields(e)[k.fields[i]].scalar == IrFields(t)[k.targetFields[i]].scalar
  {
    forall f | f in e.fields ensures f.name in IrFields(e) && IrFields(e)[f.name] == f { FieldFound(e, f); }
    forall f | f in t.fields ensures f.name in IrFields(t) && IrFields(t)[f.name] == f { FieldFound(t, f); }
    forall i | 0 <= i < |k.fields|
      ensures IrFields(e)[k.fields[i]] in e.fields && IrFields(e)[k.fields[i]].name == k.fields[i]
      ensures IrFields(t)[k.targetFields[i]] in t.fields && IrFields(t)[k.targetFields[i]].name == k.targetFields[i]
    {
      assert k.fields[i] in k.fields && k.targetFields[i] in k.targetFields;
      FieldNamedBy(e, k.fields[i]);
      FieldNamedBy(t, k.targetFields[i]);
    }
  }

  lemma {:induction false} NullableIff(e: Entity, names: seq<string>)
    requires NoDup(Map(NameOfIrField, e.fields))
    ensures NullableFields(e, names) <==>
              forall n | n in names && n in IrFields(e) :: IrFields(e)[n].nullable
  {
    forall f | f in e.fields ensures f.name in IrFields(e) && IrFields(e)[f.name] == f { FieldFound(e, f); }
    forall n | n in IrFields(e) ensures IrFields(e)[n] in e.fields && IrFields(e)[n].name == n { FieldNamedBy(e, n); }
  }

  /** A key of a sound entity has declared, well-named, distinct fields. */
  lemma {:induction false} KeyIsTuple(t: Entity, key: seq<string>)
    requires EntitySound(t) && key in EntityKeys(t)
    ensures TupleOk(key, IrFields(t)) && forall n | n in key :: FieldIdentifier(n)
  {
    TupleIdentifiers(t, key);
  }

  lemma {:induction false} IsKeyIff(t: Entity, key: seq<string>)
    ensures key in EntityKeys(t) <==> key == t.primaryKey || key in t.uniqueKeys
  {
  }

  /** A key of the target is well-formed, so only the number of fields is left to ask. */
  lemma {:induction false} FormIff(e: Entity, k: IrForeign, t: Entity)
    requires EntitySound(t) && TupleOk(k.fields, IrFields(e)) && t.name == k.entity && k.targetFields in EntityKeys(t)
    ensures IrForeignOk(k, IrFields(e)) <==> |k.fields| == |k.targetFields|
  {
    KeyIsTuple(t, k.targetFields);
  }

  lemma {:induction false} MatchIff(e: Entity, k: IrForeign, t: Entity)
    requires EntityFieldsOk(e.fields) && EntitySound(t) && TupleOk(k.fields, IrFields(e)) && k.targetFields in EntityKeys(t)
    requires |k.fields| == |k.targetFields|
    ensures IrReferenceOk(IrFields(e), k, t) <==> SameTypes(e, k, t) && (k.onDelete == SetNullOnDelete ==> NullableFields(e, k.fields))
  {
    KeyIsTuple(t, k.targetFields);
    TypesIff(e, k, t);
    NullableIff(e, k.fields);
    forall i | 0 <= i < |k.fields| ensures k.fields[i] in k.fields && k.targetFields[i] in k.targetFields {}
  }

  lemma {:induction false} NoMatch(fields: map<string, IrField>, k: IrForeign, t: Entity)
    requires k.targetFields !in EntityKeys(t) || |k.fields| != |k.targetFields|
    ensures !IrReferenceOk(fields, k, t)
  {
  }

  /** Against its target, with the fields of the key known. */
  lemma {:induction false} ReferenceIff(e: Entity, k: IrForeign, t: Entity)
    requires EntityFieldsOk(e.fields) && EntitySound(t) && TupleOk(k.fields, IrFields(e)) && t.name == k.entity
    ensures References(e, k, t) && (k.onDelete == SetNullOnDelete ==> NullableFields(e, k.fields)) <==>
              IrForeignOk(k, IrFields(e)) && IrReferenceOk(IrFields(e), k, t)
  {
    IsKeyIff(t, k.targetFields);
    if k.targetFields in EntityKeys(t) && |k.fields| == |k.targetFields| {
      FormIff(e, k, t);
      MatchIff(e, k, t);
    } else {
      NoMatch(IrFields(e), k, t);
    }
  }

  lemma {:induction false} TargetFound(entities: seq<Entity>, name: string)
    requires NoDup(Map(NameOfEntity, entities))
    ensures name in Entities(entities) ==> Entities(entities)[name] in entities && Entities(entities)[name].name == name
    ensures forall t | t in entities && t.name == name :: name in Entities(entities) && Entities(entities)[name] == t
  {
    IndexByKeys(NameOfEntity, entities);
    forall t | t in entities && t.name == name ensures name in Entities(entities) && Entities(entities)[name] == t {
      IndexByFinds(NameOfEntity, entities, t);
    }
  }

  /** What the front end asks of one foreign key. */
  ghost predicate ForeignAsked(entities: seq<Entity>, e: Entity, k: IrForeign) {
    && IrForeignOk(k, IrFields(e)) && k.entity in Entities(entities)
    && IrReferenceOk(IrFields(e), k, Entities(entities)[k.entity])
  }

  lemma {:induction false} ForeignIff(entities: seq<Entity>, e: Entity, k: IrForeign)
    requires EntitySound(e) && NoDup(Map(NameOfEntity, entities)) && forall t | t in entities :: EntitySound(t)
    ensures ForeignValid(entities, e, k) <==> ForeignAsked(entities, e, k)
  {
    TupleIff(e, k.fields);
    TargetFound(entities, k.entity);
    if TupleOk(k.fields, IrFields(e)) && k.entity in Entities(entities) {
      var t := Entities(entities)[k.entity];
      ReferenceIff(e, k, t);
      if u :| u in entities && References(e, k, u) {
        assert u == t;
      }
    }
  }

  lemma {:induction false} RelationIff(a: IrForeign, b: IrForeign)
    requires ForeignPlain(a) && ForeignPlain(b)
    ensures SchemaIr.RelationText(a) == SchemaIr.RelationText(b) <==> SameRelation(a, b)
  {
    var (x, y) := ([JsonText.List(JsonText.Texts(a.fields)), RelationTerm(a)], [JsonText.List(JsonText.Texts(b.fields)), RelationTerm(b)]);
    RelationPlain(a);
    RelationPlain(b);
    JsonText.PrintInjective(JsonText.List(x), JsonText.List(y));
    if JsonText.List(x) == JsonText.List(y) {
      assert x[0] == y[0] && x[1] == y[1];
      JsonText.TextsInjective(a.fields, b.fields);
      RelationTermInjective(a, b);
    }
  }

  lemma {:induction false} RelationPlain(k: IrForeign)
    requires ForeignPlain(k)
    ensures JsonText.PlainTerm(JsonText.List([JsonText.List(JsonText.Texts(k.fields)), RelationTerm(k)]))
  {
    KeyPlain(k.fields);
    RelationTermPlain(k);
  }

  lemma {:induction false} RelationsApart(e: Entity)
    requires (forall f | f in e.fields :: IrFieldOk(f)) && forall k | k in e.foreignKeys :: IrForeignOk(k, IrFields(e))
    ensures NoDup(Map(SchemaIr.RelationText, e.foreignKeys)) <==>
              forall i, k | 0 <= i < k < |e.foreignKeys| :: !SameRelation(e.foreignKeys[i], e.foreignKeys[k])
  {
    var texts := Map(SchemaIr.RelationText, e.foreignKeys);
    forall i, k | 0 <= i < k < |e.foreignKeys| ensures texts[i] == texts[k] <==> SameRelation(e.foreignKeys[i], e.foreignKeys[k]) {
      var (a, b) := (e.foreignKeys[i], e.foreignKeys[k]);
      assert a in e.foreignKeys && b in e.foreignKeys;
      TupleIdentifiers(e, a.fields);
      TupleIdentifiers(e, b.fields);
      RelationIff(a, b);
    }
  }

  lemma {:induction false} ForeignsIff(entities: seq<Entity>, e: Entity)
    requires EntitySound(e) && NoDup(Map(NameOfEntity, entities)) && forall t | t in entities :: EntitySound(t)
    ensures ForeignsValid(entities, e) <==> EntityForeignsOk(e) && IrReferencesOk(e, Entities(entities))
  {
    forall k | k in e.foreignKeys ensures ForeignValid(entities, e, k) <==> ForeignAsked(entities, e, k) {
      ForeignIff(entities, e, k);
    }
    if forall k | k in e.foreignKeys :: IrForeignOk(k, IrFields(e)) {
      RelationsApart(e);
    }
  }

  // ----- the whole IR -----

  lemma {:induction false} FoldedIff(a: string, b: string)
    ensures SameFolded(a, b) <==> Map(Characters.LowerCase, a) == Map(Characters.LowerCase, b)
  {
    var (x, y) := (Map(Characters.LowerCase, a), Map(Characters.LowerCase, b));
    forall i | 0 <= i < |a| ensures x[i] as int == Folded(a[i]) {}
    forall i | 0 <= i < |b| ensures y[i] as int == Folded(b[i]) {}
    if SameFolded(a, b) {
      forall i | 0 <= i < |a| ensures x[i] == y[i] {}
    }
  }

  lemma {:induction false} EntitiesApart(entities: seq<Entity>)
    ensures (forall i, k | 0 <= i < k < |entities| :: !SameFolded(entities[i].name, entities[k].name) && entities[i].table != entities[k].table) <==>
              NoDup(Map(LowerName, entities)) && NoDup(Map(TableOfEntity, entities))
  {
    var (names, tables) := (Map(LowerName, entities), Map(TableOfEntity, entities));
    forall i, k | 0 <= i < k < |entities|
      ensures names[i] == names[k] <==> SameFolded(entities[i].name, entities[k].name)
      ensures tables[i] == tables[k] <==> entities[i].table == entities[k].table
    {
      FoldedIff(entities[i].name, entities[k].name);
    }
  }

  lemma {:induction false} SoundIff(e: Entity)
    ensures EntityNamed(e.name) && Matches(SqlWord, e.table) && FieldsValid(e) && KeysValid(e) <==> EntitySound(e)
  {
    EntityNamedIff(e.name);
    PatternIs(SqlWord, e.table);
    FieldsValidIff(e);
    if EntityFieldsOk(e.fields) {
      KeysValidIff(e);
    }
  }

  lemma {:induction false} EntitiesIff(entities: seq<Entity>)
    requires NoDup(Map(LowerName, entities))
    ensures (forall e | e in entities ::
              EntityNamed(e.name) && Matches(SqlWord, e.table) && FieldsValid(e) && KeysValid(e) && ForeignsValid(entities, e)) <==>
            (forall e | e in entities :: EntityOk(e)) && forall e | e in entities :: IrReferencesOk(e, Entities(entities))
  {
    NamesDistinct(entities);
    forall e | e in entities
      ensures EntityNamed(e.name) && Matches(SqlWord, e.table) && FieldsValid(e) && KeysValid(e) <==> EntitySound(e)
      ensures EntityOk(e) <==> EntitySound(e) && EntityForeignsOk(e)
    {
      SoundIff(e);
    }
    if forall e | e in entities :: EntitySound(e) {
      forall e | e in entities ensures ForeignsValid(entities, e) <==> EntityForeignsOk(e) && IrReferencesOk(e, Entities(entities)) {
        ForeignsIff(entities, e);
      }
    }
  }

  lemma {:induction false} IrValidIff(ir: Ir)
    ensures IrValid(ir) <==> IrOk(ir)
  {
    PatternIs(SqlWord, ir.databaseSchema);
    EntitiesApart(ir.entities);
    if NoDup(Map(LowerName, ir.entities)) {
      EntitiesIff(ir.entities);
    }
  }

  // ----- the canonical order -----

  /** Ascending by name, and keys and foreign keys by the text they are printed as. */
  ghost predicate EntityOrdered(e: Entity) {
    && (forall i, k | 0 <= i < k < |e.fields| :: Precedes(e.fields[i].name, e.fields[k].name))
    && (forall i, k | 0 <= i < k < |e.uniqueKeys| :: Precedes(KeyText(e.uniqueKeys[i]), KeyText(e.uniqueKeys[k])))
    && (forall i, k | 0 <= i < k < |e.indexes| :: Precedes(KeyText(e.indexes[i]), KeyText(e.indexes[k])))
    && (forall i, k | 0 <= i < k < |e.foreignKeys| :: Precedes(ForeignText(e.foreignKeys[i]), ForeignText(e.foreignKeys[k])))
  }

  ghost predicate Ordered(ir: Ir) {
    && (forall i, k | 0 <= i < k < |ir.entities| :: Precedes(ir.entities[i].name, ir.entities[k].name))
    && forall e | e in ir.entities :: EntityOrdered(e)
  }

  lemma {:induction false} SortedIff<T>(key: T -> string, s: seq<T>)
    ensures SortedBy(key, s) <==> forall i, k | 0 <= i < k < |s| :: Precedes(key(s[i]), key(s[k]))
  {
    forall i, k | 0 <= i < k < |s| ensures StrLe(key(s[i]), key(s[k])) <==> Precedes(key(s[i]), key(s[k])) {
      StrLeMeans(key(s[i]), key(s[k]));
    }
  }

  lemma {:induction false} CanonIsOrdered(e: Entity)
    ensures EntityOrdered(CanonEntity(e))
  {
    var c := CanonEntity(e);
    SortByCorrect(NameOfIrField, e.fields);
    SortByCorrect(KeyText, e.uniqueKeys);
    SortByCorrect(KeyText, e.indexes);
    SortByCorrect(ForeignText, e.foreignKeys);
    SortedIff(NameOfIrField, c.fields);
    SortedIff(KeyText, c.uniqueKeys);
    SortedIff(KeyText, c.indexes);
    SortedIff(ForeignText, c.foreignKeys);
    assert forall i | 0 <= i < |c.fields| :: NameOfIrField(c.fields[i]) == c.fields[i].name;
  }

  lemma {:induction false} CanonicalIsOrdered(ir: Ir)
    ensures Ordered(Canonical(ir))
  {
    var canon := Map(CanonEntity, ir.entities);
    var sorted := SortBy(NameOfEntity, canon);
    SortByCorrect(NameOfEntity, canon);
    PermMembers(canon, sorted);
    SortedIff(NameOfEntity, sorted);
    assert forall i | 0 <= i < |sorted| :: NameOfEntity(sorted[i]) == sorted[i].name;
    forall c | c in sorted ensures EntityOrdered(c) {
      var e := MapInInverse(CanonEntity, ir.entities, c);
      CanonIsOrdered(e);
    }
  }

  /** A sorted list without equal keys is what sorting it gives. */
  lemma {:induction false} SortingSorted<T>(key: T -> string, s: seq<T>)
    requires forall i, k | 0 <= i < k < |s| :: Precedes(key(s[i]), key(s[k]))
    requires forall x, y | x in s && y in s && key(x) == key(y) :: x == y
    ensures SortBy(key, s) == s
  {
    SortedIff(key, s);
    SortByCorrect(key, s);
    SortedUnique(key, s, SortBy(key, s));
  }

  lemma {:induction false} OrderedIsCanon(e: Entity)
    requires EntityOk(e) && EntityOrdered(e)
    ensures CanonEntity(e) == e
  {
    forall x, y | x in e.fields && y in e.fields && NameOfIrField(x) == NameOfIrField(y) ensures x == y {
      KeyInjective(NameOfIrField, e.fields, x, y);
    }
    forall x, y | (x in e.uniqueKeys || x in e.indexes) && (y in e.uniqueKeys || y in e.indexes) && KeyText(x) == KeyText(y) ensures x == y {
      TupleIdentifiers(e, x);
      TupleIdentifiers(e, y);
      KeyTextInjective(x, y);
    }
    forall x, y | x in e.foreignKeys && y in e.foreignKeys && ForeignText(x) == ForeignText(y) ensures x == y {
      TupleIdentifiers(e, x.fields);
      TupleIdentifiers(e, y.fields);
      ForeignTextInjective(x, y);
    }
    SortingSorted(NameOfIrField, e.fields);
    SortingSorted(KeyText, e.uniqueKeys);
    SortingSorted(KeyText, e.indexes);
    SortingSorted(ForeignText, e.foreignKeys);
  }

  lemma {:induction false} OrderedIsCanonical(ir: Ir)
    requires IrOk(ir) && Ordered(ir)
    ensures Canonical(ir) == ir
  {
    forall i | 0 <= i < |ir.entities| ensures Map(CanonEntity, ir.entities)[i] == ir.entities[i] {
      assert ir.entities[i] in ir.entities;
      OrderedIsCanon(ir.entities[i]);
    }
    assert Map(CanonEntity, ir.entities) == ir.entities;
    NamesDistinct(ir.entities);
    forall x, y | x in ir.entities && y in ir.entities && NameOfEntity(x) == NameOfEntity(y) ensures x == y {
      KeyInjective(NameOfEntity, ir.entities, x, y);
    }
    SortingSorted(NameOfEntity, ir.entities);
  }

  // ----- the main result -----

  lemma {:induction false} CanonicalMeans(ir: Ir, n: Ir)
    requires IrOk(ir)
    ensures n == Canonical(ir) <==> Reordering(ir, n) && Ordered(n)
  {
    if n == Canonical(ir) {
      CanonicalIsFixed(ir);
      CanonicalIsOrdered(ir);
    }
    if Reordering(ir, n) && Ordered(n) {
      ValidityIsOrderBlind(ir, n);
      CanonicalFormIsUnique(ir, n);
      OrderedIsCanonical(n);
    }
  }

  /** Data normalises exactly when it spells a valid IR, and then to its declarations in canonical order. */
  lemma {:induction false} NormalizeMeans(j: Json, n: Ir)
    ensures Normalize(j) == Some(n) <==> exists ir :: IrReading.IrSpells(j, ir) && IrValid(ir) && Reordering(ir, n) && Ordered(n)
  {
    if Normalize(j) == Some(n) {
      var ir := ReadIr(j);
      IrReading.IrReadIff(j, ir);
      IrValidIff(ir);
      CanonicalMeans(ir, n);
    }
    if ir :| IrReading.IrSpells(j, ir) && IrValid(ir) && Reordering(ir, n) && Ordered(n) {
      IrReading.IrReadIff(j, ir);
      IrValidIff(ir);
      CanonicalMeans(ir, n);
    }
  }
}
