/** Which document a JSON value spells, member by member, and that reading and writing keep to it. */
module Reading {
  import opened Seqs
  import opened Json
  import opened Document
  import opened Shape

  // ----- the relation -----

  predicate NamesSpell(j: Json, names: seq<string>) {
    j.Arr? && |j.items| == |names| && forall i | 0 <= i < |names| :: j.items[i] == Str(names[i])
  }

  predicate ScalarSpells(j: Json, s: Scalar) {
    match s
    case StringType => j == Str("string")
    case BooleanType => j == Str("boolean")
    case Int32Type => j == Str("int32")
    case UuidType => j == Str("uuid")
  }

  predicate ActionSpells(j: Json, a: DeleteAction) {
    match a
    case Restrict => j == Str("restrict")
    case Cascade => j == Str("cascade")
    case SetNull => j == Str("setNull")
  }

  /** The member is there exactly when there is a bound, and is that number. */
  predicate LengthSpells(j: Json, key: string, length: Option<nat>) {
    if length.Some? then Has(j, key) && Get(j, key) == Num(length.value as real) else !Has(j, key)
  }

  predicate FieldSpells(j: Json, f: Field) {
    && Get(j, "name") == Str(f.name) && ScalarSpells(Get(j, "type"), f.scalar)
    && Get(j, "required") == Bool(f.required) && Get(j, "nullable") == Bool(f.nullable)
    && LengthSpells(j, "minLength", f.minLength) && LengthSpells(j, "maxLength", f.maxLength)
  }

  predicate ColumnSpells(j: Json, c: Column) {
    Get(j, "field") == Str(c.field) && Get(j, "name") == Str(c.name)
  }

  predicate ForeignSpells(j: Json, k: ForeignKey) {
    && NamesSpell(Get(j, "fields"), k.fields)
    && Get(Get(j, "references"), "model") == Str(k.model)
    && NamesSpell(Get(Get(j, "references"), "fields"), k.targetFields)
    && ActionSpells(Get(j, "onDelete"), k.onDelete)
  }

  /** Item by item. */
  ghost predicate ListSpells<T>(spells: (Json, T) -> bool, j: Json, items: seq<T>) {
    j.Arr? && |j.items| == |items| && forall i | 0 <= i < |items| :: spells(j.items[i], items[i])
  }

  ghost predicate StorageSpells(j: Json, s: Storage) {
    && Get(j, "schema") == Str(s.schema) && Get(j, "table") == Str(s.table)
    && ListSpells(ColumnSpells, Get(j, "columns"), s.columns)
    && NamesSpell(Get(j, "primaryKey"), s.primaryKey)
    && ListSpells(NamesSpell, Get(j, "uniqueKeys"), s.uniqueKeys)
    && ListSpells(ForeignSpells, Get(j, "foreignKeys"), s.foreignKeys)
  }

  ghost predicate ModelSpells(j: Json, m: Model) {
    && Get(j, "name") == Str(m.name) && ListSpells(FieldSpells, Get(j, "fields"), m.fields)
    && if m.storage.Some? then Has(j, "storage") && StorageSpells(Get(j, "storage"), m.storage.value) else !Has(j, "storage")
  }

  ghost predicate Spells(j: Json, d: Document) {
    ListSpells(ModelSpells, Get(j, "models"), d)
  }

  // ----- what is written spells what was meant -----

  lemma {:induction false} MappedSpells<T>(write: T -> Json, spells: (Json, T) -> bool, items: seq<T>)
    requires forall x | x in items :: spells(write(x), x)
    ensures ListSpells(spells, Arr(Map(write, items)), items)
  {
  }

  lemma {:induction false} NamesWritten(names: seq<string>)
    ensures NamesSpell(EncodeNames(names), names)
  {
  }

  lemma {:induction false} LengthAsOptional(key: string, length: Option<nat>)
    ensures EncodeLength(key, length) == Optional(key, if length.Some? then Num(length.value as real) else Null, length.Some?)
  {
  }

  lemma {:induction false} FieldWritten(f: Field)
    ensures FieldSpells(EncodeField(f), f)
  {
    LengthAsOptional("minLength", f.minLength);
    LengthAsOptional("maxLength", f.maxLength);
    FieldRecord(Str(f.name), Str(ScalarText(f.scalar)), Bool(f.required), Bool(f.nullable),
                if f.minLength.Some? then Num(f.minLength.value as real) else Null,
                if f.maxLength.Some? then Num(f.maxLength.value as real) else Null, f.minLength.Some?, f.maxLength.Some?);
  }

  lemma {:induction false} ColumnWritten(c: Column)
    ensures ColumnSpells(EncodeColumn(c), c)
  {
    Shape.ColumnRecord(Str(c.field), Str(c.name));
  }

  lemma {:induction false} ForeignWritten(k: ForeignKey)
    ensures ForeignSpells(EncodeForeign(k), k)
  {
    NamesWritten(k.fields);
    NamesWritten(k.targetFields);
    ForeignRecord(EncodeNames(k.fields), EncodeReference(k), Str(ActionText(k.onDelete)));
    ReferenceRecord(Str(k.model), EncodeNames(k.targetFields));
  }

  lemma {:induction false} StorageWritten(s: Storage)
    ensures StorageSpells(EncodeStorage(s), s)
  {
    StorageRecord(Str(s.schema), Str(s.table), Arr(Map(EncodeColumn, s.columns)), EncodeNames(s.primaryKey),
                  Arr(Map(EncodeNames, s.uniqueKeys)), Arr(Map(EncodeForeign, s.foreignKeys)));
    NamesWritten(s.primaryKey);
    forall c | c in s.columns ensures ColumnSpells(EncodeColumn(c), c) { ColumnWritten(c); }
    forall k | k in s.uniqueKeys ensures NamesSpell(EncodeNames(k), k) { NamesWritten(k); }
    forall k | k in s.foreignKeys ensures ForeignSpells(EncodeForeign(k), k) { ForeignWritten(k); }
    MappedSpells(EncodeColumn, ColumnSpells, s.columns);
    MappedSpells(EncodeNames, NamesSpell, s.uniqueKeys);
    MappedSpells(EncodeForeign, ForeignSpells, s.foreignKeys);
  }

  lemma {:induction false} ModelWritten(m: Model)
    ensures ModelSpells(EncodeModel(m), m)
  {
    var storage := if m.storage.Some? then EncodeStorage(m.storage.value) else Null;
    ModelRecord(Str(m.name), Arr(Map(EncodeField, m.fields)), storage, m.storage.Some?);
    forall f | f in m.fields ensures FieldSpells(EncodeField(f), f) { FieldWritten(f); }
    MappedSpells(EncodeField, FieldSpells, m.fields);
    if m.storage.Some? {
      StorageWritten(m.storage.value);
    }
  }

  /** The JSON form of a document spells it. */
  lemma {:induction false} DocumentWritten(d: Document)
    ensures Spells(Encode(d), d)
  {
    DocumentRecord(Str(VERSION), Arr(Map(EncodeModel, d)));
    forall m | m in d ensures ModelSpells(EncodeModel(m), m) { ModelWritten(m); }
    MappedSpells(EncodeModel, ModelSpells, d);
  }

  // ----- and no value spells two -----

  lemma {:induction false} ListSpellsOnce<T>(spells: (Json, T) -> bool, j: Json, a: seq<T>, b: seq<T>)
    requires ListSpells(spells, j, a) && ListSpells(spells, j, b)
    requires forall x, y, i | 0 <= i < |j.items| && x in a && y in b && spells(j.items[i], x) && spells(j.items[i], y) :: x == y
    ensures a == b
  {
    forall i | 0 <= i < |a| ensures a[i] == b[i] {
      assert a[i] in a && b[i] in b;
    }
  }

  lemma {:induction false} NamesSpellOnce(j: Json, a: seq<string>, b: seq<string>)
    requires NamesSpell(j, a) && NamesSpell(j, b)
    ensures a == b
  {
    forall i | 0 <= i < |a| ensures a[i] == b[i] {
      assert Str(a[i]) == Str(b[i]);
    }
  }

  lemma {:induction false} LengthSpellsOnce(j: Json, key: string, a: Option<nat>, b: Option<nat>)
    requires LengthSpells(j, key, a) && LengthSpells(j, key, b)
    ensures a == b
  {
  }

  lemma {:induction false} FieldSpellsOnce(j: Json, a: Field, b: Field)
    requires FieldSpells(j, a) && FieldSpells(j, b)
    ensures a == b
  {
    LengthSpellsOnce(j, "minLength", a.minLength, b.minLength);
    LengthSpellsOnce(j, "maxLength", a.maxLength, b.maxLength);
  }

  lemma {:induction false} ForeignSpellsOnce(j: Json, a: ForeignKey, b: ForeignKey)
    requires ForeignSpells(j, a) && ForeignSpells(j, b)
    ensures a == b
  {
    NamesSpellOnce(Get(j, "fields"), a.fields, b.fields);
    NamesSpellOnce(Get(Get(j, "references"), "fields"), a.targetFields, b.targetFields);
  }

  lemma {:induction false} StorageSpellsOnce(j: Json, a: Storage, b: Storage)
    requires StorageSpells(j, a) && StorageSpells(j, b)
    ensures a == b
  {
    NamesSpellOnce(Get(j, "primaryKey"), a.primaryKey, b.primaryKey);
    forall x, y, k | NamesSpell(k, x) && NamesSpell(k, y) ensures x == y { NamesSpellOnce(k, x, y); }
    forall x, y, k | ForeignSpells(k, x) && ForeignSpells(k, y) ensures x == y { ForeignSpellsOnce(k, x, y); }
    ListSpellsOnce(ColumnSpells, Get(j, "columns"), a.columns, b.columns);
    ListSpellsOnce(NamesSpell, Get(j, "uniqueKeys"), a.uniqueKeys, b.uniqueKeys);
    ListSpellsOnce(ForeignSpells, Get(j, "foreignKeys"), a.foreignKeys, b.foreignKeys);
  }

  lemma {:induction false} ModelSpellsOnce(j: Json, a: Model, b: Model)
    requires ModelSpells(j, a) && ModelSpells(j, b)
    ensures a == b
  {
    forall x, y, k | FieldSpells(k, x) && FieldSpells(k, y) ensures x == y { FieldSpellsOnce(k, x, y); }
    ListSpellsOnce(FieldSpells, Get(j, "fields"), a.fields, b.fields);
    if a.storage.Some? {
      StorageSpellsOnce(Get(j, "storage"), a.storage.value, b.storage.value);
    }
  }

  lemma {:induction false} SpellsOnce(j: Json, a: Document, b: Document)
    requires Spells(j, a) && Spells(j, b)
    ensures a == b
  {
    forall x, y, k | ModelSpells(k, x) && ModelSpells(k, y) ensures x == y { ModelSpellsOnce(k, x, y); }
    ListSpellsOnce(ModelSpells, Get(j, "models"), a, b);
  }

  /** A value with the shape of a document spells the document read from it, and no other. */
  lemma {:induction false} ReadingSpells(j: Json, d: Document)
    requires ShapeFaults(j) == []
    ensures Spells(j, d) <==> d == Decode(j)
  {
    DocumentDecodes(j);
    DocumentWritten(Decode(j));
    if Spells(j, d) {
      SpellsOnce(j, d, Decode(j));
    }
  }
}
