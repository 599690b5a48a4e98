/** Which schema IR a JSON value spells, member by member, and that the front end reads just that one. */
module IrReading {
  import opened Seqs
  import opened Json
  import opened Document
  import opened SchemaIr
  import opened Reading
  import Shape

  // ----- the relation -----

  /** An object with every required key and no unknown one. */
  predicate Closed(j: Json, required: set<string>, optional: set<string>) {
    j.Obj? && (forall k | k in required :: k in j.members) && forall k | k in j.members :: k in required || k in optional
  }

  predicate BoundSpells(j: Json, key: string, x: Option<int>) {
    if x.Some? then Shape.Has(j, key) && Shape.Get(j, key) == Num(x.value as real) else !Shape.Has(j, key)
  }

  predicate IrFieldSpells(j: Json, f: IrField) {
    && Closed(j, {"name", "column", "type", "required", "nullable"}, {"minLength", "maxLength", "minimum", "maximum"})
    && Shape.Get(j, "name") == Str(f.name) && Shape.Get(j, "column") == Str(f.column)
    && ScalarSpells(Shape.Get(j, "type"), f.scalar)
    && Shape.Get(j, "required") == Bool(f.required) && Shape.Get(j, "nullable") == Bool(f.nullable)
    && BoundSpells(j, "minLength", f.minLength) && BoundSpells(j, "maxLength", f.maxLength)
    && BoundSpells(j, "minimum", f.minimum) && BoundSpells(j, "maximum", f.maximum)
  }

  /** Without a delete action there is none. */
  predicate IrActionSpells(j: Json, a: IrAction) {
    if !Shape.Has(j, "onDelete") then a == NoAction
    else match a
      case NoAction => Shape.Get(j, "onDelete") == Str("noAction")
      case RestrictDelete => Shape.Get(j, "onDelete") == Str("restrict")
      case CascadeDelete => Shape.Get(j, "onDelete") == Str("cascade")
      case SetNullOnDelete => Shape.Get(j, "onDelete") == Str("setNull")
  }

  predicate IrForeignSpells(j: Json, k: IrForeign) {
    && Closed(j, {"fields", "references"}, {"onDelete"})
    && NamesSpell(Shape.Get(j, "fields"), k.fields)
    && Closed(Shape.Get(j, "references"), {"entity", "fields"}, {})
    && Shape.Get(Shape.Get(j, "references"), "entity") == Str(k.entity)
    && NamesSpell(Shape.Get(Shape.Get(j, "references"), "fields"), k.targetFields)
    && IrActionSpells(j, k.onDelete)
  }

  /** An absent list is empty. */
  ghost predicate MaybeSpells<T>(spells: (Json, T) -> bool, j: Json, key: string, items: seq<T>) {
    if Shape.Has(j, key) then ListSpells(spells, Shape.Get(j, key), items) else items == []
  }

  ghost predicate EntitySpells(j: Json, e: Entity) {
    && Closed(j, {"name", "table", "fields", "primaryKey"}, {"uniqueKeys", "indexes", "foreignKeys"})
    && Shape.Get(j, "name") == Str(e.name) && Shape.Get(j, "table") == Str(e.table)
    && ListSpells(IrFieldSpells, Shape.Get(j, "fields"), e.fields)
    && NamesSpell(Shape.Get(j, "primaryKey"), e.primaryKey)
    && MaybeSpells(NamesSpell, j, "uniqueKeys", e.uniqueKeys) && MaybeSpells(NamesSpell, j, "indexes", e.indexes)
    && MaybeSpells(IrForeignSpells, j, "foreignKeys", e.foreignKeys)
  }

  ghost predicate IrSpells(j: Json, ir: Ir) {
    && Closed(j, {"schemaVersion", "databaseSchema", "entities"}, {})
    && Shape.Get(j, "schemaVersion") == Str("ores.schema-ir.v1") && Shape.Get(j, "databaseSchema") == Str(ir.databaseSchema)
    && ListSpells(EntitySpells, Shape.Get(j, "entities"), ir.entities)
  }

  // ----- the front end tests for the shape and reads what is spelled -----

  lemma {:induction false} ClosedIs(j: Json, required: set<string>, optional: set<string>)
    ensures Closed(j, required, optional) <==> IsRecord(j, required, optional)
  {
  }

  lemma {:induction false} NamesReadIff(j: Json, names: seq<string>)
    ensures NamesSpell(j, names) <==> IsStrings(j) && Shape.DecodeNames(j) == names
  {
    if NamesSpell(j, names) {
      forall x | x in j.items ensures x.Str? {
        var i :| 0 <= i < |j.items| && j.items[i] == x;
      }
      assert Shape.DecodeNames(j) == names;
    }
    if IsStrings(j) && Shape.DecodeNames(j) == names {
      forall i | 0 <= i < |names| ensures j.items[i] == Str(names[i]) {
        assert j.items[i] in j.items;
      }
    }
  }

  lemma {:induction false} BoundReadIff(j: Json, key: string, x: Option<int>)
    ensures BoundSpells(j, key, x) <==> IntegerIfPresent(j, key) && ReadBound(j, key) == x
  {
    if x.Some? && BoundSpells(j, key, x) {
      assert (x.value as real).Floor == x.value;
    }
  }

  lemma {:induction false} ScalarReadIff(j: Json, s: Scalar)
    ensures ScalarSpells(j, s) <==> Shape.ScalarOf(j) == Some(s)
  {
  }

  lemma {:induction false} FieldReadIff(j: Json, f: IrField)
    ensures IrFieldSpells(j, f) <==> FieldShape(j) && ReadField(j) == f
  {
    ClosedIs(j, SchemaIr.FIELD_KEYS, BOUND_KEYS);
    ScalarReadIff(Shape.Get(j, "type"), f.scalar);
    BoundReadIff(j, "minLength", f.minLength);
    BoundReadIff(j, "maxLength", f.maxLength);
    BoundReadIff(j, "minimum", f.minimum);
    BoundReadIff(j, "maximum", f.maximum);
  }

  lemma {:induction false} ForeignReadIff(j: Json, k: IrForeign)
    ensures IrForeignSpells(j, k) <==> ForeignShape(j) && ReadForeign(j) == k
  {
    var target := Shape.Get(j, "references");
    ClosedIs(j, SchemaIr.FOREIGN_KEYS, {"onDelete"});
    ClosedIs(target, SchemaIr.REFERENCE_KEYS, {});
    NamesReadIff(Shape.Get(j, "fields"), k.fields);
    NamesReadIff(Shape.Get(target, "fields"), k.targetFields);
  }

  /** A list is read item by item. */
  lemma {:induction false} ListReadIff<T>(spells: (Json, T) -> bool, shape: Json -> bool, read: Json -> T, j: Json, items: seq<T>)
    requires forall x, t :: spells(x, t) <==> shape(x) && read(x) == t
    ensures ListSpells(spells, j, items) <==> j.Arr? && (forall x | x in j.items :: shape(x)) && Map(read, j.items) == items
  {
    if ListSpells(spells, j, items) {
      forall x | x in j.items ensures shape(x) {
        var i :| 0 <= i < |j.items| && j.items[i] == x;
        assert spells(j.items[i], items[i]);
      }
      forall i | 0 <= i < |items| ensures read(j.items[i]) == items[i] {
        assert spells(j.items[i], items[i]);
      }
      assert Map(read, j.items) == items;
    }
    if j.Arr? && (forall x | x in j.items :: shape(x)) && Map(read, j.items) == items {
      forall i | 0 <= i < |items| ensures spells(j.items[i], items[i]) {
        assert j.items[i] in j.items;
      }
    }
  }

  lemma {:induction false} MaybeReadIff<T>(spells: (Json, T) -> bool, shape: Json -> bool, read: Json -> T, j: Json, key: string, items: seq<T>)
    requires forall x, t :: spells(x, t) <==> shape(x) && read(x) == t
    ensures MaybeSpells(spells, j, key, items) <==>
              ListOr(j, key).Arr? && (forall x | x in ListOr(j, key).items :: shape(x)) && Map(read, ListOr(j, key).items) == items
  {
    ListReadIff(spells, shape, read, Shape.Get(j, key), items);
  }

  lemma {:induction false} EntityListsIff(j: Json, e: Entity)
    ensures MaybeSpells(NamesSpell, j, "uniqueKeys", e.uniqueKeys) <==>
              IsStringsList(ListOr(j, "uniqueKeys")) && ReadEntity(j).uniqueKeys == e.uniqueKeys
    ensures MaybeSpells(NamesSpell, j, "indexes", e.indexes) <==> IsStringsList(ListOr(j, "indexes")) && ReadEntity(j).indexes == e.indexes
    ensures MaybeSpells(IrForeignSpells, j, "foreignKeys", e.foreignKeys) <==>
              IsForeignList(ListOr(j, "foreignKeys")) && ReadEntity(j).foreignKeys == e.foreignKeys
  {
    forall x, t ensures NamesSpell(x, t) <==> IsStrings(x) && Shape.DecodeNames(x) == t { NamesReadIff(x, t); }
    forall x, t ensures IrForeignSpells(x, t) <==> ForeignShape(x) && ReadForeign(x) == t { ForeignReadIff(x, t); }
    MaybeReadIff(NamesSpell, IsStrings, Shape.DecodeNames, j, "uniqueKeys", e.uniqueKeys);
    MaybeReadIff(NamesSpell, IsStrings, Shape.DecodeNames, j, "indexes", e.indexes);
    MaybeReadIff(IrForeignSpells, ForeignShape, ReadForeign, j, "foreignKeys", e.foreignKeys);
  }

  lemma {:induction false} EntityReadIff(j: Json, e: Entity)
    ensures EntitySpells(j, e) <==> EntityShape(j) && ReadEntity(j) == e
  {
    ClosedIs(j, SchemaIr.ENTITY_KEYS, LIST_KEYS);
    forall x, t ensures IrFieldSpells(x, t) <==> FieldShape(x) && ReadField(x) == t { FieldReadIff(x, t); }
    ListReadIff(IrFieldSpells, FieldShape, ReadField, Shape.Get(j, "fields"), e.fields);
    NamesReadIff(Shape.Get(j, "primaryKey"), e.primaryKey);
    EntityListsIff(j, e);
  }

  /** The shape test passes on the values that spell an IR, and that IR is the one read. */
  lemma {:induction false} IrReadIff(j: Json, ir: Ir)
    ensures IrSpells(j, ir) <==> IrShape(j) && ReadIr(j) == ir
  {
    ClosedIs(j, IR_KEYS, {});
    forall x, t ensures EntitySpells(x, t) <==> EntityShape(x) && ReadEntity(x) == t { EntityReadIff(x, t); }
    ListReadIff(EntitySpells, EntityShape, ReadEntity, Shape.Get(j, "entities"), ir.entities);
  }
}
