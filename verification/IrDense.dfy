/** On data without holes the schema-IR front end is the one on JSON data. */
module IrDense {
  import opened Seqs
  import opened Strings
  import opened Json
  import opened SchemaIr
  import opened IrHoles
  import JsonText
  import Shape

  function SomeWhole(key: seq<string>): Option<HoledKey> { Some(Whole(key)) }

  /** An entity without holes among the entities that may have some. */
  function HoledOf(e: Entity): HoledEntity {
    HoledEntity(BaseOf(e), Map(Whole, e.uniqueKeys), Map(SomeWhole, e.indexes), Map(SomeOf, e.foreignKeys))
  }

  function HoledIrOf(ir: Ir): HoledIr { HoledIr(ir.databaseSchema, Map(HoledOf, ir.entities)) }

  function Embedded(ir: Option<Ir>): Option<HoledIr> { if ir.Some? then Some(HoledIrOf(ir.value)) else None }

  // ----- texts and sorting -----

  lemma WholeText(key: seq<string>)
    ensures HoledText(Whole(key)) == KeyText(key)
  {
    assert Map(TermOf, Whole(key)) == JsonText.Texts(key);
  }

  lemma {:induction false} AllPresent<T>(xs: seq<T>)
    ensures Present(Map(SomeOf, xs)) == xs
  {
    if xs != [] {
      var n := |xs| - 1;
      AllPresent(xs[..n]);
      assert Map(SomeOf, xs)[..n] == Map(SomeOf, xs[..n]);
      assert xs == xs[..n] + [xs[n]];
    }
  }

  lemma SortWhole<T>(key: T -> string, xs: seq<T>)
    ensures SortHoles(key, Map(SomeOf, xs)) == Map(SomeOf, SortBy(key, xs))
  {
    AllPresent(xs);
  }

  lemma SortedWholeText(key: seq<string>)
    ensures SortedHoledText(Whole(key)) == SortedKeyText(key)
  {
    SortWhole(Self, key);
    WholeText(SortBy(Self, key));
  }

  lemma SortKeys(keys: seq<seq<string>>)
    ensures SortBy(HoledText, Map(Whole, keys)) == Map(Whole, SortBy(KeyText, keys))
  {
    forall k | k in keys ensures HoledText(Whole(k)) == KeyText(k) {
      WholeText(k);
    }
    SortByMapped(Whole, KeyText, HoledText, keys);
  }

  lemma TwoMaps(keys: seq<seq<string>>)
    ensures Map(SomeWhole, keys) == Map(SomeOf, Map(Whole, keys))
  {
  }

  lemma SortIndexes(keys: seq<seq<string>>)
    ensures SortHoles(HoledText, Map(SomeWhole, keys)) == Map(SomeWhole, SortBy(KeyText, keys))
  {
    TwoMaps(keys);
    TwoMaps(SortBy(KeyText, keys));
    SortWhole(HoledText, Map(Whole, keys));
    SortKeys(keys);
  }

  lemma CanonOfWhole(e: Entity)
    ensures CanonHoled(HoledOf(e)) == HoledOf(CanonEntity(e))
  {
    SortKeys(e.uniqueKeys);
    SortIndexes(e.indexes);
    SortWhole(ForeignText, e.foreignKeys);
  }

  lemma CanonicalOfWhole(ir: Ir)
    ensures CanonicalHoled(HoledIrOf(ir)) == HoledIrOf(Canonical(ir))
  {
    var canon := Map(CanonEntity, ir.entities);
    forall e | e in canon ensures NameOfHoled(HoledOf(e)) == NameOfEntity(e) {}
    SortByMapped(HoledOf, NameOfEntity, NameOfHoled, canon);
    forall i | 0 <= i < |ir.entities| ensures Map(CanonHoled, Map(HoledOf, ir.entities))[i] == Map(HoledOf, canon)[i] {
      CanonOfWhole(ir.entities[i]);
    }
    assert Map(CanonHoled, Map(HoledOf, ir.entities)) == Map(HoledOf, canon);
  }

  // ----- rules -----

  lemma DistinctPresent<T>(xs: seq<T>)
    ensures NoDup(Map(SomeOf, xs)) <==> NoDup(xs)
  {
    var ys := Map(SomeOf, xs);
    forall i, k | 0 <= i < k < |xs| ensures ys[i] == ys[k] <==> xs[i] == xs[k] {}
  }

  lemma LiftedTexts<T>(f: T -> string, xs: seq<T>)
    ensures Map(Lift(f), Map(SomeOf, xs)) == Map(SomeOf, Map(f, xs))
  {
  }

  lemma WholeInjective(a: seq<string>, b: seq<string>)
    ensures Whole(a) == Whole(b) <==> a == b
  {
    if Whole(a) == Whole(b) {
      forall i | 0 <= i < |a| ensures a[i] == b[i] {
        assert Whole(a)[i] == Whole(b)[i];
      }
    }
  }

  lemma WholeTuple(key: seq<string>, fields: map<string, IrField>)
    ensures HoledTupleOk(Whole(key), fields) <==> TupleOk(key, fields)
  {
    forall n | n in key ensures Some(n) in Whole(key) {
      MapIn(SomeOf, key, n);
    }
    forall i, k | 0 <= i < k < |key| ensures Whole(key)[i] == Whole(key)[k] <==> key[i] == key[k] {}
  }

  lemma WholeTuples(keys: seq<seq<string>>, fields: map<string, IrField>)
    ensures (forall k | k in Map(Whole, keys) :: HoledTupleOk(k, fields)) <==> forall k | k in keys :: TupleOk(k, fields)
    ensures (forall k | k in Map(SomeWhole, keys) && k.Some? :: HoledTupleOk(k.value, fields)) <==>
              forall k | k in keys :: TupleOk(k, fields)
  {
    forall k | k in keys ensures Whole(k) in Map(Whole, keys) && SomeWhole(k) in Map(SomeWhole, keys) {
      MapIn(Whole, keys, k);
      MapIn(SomeWhole, keys, k);
    }
    forall k | k in keys ensures HoledTupleOk(Whole(k), fields) <==> TupleOk(k, fields) {
      WholeTuple(k, fields);
    }
  }

  lemma KeysOfWhole(e: Entity)
    ensures HoledKeys(HoledOf(e)) == Map(Whole, EntityKeys(e))
  {
    MapAppend(Whole, [e.primaryKey], e.uniqueKeys);
  }

  lemma TextsOfWhole(keys: seq<seq<string>>)
    ensures Map(SortedHoledText, Map(Whole, keys)) == Map(SortedKeyText, keys)
    ensures Map(HoledText, Map(Whole, keys)) == Map(KeyText, keys)
  {
    forall i | 0 <= i < |keys|
      ensures Map(SortedHoledText, Map(Whole, keys))[i] == Map(SortedKeyText, keys)[i]
      ensures Map(HoledText, Map(Whole, keys))[i] == Map(KeyText, keys)[i]
    {
      SortedWholeText(keys[i]);
      WholeText(keys[i]);
    }
  }

  lemma IndexTextsOfWhole(keys: seq<seq<string>>)
    ensures NoDup(Map(Lift(HoledText), Map(SomeWhole, keys))) <==> NoDup(Map(KeyText, keys))
  {
    TwoMaps(keys);
    LiftedTexts(HoledText, Map(Whole, keys));
    TextsOfWhole(keys);
    DistinctPresent(Map(KeyText, keys));
  }

  lemma KeyTextsOfWhole(e: Entity)
    ensures NoDup(Map(SortedHoledText, HoledKeys(HoledOf(e)))) <==> NoDup(Map(SortedKeyText, EntityKeys(e)))
    ensures NoDup(Map(Lift(HoledText), HoledOf(e).indexes)) <==> NoDup(Map(KeyText, e.indexes))
  {
    KeysOfWhole(e);
    TextsOfWhole(EntityKeys(e));
    IndexTextsOfWhole(e.indexes);
  }

  lemma KeysOkOfWhole(e: Entity)
    ensures HoledKeysOk(HoledOf(e)) <==> EntityKeysOk(e)
  {
    assert IrFields(HoledOf(e).base) == IrFields(e);
    WholeTuples(e.uniqueKeys, IrFields(e));
    WholeTuples(e.indexes, IrFields(e));
    KeyTextsOfWhole(e);
  }

  lemma EachForeignOfWhole(keys: seq<IrForeign>, fields: map<string, IrField>)
    ensures (forall k | k in Map(SomeOf, keys) && k.Some? :: IrForeignOk(k.value, fields)) <==> forall k | k in keys :: IrForeignOk(k, fields)
  {
    forall k | k in keys ensures Some(k) in Map(SomeOf, keys) {
      MapIn(SomeOf, keys, k);
    }
  }

  lemma ForeignsOkOfWhole(e: Entity)
    ensures HoledForeignsOk(HoledOf(e)) <==> EntityForeignsOk(e)
  {
    assert IrFields(HoledOf(e).base) == IrFields(e);
    EachForeignOfWhole(e.foreignKeys, IrFields(e));
    LiftedTexts(RelationText, e.foreignKeys);
    DistinctPresent(Map(RelationText, e.foreignKeys));
  }

  lemma EntityOkOfWhole(e: Entity)
    ensures HoledEntityOk(HoledOf(e)) <==> EntityOk(e)
  {
    KeysOkOfWhole(e);
    ForeignsOkOfWhole(e);
  }

  lemma {:induction false} EntitiesOfWhole(entities: seq<Entity>)
    ensures HoledEntities(Map(HoledOf, entities)).Keys == Entities(entities).Keys
    ensures forall n | n in Entities(entities) :: HoledEntities(Map(HoledOf, entities))[n] == HoledOf(Entities(entities)[n])
  {
    if entities != [] {
      var n := |entities| - 1;
      EntitiesOfWhole(entities[..n]);
      assert Map(HoledOf, entities)[..n] == Map(HoledOf, entities[..n]);
    }
  }

  lemma ReferenceOkOfWhole(fields: map<string, IrField>, k: IrForeign, target: Entity)
    ensures HoledReferenceOk(fields, k, HoledOf(target)) <==> IrReferenceOk(fields, k, target)
  {
    KeysOfWhole(target);
    var keys := EntityKeys(target);
    if k.targetFields in keys {
      MapIn(Whole, keys, k.targetFields);
    }
    if Whole(k.targetFields) in Map(Whole, keys) {
      var x := MapInInverse(Whole, keys, Whole(k.targetFields));
      WholeInjective(x, k.targetFields);
    }
  }

  predicate ReferenceHolds(fields: map<string, IrField>, k: IrForeign, entities: map<string, Entity>) {
    k.entity in entities && IrReferenceOk(fields, k, entities[k.entity])
  }

  predicate HoledReferenceHolds(fields: map<string, IrField>, k: IrForeign, entities: map<string, HoledEntity>) {
    k.entity in entities && HoledReferenceOk(fields, k, entities[k.entity])
  }

  lemma ReferenceHoldsOfWhole(fields: map<string, IrField>, k: IrForeign, entities: seq<Entity>)
    ensures HoledReferenceHolds(fields, k, HoledEntities(Map(HoledOf, entities))) <==> ReferenceHolds(fields, k, Entities(entities))
  {
    EntitiesOfWhole(entities);
    if k.entity in Entities(entities) {
      ReferenceOkOfWhole(fields, k, Entities(entities)[k.entity]);
    }
  }

  lemma ReferencesOkOfWhole(e: Entity, entities: seq<Entity>)
    ensures HoledReferencesOk(HoledOf(e), HoledEntities(Map(HoledOf, entities))) <==> IrReferencesOk(e, Entities(entities))
  {
    var (keys, fields) := (e.foreignKeys, IrFields(e));
    assert IrFields(HoledOf(e).base) == fields;
    forall k | k in keys
      ensures SomeOf(k) in Map(SomeOf, keys)
      ensures HoledReferenceHolds(fields, k, HoledEntities(Map(HoledOf, entities))) <==> ReferenceHolds(fields, k, Entities(entities))
    {
      MapIn(SomeOf, keys, k);
      ReferenceHoldsOfWhole(fields, k, entities);
    }
  }

  lemma NamesOfWhole(entities: seq<Entity>)
    ensures Map(LowerNameOfHoled, Map(HoledOf, entities)) == Map(LowerName, entities)
    ensures Map(TableOfHoled, Map(HoledOf, entities)) == Map(TableOfEntity, entities)
  {
  }

  lemma EachOkOfWhole(entities: seq<Entity>)
    ensures (forall h | h in Map(HoledOf, entities) :: HoledEntityOk(h)) <==> forall e | e in entities :: EntityOk(e)
  {
    forall e | e in entities ensures HoledOf(e) in Map(HoledOf, entities) && (HoledEntityOk(HoledOf(e)) <==> EntityOk(e)) {
      MapIn(HoledOf, entities, e);
      EntityOkOfWhole(e);
    }
  }

  lemma EachReferencesOfWhole(entities: seq<Entity>, all: seq<Entity>)
    ensures (forall h | h in Map(HoledOf, entities) :: HoledReferencesOk(h, HoledEntities(Map(HoledOf, all)))) <==>
              forall e | e in entities :: IrReferencesOk(e, Entities(all))
  {
    forall e | e in entities
      ensures HoledOf(e) in Map(HoledOf, entities)
      ensures HoledReferencesOk(HoledOf(e), HoledEntities(Map(HoledOf, all))) <==> IrReferencesOk(e, Entities(all))
    {
      MapIn(HoledOf, entities, e);
      ReferencesOkOfWhole(e, all);
    }
  }

  lemma IrOkOfWhole(ir: Ir)
    ensures HoledIrOk(HoledIrOf(ir)) <==> IrOk(ir)
  {
    EachOkOfWhole(ir.entities);
    EachReferencesOfWhole(ir.entities, ir.entities);
    NamesOfWhole(ir.entities);
  }

  // ----- reading -----

  lemma {:induction false} FilledEach(slots: seq<Option<Data>>)
    ensures forall i | 0 <= i < |slots| :: FilledAll(slots)[i] == FilledSlot(slots[i])
  {
    if slots != [] {
      FilledEach(slots[..|slots| - 1]);
    }
  }

  lemma MemberFilled(d: Data, key: string)
    ensures Shape.Get(Filled(d), key) == Filled(MemberOf(d, key))
  {
  }

  lemma ListFilled(d: Data, key: string)
    ensures ListOr(Filled(d), key) == Filled(ListIn(d, key))
  {
  }

  lemma DenseMember(d: Data, key: string)
    requires HoleFree(d)
    ensures HoleFree(MemberOf(d, key)) && HoleFree(ListIn(d, key))
  {
  }

  /** A list without holes, read item by item. */
  lemma DenseSlots(d: Data)
    requires HoleFree(d)
    ensures d.Slots? <==> Filled(d).Arr?
    ensures d.Slots? ==> |Filled(d).items| == |d.slots|
    ensures d.Slots? ==> forall i | 0 <= i < |d.slots| :: d.slots[i].Some? && HoleFree(d.slots[i].value) && Filled(d).items[i] == Filled(d.slots[i].value)
  {
    if d.Slots? {
      FilledEach(d.slots);
      forall i | 0 <= i < |d.slots| ensures d.slots[i].Some? && HoleFree(d.slots[i].value) {
        assert d.slots[i] in d.slots;
      }
    }
  }

  lemma EachAgrees<S, J, T, U>(
    slots: seq<S>, items: seq<J>, slotOk: S -> bool, itemOk: J -> bool, readSlot: S -> T, read: J -> U, w: U -> T)
    requires |slots| == |items|
    requires forall i | 0 <= i < |slots| ::
               (slotOk(slots[i]) <==> itemOk(items[i])) && (slotOk(slots[i]) ==> readSlot(slots[i]) == w(read(items[i])))
    ensures (forall s | s in slots :: slotOk(s)) <==> forall x | x in items :: itemOk(x)
    ensures (forall s | s in slots :: slotOk(s)) ==> Map(readSlot, slots) == Map(w, Map(read, items))
  {
    forall i | 0 <= i < |slots| ensures slots[i] in slots && items[i] in items {}
    if forall s | s in slots :: slotOk(s) {
      assert Map(readSlot, slots) == Map(w, Map(read, items));
    }
  }

  /** What is true of every slot is true of every item, and the readings are the same list. */
  lemma EachOfDense<T, U>(d: Data, slotOk: Option<Data> -> bool, itemOk: Json -> bool, readSlot: Option<Data> -> T, read: Json -> U, w: U -> T)
    requires HoleFree(d) && d.Slots?
    requires forall x | HoleFree(x) ::
               (slotOk(Some(x)) <==> itemOk(Filled(x))) && (slotOk(Some(x)) ==> readSlot(Some(x)) == w(read(Filled(x))))
    ensures (forall s | s in d.slots :: slotOk(s)) <==> forall x | x in Filled(d).items :: itemOk(x)
    ensures (forall s | s in d.slots :: slotOk(s)) ==> Map(readSlot, d.slots) == Map(w, Map(read, Filled(d).items))
  {
    DenseSlots(d);
    var (slots, items) := (d.slots, Filled(d).items);
    forall i | 0 <= i < |slots|
      ensures slotOk(slots[i]) <==> itemOk(items[i])
      ensures slotOk(slots[i]) ==> readSlot(slots[i]) == w(read(items[i]))
    {
      var x := slots[i].value;
      assert slots[i] == Some(x) && HoleFree(x);
    }
    EachAgrees(slots, items, slotOk, itemOk, readSlot, read, w);
  }

  lemma LiftSome<T, U>(f: T -> U, x: T)
    ensures Lift(f)(Some(x)) == Some(f(x))
  {
  }

  predicate IsString(j: Json) { j.Str? }

  lemma KeyOfDense(d: Data)
    requires HoleFree(d)
    ensures ReadsKey(d) <==> IsStrings(Filled(d))
    ensures ReadsKey(d) ==> KeyIn(d) == Whole(Shape.DecodeNames(Filled(d)))
  {
    DenseSlots(d);
    if d.Slots? {
      forall x | HoleFree(x)
        ensures (ReadsName(Some(x)) <==> IsString(Filled(x))) && Lift(NameIn)(Some(x)) == SomeOf(Shape.TextOf(Filled(x)))
      {
        LiftSome(NameIn, x);
      }
      EachOfDense(d, ReadsName, IsString, Lift(NameIn), Shape.TextOf, SomeOf);
    }
  }

  lemma UniqueOfDense(d: Data)
    requires HoleFree(d)
    ensures ReadsUniqueKeys(d) <==> IsStringsList(Filled(d))
    ensures ReadsUniqueKeys(d) ==>
              Map(UniqueIn, SlotsIn(d)) == Map(Whole, Map(Shape.DecodeNames, Shape.ItemsOf(Filled(d))))
  {
    DenseSlots(d);
    if d.Slots? {
      forall x | HoleFree(x) ensures (ReadsKey(x) <==> IsStrings(Filled(x))) && (ReadsKey(x) ==> KeyIn(x) == Whole(Shape.DecodeNames(Filled(x)))) {
        KeyOfDense(x);
      }
      EachOfDense(d, ReadsUnique, IsStrings, UniqueIn, Shape.DecodeNames, Whole);
    }
  }

  lemma IndexesOfDense(d: Data)
    requires HoleFree(d)
    ensures ReadsIndexes(d) <==> IsStringsList(Filled(d))
    ensures ReadsIndexes(d) ==>
              Map(Lift(KeyIn), SlotsIn(d)) == Map(SomeWhole, Map(Shape.DecodeNames, Shape.ItemsOf(Filled(d))))
  {
    DenseSlots(d);
    if d.Slots? {
      forall x | HoleFree(x) ensures (ReadsKey(x) <==> IsStrings(Filled(x))) && (ReadsKey(x) ==> KeyIn(x) == Whole(Shape.DecodeNames(Filled(x)))) {
        KeyOfDense(x);
      }
      EachOfDense(d, ReadsIfPresent, IsStrings, Lift(KeyIn), Shape.DecodeNames, SomeWhole);
    }
  }

  lemma ForeignsOfDense(d: Data)
    requires HoleFree(d)
    ensures ReadsForeignKeys(d) <==> IsForeignList(Filled(d))
    ensures ReadsForeignKeys(d) ==>
              Map(Lift(ForeignIn), SlotsIn(d)) == Map(SomeOf, Map(ReadForeign, Shape.ItemsOf(Filled(d))))
  {
    DenseSlots(d);
    if d.Slots? {
      forall x | HoleFree(x)
        ensures (ReadsForeignIfPresent(Some(x)) <==> ForeignShape(Filled(x))) && Lift(ForeignIn)(Some(x)) == SomeOf(ReadForeign(Filled(x)))
      {
        LiftSome(ForeignIn, x);
      }
      EachOfDense(d, ReadsForeignIfPresent, ForeignShape, Lift(ForeignIn), ReadForeign, SomeOf);
    }
  }

  lemma EntityOfDense(d: Data)
    requires HoleFree(d)
    ensures ReadsEntity(d) <==> EntityShape(Filled(d))
    ensures ReadsEntity(d) ==> EntityIn(d) == HoledOf(ReadEntity(Filled(d)))
  {
    DenseMember(d, "uniqueKeys");
    DenseMember(d, "indexes");
    DenseMember(d, "foreignKeys");
    ListFilled(d, "uniqueKeys");
    ListFilled(d, "indexes");
    ListFilled(d, "foreignKeys");
    UniqueOfDense(ListIn(d, "uniqueKeys"));
    IndexesOfDense(ListIn(d, "indexes"));
    ForeignsOfDense(ListIn(d, "foreignKeys"));
  }

  lemma IrOfDense(d: Data)
    requires HoleFree(d)
    ensures ReadsIr(d) <==> IrShape(Filled(d))
    ensures ReadsIr(d) ==> IrIn(d) == HoledIrOf(ReadIr(Filled(d)))
  {
    var entities := MemberOf(d, "entities");
    DenseMember(d, "entities");
    MemberFilled(d, "entities");
    DenseSlots(entities);
    if entities.Slots? {
      forall x | HoleFree(x) ensures (ReadsEntity(x) <==> EntityShape(Filled(x))) && (ReadsEntity(x) ==> EntityIn(x) == HoledOf(ReadEntity(Filled(x)))) {
        EntityOfDense(x);
      }
      EachOfDense(entities, ReadsEntitySlot, EntityShape, EntityInSlot, ReadEntity, HoledOf);
    }
  }

  /** Without holes, reading by index is reading JSON data. */
  lemma DenseNormalises(d: Data)
    requires HoleFree(d)
    ensures NormalizeData(d) == Embedded(Normalize(Filled(d)))
  {
    IrOfDense(d);
    if ReadsIr(d) {
      IrOkOfWhole(ReadIr(Filled(d)));
      CanonicalOfWhole(ReadIr(Filled(d)));
    }
  }
}
