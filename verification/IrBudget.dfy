/** An IR that fits the node budget until its defaults are written out. */
module IrBudget {
  import opened Characters
  import opened Seqs
  import opened Strings
  import opened Json
  import opened Document
  import opened Snapshot
  import opened SchemaIr
  import opened IrRoundTrip
  import opened Samples
  import opened IrDense
  import opened IrFixpoint
  import IrCanonical
  import Shape

  // ----- counting nodes -----

  function PairSize(ps: seq<Pair>): nat { SizeAll(Map(TreeOfPair, ps)) }

  lemma {:induction false} SizePlus(a: seq<Tree>, b: seq<Tree>)
    ensures SizeAll(a + b) == SizeAll(a) + SizeAll(b)
  {
    if b == [] {
      assert a + b == a;
    } else {
      SizePlus(a, b[..|b| - 1]);
      assert (a + b)[..|a| + |b| - 1] == a + b[..|b| - 1];
    }
  }

  lemma PairSizePlus(a: seq<Pair>, b: seq<Pair>)
    ensures PairSize(a + b) == PairSize(a) + PairSize(b)
  {
    MapAppend(TreeOfPair, a, b);
    SizePlus(Map(TreeOfPair, a), Map(TreeOfPair, b));
  }

  lemma PSize(key: string, t: Tree)
    ensures PairSize(P(key, t)) == Size(t)
  {
    assert Map(TreeOfPair, P(key, t)) == [t];
    assert [t][..0] == [] && SizeAll([t]) == SizeAll([t][..0]) + Size([t][0]);
  }

  lemma Successor(size: nat, n: nat)
    ensures size * (n + 1) == size * n + size
  {
  }

  lemma {:induction false} EvenTrees(ts: seq<Tree>, size: nat)
    requires forall i | 0 <= i < |ts| :: Size(ts[i]) == size
    ensures SizeAll(ts) == size * |ts|
  {
    if ts != [] {
      EvenTrees(ts[..|ts| - 1], size);
      Successor(size, |ts| - 1);
    }
  }

  lemma EvenSize<T>(write: T -> Tree, xs: seq<T>, size: nat)
    requires forall x | x in xs :: Size(write(x)) == size
    ensures SizeAll(Map(write, xs)) == size * |xs|
  {
    EvenTrees(Map(write, xs), size);
  }

  lemma NamesSize(names: seq<string>)
    ensures Size(NamesTree(names)) == 1 + |names|
  {
    EvenSize(TextTree, names, 1);
    assert 1 * |names| == |names|;
  }

  predicate Boundless(f: IrField) {
    f.minLength.None? && f.maxLength.None? && f.minimum.None? && f.maximum.None?
  }

  lemma FieldSize(f: IrField)
    requires Boundless(f)
    ensures Size(FieldTree(f)) == 6
  {
    var (a, b, c) := (P("name", TextTree(f.name)), P("column", TextTree(f.column)), P("type", TextTree(Shape.ScalarText(f.scalar))));
    var (d, e) := (P("required", Leaf(Bool(f.required))), P("nullable", Leaf(Bool(f.nullable))));
    assert FieldPairs(f) == a + b + c + d + e;
    PairSizePlus(a, b);
    PairSizePlus(a + b, c);
    PairSizePlus(a + b + c, d);
    PairSizePlus(a + b + c + d, e);
    PSize("name", TextTree(f.name));
    PSize("column", TextTree(f.column));
    PSize("type", TextTree(Shape.ScalarText(f.scalar)));
    PSize("required", Leaf(Bool(f.required)));
    PSize("nullable", Leaf(Bool(f.nullable)));
  }

  /** The shape of the entities of the large IR, before and after normalisation. */
  predicate Uniform(e: Entity) {
    && |e.fields| == 256 && (forall f | f in e.fields :: Boundless(f))
    && |e.primaryKey| == 16 && |e.uniqueKeys| == 1 && |e.uniqueKeys[0]| == 2
    && e.indexes == [] && e.foreignKeys == []
  }

  lemma ListSize(key: string, t: Tree, present: bool)
    ensures PairSize(ListPairs(key, t, present)) == if present then Size(t) else 0
  {
    PSize(key, t);
  }

  lemma BaseSize(e: Entity)
    requires Uniform(e)
    ensures PairSize(EntityBase(e)) == 1556
  {
    forall f | f in e.fields ensures Size(FieldTree(f)) == 6 {
      FieldSize(f);
    }
    EvenSize(FieldTree, e.fields, 6);
    NamesSize(e.primaryKey);
    var (a, b) := (P("name", TextTree(e.name)), P("table", TextTree(e.table)));
    var (c, d) := (P("fields", Items(Map(FieldTree, e.fields))), P("primaryKey", NamesTree(e.primaryKey)));
    PairSizePlus(a, b);
    PairSizePlus(a + b, c);
    PairSizePlus(a + b + c, d);
    PSize("name", TextTree(e.name));
    PSize("table", TextTree(e.table));
    PSize("fields", Items(Map(FieldTree, e.fields)));
    PSize("primaryKey", NamesTree(e.primaryKey));
  }

  lemma EntitySize(e: Entity, full: bool)
    requires Uniform(e)
    ensures Size(EntityTree(full)(e)) == if full then 1563 else 1561
  {
    BaseSize(e);
    var keys := KeysTree(e.uniqueKeys);
    var foreigns := Items(Map(ForeignTree(full), e.foreignKeys));
    NamesSize(e.uniqueKeys[0]);
    EvenSize(NamesTree, e.uniqueKeys, 3);
    assert Size(keys) == 4 && Size(KeysTree(e.indexes)) == 1 && Size(foreigns) == 1;
    var (a, b, c) := (ListPairs("uniqueKeys", keys, true), ListPairs("indexes", KeysTree(e.indexes), full),
                      ListPairs("foreignKeys", foreigns, full));
    assert EntityPairs(e, full) == EntityBase(e) + a + b + c;
    PairSizePlus(EntityBase(e), a);
    PairSizePlus(EntityBase(e) + a, b);
    PairSizePlus(EntityBase(e) + a + b, c);
    ListSize("uniqueKeys", keys, true);
    ListSize("indexes", KeysTree(e.indexes), full);
    ListSize("foreignKeys", foreigns, full);
  }

  lemma EntitiesSize(entities: seq<Entity>, full: bool)
    requires |entities| == 64 && forall e | e in entities :: Uniform(e)
    ensures Size(Items(Map(EntityTree(full), entities))) == if full then 100033 else 99905
  {
    forall e | e in entities ensures Size(EntityTree(full)(e)) == if full then 1563 else 1561 {
      EntitySize(e, full);
    }
    EvenSize(EntityTree(full), entities, if full then 1563 else 1561);
  }

  lemma IrSize(ir: Ir, full: bool)
    requires |ir.entities| == 64 && forall e | e in ir.entities :: Uniform(e)
    ensures Size(IrTree(ir, full)) == if full then 100036 else 99908
  {
    EntitiesSize(ir.entities, full);
    ThreePairs(TextTree(VERSION), TextTree(ir.databaseSchema), Items(Map(EntityTree(full), ir.entities)));
  }

  lemma ThreePairs(x: Tree, y: Tree, z: Tree)
    ensures Size(ObjectTree(P("schemaVersion", x) + P("databaseSchema", y) + P("entities", z))) == 1 + Size(x) + Size(y) + Size(z)
  {
    PairSizePlus(P("schemaVersion", x), P("databaseSchema", y));
    PairSizePlus(P("schemaVersion", x) + P("databaseSchema", y), P("entities", z));
    PSize("schemaVersion", x);
    PSize("databaseSchema", y);
    PSize("entities", z);
  }

  lemma UniformStays(e: Entity)
    requires Uniform(e)
    ensures Uniform(CanonEntity(e))
  {
    SortByCorrect(NameOfIrField, e.fields);
    PermMembers(e.fields, SortBy(NameOfIrField, e.fields));
    SortByCorrect(KeyText, e.uniqueKeys);
    PermMembers(e.uniqueKeys, SortBy(KeyText, e.uniqueKeys));
    assert e.uniqueKeys == [e.uniqueKeys[0]];
    assert SortBy(KeyText, e.uniqueKeys)[0] in e.uniqueKeys;
  }

  lemma CanonicalUniform(ir: Ir)
    requires forall e | e in ir.entities :: Uniform(e)
    ensures |Canonical(ir).entities| == |ir.entities| && forall e | e in Canonical(ir).entities :: Uniform(e)
  {
    var canon := Map(CanonEntity, ir.entities);
    SortByCorrect(NameOfEntity, canon);
    PermMembers(canon, SortBy(NameOfEntity, canon));
    forall e | e in SortBy(NameOfEntity, canon) ensures Uniform(e) {
      var x := MapInInverse(CanonEntity, ir.entities, e);
      UniformStays(x);
    }
  }

  // ----- building it -----

  lemma ReservedFieldsAreShort(s: string)
    requires ReservedField(s)
    ensures |s| < 15
  {
  }

  lemma ReservedModelsAreShort(s: string)
    requires s in RESERVED_MODELS
    ensures |s| < 15
  {
  }

  lemma FieldNameIsFree(i: int)
    requires 0 <= i < 256
    ensures FieldIdentifier(NameAt('f', i))
  {
    if ReservedField(NameAt('f', i)) {
      ReservedFieldsAreShort(NameAt('f', i));
    }
    NamedLetters('f', i);
  }

  lemma NamesAreFree(i: int)
    requires 0 <= i < 256
    ensures ColumnIdentifier(NameAt('c', i)) && EntityIdentifier(NameAt('E', i)) && TableIdentifier(NameAt('t', i))
  {
    if NameAt('c', i) in SYSTEM_COLUMNS {
      SystemColumnsAreShort(NameAt('c', i));
    }
    if NameAt('E', i) in RESERVED_MODELS {
      ReservedModelsAreShort(NameAt('E', i));
    }
    NamedLetters('c', i);
    NamedLetters('E', i);
    NamedLetters('t', i);
  }

  function LargeField(k: int): IrField
    requires 0 <= k < 256
  {
    IrField(NameAt('f', k), NameAt('c', k), StringType, true, false, None, None, None, None)
  }

  function LargeFields(): (r: seq<IrField>)
    ensures |r| == 256 && forall k | 0 <= k < 256 :: r[k] == LargeField(k)
  {
    seq(256, k requires 0 <= k < 256 => LargeField(k))
  }

  function LargeKey(from: nat, size: nat): (r: seq<string>)
    requires from + size <= 256
    ensures |r| == size && forall k | 0 <= k < size :: r[k] == NameAt('f', from + k)
  {
    seq(size, k requires 0 <= k < size => NameAt('f', from + k))
  }

  function LargeEntity(i: int): Entity
    requires 0 <= i < 64
  {
    Entity(NameAt('E', i), NameAt('t', i), LargeFields(), LargeKey(0, 16), [LargeKey(16, 2)], [], [])
  }

  function LargeEntities(): (r: seq<Entity>)
    ensures |r| == 64 && forall i | 0 <= i < 64 :: r[i] == LargeEntity(i)
  {
    seq(64, i requires 0 <= i < 64 => LargeEntity(i))
  }

  function Large(): Ir { Ir("app", LargeEntities()) }

  lemma LargeFieldOk(k: int)
    requires 0 <= k < 256
    ensures IrFieldOk(LargeField(k)) && Boundless(LargeField(k))
  {
    FieldNameIsFree(k);
    NamesAreFree(k);
  }

  lemma LargeFieldsOk()
    ensures forall f | f in LargeFields() :: IrFieldOk(f) && Boundless(f) && f.required && !f.nullable
  {
    forall f | f in LargeFields() ensures IrFieldOk(f) && Boundless(f) && f.required && !f.nullable {
      var k :| 0 <= k < 256 && LargeFields()[k] == f;
      LargeFieldOk(k);
    }
  }

  lemma DistinctBy<T>(f: T -> string, xs: seq<T>)
    requires forall i, k | 0 <= i < k < |xs| :: f(xs[i]) != f(xs[k])
    ensures NoDup(Map(f, xs))
  {
  }

  lemma LargeNamesDistinct()
    ensures NoDup(Map(NameOfIrField, LargeFields()))
  {
    var fields := LargeFields();
    forall i, k | 0 <= i < k < |fields| ensures NameOfIrField(fields[i]) != NameOfIrField(fields[k]) {
      if NameAt('f', i) == NameAt('f', k) {
        NamedInjective('f', i, k);
      }
    }
    DistinctBy(NameOfIrField, fields);
  }

  lemma LargeColumnsDistinct()
    ensures NoDup(Map(ColumnOfIrField, LargeFields()))
  {
    var fields := LargeFields();
    forall i, k | 0 <= i < k < |fields| ensures ColumnOfIrField(fields[i]) != ColumnOfIrField(fields[k]) {
      if NameAt('c', i) == NameAt('c', k) {
        NamedInjective('c', i, k);
      }
    }
    DistinctBy(ColumnOfIrField, fields);
  }

  lemma LargeKeyDistinct(from: nat, size: nat)
    requires from + size <= 256
    ensures NoDup(LargeKey(from, size))
  {
    var key := LargeKey(from, size);
    forall i, k | 0 <= i < k < size ensures key[i] != key[k] {
      if key[i] == key[k] {
        NamedInjective('f', from + i, from + k);
      }
    }
  }

  lemma LargeKeyKnown(from: nat, size: nat)
    requires from + size <= 256
    ensures forall n | n in LargeKey(from, size) :: n in IndexBy(NameOfIrField, LargeFields()) && FieldIdentifier(n)
  {
    var key := LargeKey(from, size);
    IndexByKeys(NameOfIrField, LargeFields());
    forall n | n in key ensures n in IndexBy(NameOfIrField, LargeFields()) && FieldIdentifier(n) {
      var k :| 0 <= k < size && key[k] == n;
      MapIn(NameOfIrField, LargeFields(), LargeFields()[from + k]);
      FieldNameIsFree(from + k);
    }
  }

  lemma LargeKeysDiffer()
    ensures SortedKeyText(LargeKey(0, 16)) != SortedKeyText(LargeKey(16, 2))
  {
    var (a, b) := (LargeKey(0, 16), LargeKey(16, 2));
    LargeKeyKnown(0, 16);
    LargeKeyKnown(16, 2);
    SortByCorrect(Self, a);
    SortByCorrect(Self, b);
    PermMembers(a, SortBy(Self, a));
    PermMembers(b, SortBy(Self, b));
    IrCanonical.KeyTextInjective(SortBy(Self, a), SortBy(Self, b));
  }

  lemma LargeTuples()
    ensures TupleOk(LargeKey(0, 16), IndexBy(NameOfIrField, LargeFields()))
    ensures TupleOk(LargeKey(16, 2), IndexBy(NameOfIrField, LargeFields()))
    ensures SolidKey(LargeKey(0, 16), IndexBy(NameOfIrField, LargeFields()))
  {
    LargeKeyKnown(0, 16);
    LargeKeyKnown(16, 2);
    LargeKeyDistinct(0, 16);
    LargeKeyDistinct(16, 2);
    LargeFieldsOk();
    IndexByKeys(NameOfIrField, LargeFields());
  }

  lemma LargeKeyTextsDistinct()
    ensures NoDup(Map(SortedKeyText, [LargeKey(0, 16)] + [LargeKey(16, 2)]))
  {
    LargeKeysDiffer();
  }

  lemma LargeKeysOk(e: Entity)
    requires e.fields == LargeFields() && e.primaryKey == LargeKey(0, 16) && e.uniqueKeys == [LargeKey(16, 2)] && e.indexes == []
    ensures EntityKeysOk(e)
  {
    LargeTuples();
    LargeKeyTextsDistinct();
    assert EntityKeys(e) == [LargeKey(0, 16)] + [LargeKey(16, 2)];
  }

  lemma LargeEntityOk(i: int)
    requires 0 <= i < 64
    ensures EntityOk(LargeEntity(i))
  {
    NamesAreFree(i);
    LargeFieldsOk();
    LargeNamesDistinct();
    LargeColumnsDistinct();
    LargeKeysOk(LargeEntity(i));
  }

  lemma LargeEntityUniform(i: int)
    requires 0 <= i < 64
    ensures Uniform(LargeEntity(i))
  {
    LargeFieldsOk();
  }

  lemma LargeNamesDiffer(i: int, k: int)
    requires 0 <= i < k < 64
    ensures LowerName(LargeEntity(i)) != LowerName(LargeEntity(k)) && NameAt('t', i) != NameAt('t', k)
  {
    if NameAt('t', i) == NameAt('t', k) {
      NamedInjective('t', i, k);
    }
    var (a, b) := (LowerName(LargeEntity(i)), LowerName(LargeEntity(k)));
    if a == b {
      LowerSuffix(i);
      LowerSuffix(k);
      SuffixInjective(i, k);
    }
  }

  lemma LowerSuffix(i: int)
    requires 0 <= i < 64
    ensures LowerName(LargeEntity(i))[13..] == Suffix(i)
  {
    LetterValue(i / 16);
    LetterValue(i % 16);
    var (name, lower) := (NameAt('E', i), LowerName(LargeEntity(i)));
    assert name[13] == Suffix(i)[0] && name[14] == Suffix(i)[1];
    assert lower[13] == LowerCase(name[13]) && lower[14] == LowerCase(name[14]);
  }

  lemma LargeEntitiesOk()
    ensures forall e | e in LargeEntities() :: EntityOk(e)
  {
    forall e | e in LargeEntities() ensures EntityOk(e) {
      var i :| 0 <= i < 64 && LargeEntities()[i] == e;
      LargeEntityOk(i);
    }
  }

  lemma LargeEntitiesUniform()
    ensures forall e | e in LargeEntities() :: Uniform(e)
  {
    forall e | e in LargeEntities() ensures Uniform(e) {
      var i :| 0 <= i < 64 && LargeEntities()[i] == e;
      LargeEntityUniform(i);
    }
  }

  lemma LargeNamesAllDistinct()
    ensures NoDup(Map(LowerName, LargeEntities()))
  {
    var entities := LargeEntities();
    forall i, k | 0 <= i < k < |entities| ensures LowerName(entities[i]) != LowerName(entities[k]) {
      LargeNamesDiffer(i, k);
    }
    DistinctBy(LowerName, entities);
  }

  lemma LargeTablesAllDistinct()
    ensures NoDup(Map(TableOfEntity, LargeEntities()))
  {
    var entities := LargeEntities();
    forall i, k | 0 <= i < k < |entities| ensures TableOfEntity(entities[i]) != TableOfEntity(entities[k]) {
      LargeNamesDiffer(i, k);
    }
    DistinctBy(TableOfEntity, entities);
  }

  lemma LargeReferencesOk(entities: map<string, Entity>)
    ensures forall e | e in LargeEntities() :: IrReferencesOk(e, entities)
  {
    forall e | e in LargeEntities() ensures IrReferencesOk(e, entities) {
      var i :| 0 <= i < 64 && LargeEntities()[i] == e;
    }
  }

  lemma LargeOk()
    ensures IrOk(Large())
  {
    LargeEntitiesOk();
    LargeNamesAllDistinct();
    LargeTablesAllDistinct();
    LargeReferencesOk(Entities(LargeEntities()));
    SchemaIsFree();
  }

  lemma SchemaIsFree()
    ensures SqlName("app") && !ReservedSchema("app")
  {
  }

  /** Any 64 entities of this shape are accepted, but the printed file, with two lists more per entity, is rejected. */
  lemma UniformExceeds(ir: Ir)
    requires IrOk(ir) && |ir.entities| == 64 && forall e | e in ir.entities :: Uniform(e)
    ensures NormalizeTree(IrTree(ir, false)) == Some(Canonical(ir))
    ensures NormalizeTree(SchemaFile(HoledIrOf(Canonical(ir)))) == None
  {
    OkIsSmall(ir);
    IrBounded(ir, false);
    IrSize(ir, false);
    IrRead(ir, false);
    CanonicalUniform(ir);
    IrSize(Canonical(ir), true);
    PrintedWhole(Canonical(ir));
    FileSize(HoledIrOf(Canonical(ir)));
  }

  /** Writing out the defaults of an accepted IR can take it over the node budget. */
  lemma DefaultsCanExceedTheBudget() returns (t: Tree, n: Ir)
    ensures NormalizeTree(t) == Some(n) && NormalizeTree(SchemaFile(HoledIrOf(n))) == None
  {
    var ir := Large();
    LargeOk();
    LargeEntitiesUniform();
    UniformExceeds(ir);
    t, n := IrTree(ir, false), Canonical(ir);
  }
}
