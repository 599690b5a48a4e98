/** Generated relation names of the schema-IR compiler and the one-shot test for collisions. */
module IrNames {
  import opened Seqs
  import opened SchemaIr
  import opened IrCanonical
  import Document
  import JsonText

  datatype Kind = PrimaryKey | UniqueKey | Index
  datatype Generated = Generated(kind: Kind, table: string, key: seq<string>)

  function Prefix(kind: Kind): string {
    match kind case PrimaryKey => "ores_pk_" case UniqueKey => "ores_uq_" case Index => "ores_idx_"
  }

  /** `JSON.stringify([table, detail])`, the text that is hashed. */
  function NameTerm(g: Generated): JsonText.Term {
    JsonText.List([JsonText.Text(g.table), JsonText.List(JsonText.Texts(g.key))])
  }

  function HashedText(g: Generated): string { JsonText.Print(NameTerm(g)) }

  /** The hash is left open: `digest` is any function of the text. */
  function NameOf(digest: string -> string): Generated -> string {
    (g: Generated) => Prefix(g.kind) + digest(HashedText(g))
  }

  function RelationOf(kind: Kind, table: string): seq<string> -> Generated {
    (key: seq<string>) => Generated(kind, table, key)
  }

  function KeyNames(e: Entity): seq<Generated> {
    [Generated(PrimaryKey, e.table, e.primaryKey)] + Map(RelationOf(UniqueKey, e.table), e.uniqueKeys)
  }

  function IndexNames(e: Entity): seq<Generated> {
    Map(RelationOf(Index, e.table), e.indexes)
  }

  /** In emission order: table constraints, then indexes. */
  function GeneratedRelations(ir: Ir): seq<Generated> {
    FlatMap(KeyNames, ir.entities) + FlatMap(IndexNames, ir.entities)
  }

  function Relations(digest: string -> string, ir: Ir): seq<string> {
    Map(TableOfEntity, ir.entities) + Map(NameOf(digest), GeneratedRelations(ir))
  }

  /** `new Set([...declared, ...generated]).size` is the number of names. */
  predicate NoCollision(digest: string -> string, ir: Ir) {
    |ToSet(Relations(digest, ir))| == |Relations(digest, ir)|
  }

  /** Inserting the names one by one and testing each first. */
  predicate Scan(seen: set<string>, names: seq<string>)
    decreases |names|
  {
    names == [] || (names[0] !in seen && Scan(seen + {names[0]}, names[1..]))
  }

  lemma {:induction false} ScanMeans(seen: set<string>, names: seq<string>)
    ensures Scan(seen, names) <==> NoDup(names) && forall n | n in names :: n !in seen
    decreases |names|
  {
    if names != [] {
      var rest := names[1..];
      ScanMeans(seen + {names[0]}, rest);
      assert names == [names[0]] + rest;
      NoDupAppend([names[0]], rest);
    }
  }

  /** One comparison of set sizes decides what the incremental scan decides, before anything is emitted. */
  lemma OneShotIsScan(digest: string -> string, ir: Ir)
    ensures NoCollision(digest, ir) <==> Scan({}, Relations(digest, ir))
  {
    SetSize(Relations(digest, ir));
    ScanMeans({}, Relations(digest, ir));
  }

  // ----- what is hashed identifies the relation -----

  predicate Printable(g: Generated) {
    Document.SqlName(g.table) && forall n | n in g.key :: FieldIdentifier(n)
  }

  lemma NameTermInjective(a: Generated, b: Generated)
    requires Printable(a) && Printable(b) && HashedText(a) == HashedText(b)
    ensures a.table == b.table && a.key == b.key
  {
    KeyPlain(a.key);
    KeyPlain(b.key);
    assert JsonText.Plain(a.table) && JsonText.Plain(b.table);
    JsonText.PrintInjective(NameTerm(a), NameTerm(b));
    assert NameTerm(a).items[0] == NameTerm(b).items[0] && NameTerm(a).items[1] == NameTerm(b).items[1];
    JsonText.TextsInjective(a.key, b.key);
  }

  lemma PrefixDecides(a: Kind, b: Kind, x: string, y: string)
    requires Prefix(a) + x == Prefix(b) + y
    ensures a == b && x == y
  {
    var (s, t) := (Prefix(a) + x, Prefix(b) + y);
    assert s[5] == Prefix(a)[5] && t[5] == Prefix(b)[5];
    assert s[|Prefix(a)|..] == x && t[|Prefix(b)|..] == y;
  }

  /** Two relations of one kind differ in their hashes. */
  predicate Told(digest: string -> string, a: Generated, b: Generated) {
    a.kind == b.kind && digest(HashedText(a)) == digest(HashedText(b)) ==> a == b
  }

  /** The digest tells the generated relations of each kind apart; nothing is asked of it elsewhere. */
  ghost predicate TellsApart(digest: string -> string, gs: seq<Generated>) {
    forall a, b | a in gs && b in gs :: Told(digest, a, b)
  }

  /** Names are equal exactly when kind and hash are. */
  lemma NamesTell(digest: string -> string, a: Generated, b: Generated)
    ensures NameOf(digest)(a) == NameOf(digest)(b) <==> a.kind == b.kind && digest(HashedText(a)) == digest(HashedText(b))
  {
    if NameOf(digest)(a) == NameOf(digest)(b) {
      PrefixDecides(a.kind, b.kind, digest(HashedText(a)), digest(HashedText(b)));
    }
  }

  // ----- the relations themselves are distinct -----

  lemma KeysDistinct(e: Entity)
    requires EntityOk(e)
    ensures NoDup(e.uniqueKeys) && NoDup(e.indexes)
  {
    NoDupOfMap(KeyText, e.indexes);
    NoDupOfMap(SortedKeyText, EntityKeys(e));
    NoDupAppend([e.primaryKey], e.uniqueKeys);
  }

  lemma MappedDistinct(kind: Kind, table: string, keys: seq<seq<string>>)
    requires NoDup(keys)
    ensures NoDup(Map(RelationOf(kind, table), keys))
    ensures forall g | g in Map(RelationOf(kind, table), keys) :: g.kind == kind && g.table == table && g.key in keys
  {
  }

  lemma OwnNamesDistinct(e: Entity)
    requires EntityOk(e)
    ensures NoDup(KeyNames(e)) && NoDup(IndexNames(e))
  {
    KeysDistinct(e);
    MappedDistinct(UniqueKey, e.table, e.uniqueKeys);
    MappedDistinct(Index, e.table, e.indexes);
    NoDupAppend([Generated(PrimaryKey, e.table, e.primaryKey)], Map(RelationOf(UniqueKey, e.table), e.uniqueKeys));
  }

  predicate OfTable(gs: seq<Generated>, table: string) {
    forall g | g in gs :: g.table == table
  }

  lemma {:induction false} TablesIn(f: Entity -> seq<Generated>, entities: seq<Entity>, g: Generated)
    requires forall e | e in entities :: OfTable(f(e), e.table)
    requires g in FlatMap(f, entities)
    ensures g.table in Map(TableOfEntity, entities)
  {
    var n := |entities| - 1;
    if g in FlatMap(f, entities[..n]) {
      TablesIn(f, entities[..n], g);
      assert Map(TableOfEntity, entities)[..n] == Map(TableOfEntity, entities[..n]);
    } else {
      assert entities[n] in entities;
      assert Map(TableOfEntity, entities)[n] == g.table;
    }
  }

  lemma {:induction false} NamesDistinctAcross(f: Entity -> seq<Generated>, entities: seq<Entity>)
    requires NoDup(Map(TableOfEntity, entities))
    requires forall e | e in entities :: OfTable(f(e), e.table) && NoDup(f(e))
    ensures NoDup(FlatMap(f, entities))
  {
    if entities != [] {
      var n := |entities| - 1;
      var (rest, last) := (entities[..n], entities[n]);
      assert last in entities;
      assert Map(TableOfEntity, entities) == Map(TableOfEntity, rest) + [last.table];
      NoDupSnoc(Map(TableOfEntity, rest), last.table);
      NamesDistinctAcross(f, rest);
      NoDupAppend(FlatMap(f, rest), f(last));
      LastApart(f, rest, last);
    }
  }

  lemma LastApart(f: Entity -> seq<Generated>, rest: seq<Entity>, last: Entity)
    requires forall e | e in rest :: OfTable(f(e), e.table)
    requires OfTable(f(last), last.table) && last.table !in Map(TableOfEntity, rest)
    ensures forall g | g in FlatMap(f, rest) :: g !in f(last)
  {
    forall g | g in FlatMap(f, rest) ensures g !in f(last) {
      TablesIn(f, rest, g);
    }
  }

  lemma {:induction false} KindsIn(f: Entity -> seq<Generated>, entities: seq<Entity>, index: bool)
    requires forall e, g | e in entities && g in f(e) :: (g.kind == Index) == index
    ensures forall g | g in FlatMap(f, entities) :: (g.kind == Index) == index
  {
    if entities != [] {
      KindsIn(f, entities[..|entities| - 1], index);
      assert entities[|entities| - 1] in entities;
    }
  }

  lemma OfOwnTable(e: Entity)
    ensures OfTable(KeyNames(e), e.table) && OfTable(IndexNames(e), e.table)
    ensures forall g | g in KeyNames(e) :: g.kind != Index
    ensures forall g | g in IndexNames(e) :: g.kind == Index
  {
  }

  lemma KeyNamesDistinct(entities: seq<Entity>)
    requires NoDup(Map(TableOfEntity, entities)) && forall e | e in entities :: EntityOk(e)
    ensures NoDup(FlatMap(KeyNames, entities))
  {
    forall e | e in entities ensures OfTable(KeyNames(e), e.table) && NoDup(KeyNames(e)) {
      OwnNamesDistinct(e);
      OfOwnTable(e);
    }
    NamesDistinctAcross(KeyNames, entities);
  }

  lemma IndexNamesDistinct(entities: seq<Entity>)
    requires NoDup(Map(TableOfEntity, entities)) && forall e | e in entities :: EntityOk(e)
    ensures NoDup(FlatMap(IndexNames, entities))
  {
    forall e | e in entities ensures OfTable(IndexNames(e), e.table) && NoDup(IndexNames(e)) {
      OwnNamesDistinct(e);
      OfOwnTable(e);
    }
    NamesDistinctAcross(IndexNames, entities);
  }

  lemma KindsApart(entities: seq<Entity>)
    ensures forall g | g in FlatMap(KeyNames, entities) :: g.kind != Index
    ensures forall g | g in FlatMap(IndexNames, entities) :: g.kind == Index
  {
    forall e, g | e in entities && g in KeyNames(e) ensures (g.kind == Index) == false {
      OfOwnTable(e);
    }
    forall e, g | e in entities && g in IndexNames(e) ensures (g.kind == Index) == true {
      OfOwnTable(e);
    }
    KindsIn(KeyNames, entities, false);
    KindsIn(IndexNames, entities, true);
  }

  lemma GeneratedDistinct(ir: Ir)
    requires NoDup(Map(TableOfEntity, ir.entities)) && forall e | e in ir.entities :: EntityOk(e)
    ensures NoDup(GeneratedRelations(ir))
  {
    KeyNamesDistinct(ir.entities);
    IndexNamesDistinct(ir.entities);
    KindsApart(ir.entities);
    NoDupAppend(FlatMap(KeyNames, ir.entities), FlatMap(IndexNames, ir.entities));
  }

  lemma {:induction false} PrintableIn(f: Entity -> seq<Generated>, entities: seq<Entity>)
    requires forall e, g | e in entities && g in f(e) :: Printable(g)
    ensures forall g | g in FlatMap(f, entities) :: Printable(g)
  {
    if entities != [] {
      PrintableIn(f, entities[..|entities| - 1]);
      assert entities[|entities| - 1] in entities;
    }
  }

  lemma TuplesPrintable(e: Entity, kind: Kind, keys: seq<seq<string>>)
    requires Document.SqlName(e.table) && (forall f | f in e.fields :: IrFieldOk(f)) && TuplesOk(keys, IrFields(e))
    ensures forall g | g in Map(RelationOf(kind, e.table), keys) :: Printable(g)
  {
    forall g | g in Map(RelationOf(kind, e.table), keys) ensures Printable(g) {
      var k := MapInInverse(RelationOf(kind, e.table), keys, g);
      TupleIdentifiers(e, k);
    }
  }

  lemma OwnNamesPrintable(e: Entity)
    requires EntityOk(e)
    ensures (forall g | g in KeyNames(e) :: Printable(g)) && forall g | g in IndexNames(e) :: Printable(g)
  {
    TupleIdentifiers(e, e.primaryKey);
    TuplesPrintable(e, UniqueKey, e.uniqueKeys);
    TuplesPrintable(e, Index, e.indexes);
  }

  /**
   * The test passes exactly when the hash tells the generated relations of each kind apart and
   * no table has the name of one of them.
   */
  lemma CollisionFreeIff(digest: string -> string, ir: Ir)
    requires IrOk(ir)
    ensures NoCollision(digest, ir) <==>
              && TellsApart(digest, GeneratedRelations(ir))
              && forall t | t in Map(TableOfEntity, ir.entities) :: t !in Map(NameOf(digest), GeneratedRelations(ir))
  {
    var (tables, gs) := (Map(TableOfEntity, ir.entities), GeneratedRelations(ir));
    GeneratedDistinct(ir);
    DistinctNames(digest, gs);
    TablesApart(tables, Map(NameOf(digest), gs));
  }

  ghost predicate InjectiveOn(digest: string -> string, texts: seq<string>) {
    forall x, y | x in texts && y in texts && digest(x) == digest(y) :: x == y
  }

  /** A digest without a collision among the texts that are hashed for this IR tells its relations apart. */
  lemma OnlyTablesCollide(digest: string -> string, ir: Ir)
    requires IrOk(ir) && InjectiveOn(digest, Map(HashedText, GeneratedRelations(ir)))
    ensures NoCollision(digest, ir) <==>
              forall t | t in Map(TableOfEntity, ir.entities) :: t !in Map(NameOf(digest), GeneratedRelations(ir))
  {
    var gs := GeneratedRelations(ir);
    AllPrintable(ir.entities);
    forall a, b | a in gs && b in gs ensures Told(digest, a, b) {
      MapIn(HashedText, gs, a);
      MapIn(HashedText, gs, b);
      if a.kind == b.kind && digest(HashedText(a)) == digest(HashedText(b)) {
        NameTermInjective(a, b);
      }
    }
    CollisionFreeIff(digest, ir);
  }

  lemma TablesApart(tables: seq<string>, generated: seq<string>)
    requires NoDup(tables)
    ensures |ToSet(tables + generated)| == |tables + generated| <==> NoDup(generated) && forall t | t in tables :: t !in generated
  {
    SetSize(tables + generated);
    NoDupAppend(tables, generated);
  }

  lemma AllPrintable(entities: seq<Entity>)
    requires forall e | e in entities :: EntityOk(e)
    ensures forall g | g in FlatMap(KeyNames, entities) + FlatMap(IndexNames, entities) :: Printable(g)
  {
    forall e, g | e in entities && g in KeyNames(e) ensures Printable(g) {
      OwnNamesPrintable(e);
    }
    forall e, g | e in entities && g in IndexNames(e) ensures Printable(g) {
      OwnNamesPrintable(e);
    }
    PrintableIn(KeyNames, entities);
    PrintableIn(IndexNames, entities);
  }

  lemma DistinctNames(digest: string -> string, gs: seq<Generated>)
    requires NoDup(gs)
    ensures NoDup(Map(NameOf(digest), gs)) <==> TellsApart(digest, gs)
  {
    var names := Map(NameOf(digest), gs);
    forall i, k | 0 <= i < k < |gs| ensures names[i] == names[k] <==> !Told(digest, gs[i], gs[k]) {
      NamesTell(digest, gs[i], gs[k]);
    }
    if NoDup(names) {
      forall a, b | a in gs && b in gs ensures Told(digest, a, b) {
        NamesTell(digest, a, b);
        if a != b && NameOf(digest)(a) == NameOf(digest)(b) {
          KeyInjective(NameOf(digest), gs, a, b);
        }
      }
    }
  }
}
