/** An accepted input with a hole, whose normalised form is rejected far below the budget. */
module IrHoleKept {
  import opened Seqs
  import opened Strings
  import opened Json
  import opened Document
  import opened SchemaIr
  import opened Snapshot
  import opened IrRoundTrip
  import opened IrHoles
  import opened IrFixpoint
  import IrBudget
  import IrNames
  import Shape

  // ----- the graph -----

  function Own(key: Key, v: Value): Property { Property(key, true, true, v) }
  function ArrayOf(v: Value): Thing { Thing(Some(1), true, false, [Own(Index(0), v)]) }

  /** One element long; its only own key is too large to be an array index. */
  function Holed(v: Value): Thing { Thing(Some(1), true, false, [Own(Index(ARRAY_INDEX_LIMIT), v)]) }

  function ObjectOf(keys: seq<string>, values: seq<Value>): (t: Thing)
    requires |keys| == |values|
    ensures t.length.None? && |t.properties| == |keys|
    ensures forall i | 0 <= i < |keys| :: t.properties[i] == Own(Key.Named(keys[i]), values[i])
  {
    Thing(None, true, false, seq(|keys|, i requires 0 <= i < |keys| => Own(Key.Named(keys[i]), values[i])))
  }

  const FIELD_NAMES := ["name", "column", "type", "required", "nullable"]
  const FIELD_VALUES := [Text("id"), Text("id"), Text("uuid"), Truth(true), Truth(false)]
  const ENTITY_NAMES := ["name", "table", "fields", "primaryKey", "indexes"]
  const ENTITY_VALUES := [Text("Item"), Text("item"), At(3), At(5), At(6)]
  const IR_NAMES := ["schemaVersion", "databaseSchema", "entities"]
  const IR_VALUES := [Text(VERSION), Text("app"), At(1)]

  function FieldThing(): Thing { ObjectOf(FIELD_NAMES, FIELD_VALUES) }
  function EntityThing(): Thing { ObjectOf(ENTITY_NAMES, ENTITY_VALUES) }
  function IrThing(): Thing { ObjectOf(IR_NAMES, IR_VALUES) }

  function Holding(): Graph {
    map[0 := IrThing(), 1 := ArrayOf(At(2)), 2 := EntityThing(), 3 := ArrayOf(At(4)), 4 := FieldThing(),
        5 := ArrayOf(Text("id")), 6 := Holed(At(5))]
  }

  /** The same graph, thing by thing. */
  ghost predicate Holds(g: Graph) {
    && g.Keys == {0, 1, 2, 3, 4, 5, 6}
    && g[0] == IrThing() && g[1] == ArrayOf(At(2)) && g[2] == EntityThing() && g[3] == ArrayOf(At(4)) && g[4] == FieldThing()
    && g[5] == ArrayOf(Text("id")) && g[6] == Holed(At(5))
  }

  lemma HoldingHolds()
    ensures Holds(Holding())
  {
  }

  lemma NamesApart()
    ensures NoDup(FIELD_NAMES) && NoDup(ENTITY_NAMES) && NoDup(IR_NAMES)
  {
  }

  lemma ObjectOwnKeys(keys: seq<string>, values: seq<Value>)
    requires |keys| == |values| && NoDup(keys)
    ensures OwnKeys(ObjectOf(keys, values))
  {
  }

  lemma HoldingIsHeap(g: Graph)
    requires Holds(g)
    ensures Heap(g)
  {
    NamesApart();
    ObjectOwnKeys(IR_NAMES, IR_VALUES);
    ObjectOwnKeys(ENTITY_NAMES, ENTITY_VALUES);
    ObjectOwnKeys(FIELD_NAMES, FIELD_VALUES);
  }

  // ----- it is accepted by the walk -----

  lemma NodeUnfolds(g: Graph, r: Ref, depth: nat, ts: seq<Tree>)
    requires r in g && depth <= 20 && Readable(g[r], IR) && |ts| == |g[r].properties|
    requires forall i | 0 <= i < |ts| :: Unfold(g, g[r].properties[i].value, depth + 1, IR) == Some(ts[i])
    ensures Unfold(g, At(r), depth, IR) == Some(Build(g[r], ts))
  {
    var vs := Map(ValueOf, g[r].properties);
    forall i | 0 <= i < |vs| ensures Unfold(g, vs[i], depth + 1, IR) == Some(ts[i]) {}
    UnfoldEach(g, vs, depth, IR);
    assert UnfoldAll(g, vs, depth, IR).value == ts;
  }

  lemma OneSize(t: Tree)
    ensures SizeAll([t]) == Size(t)
  {
    assert [t][..0] == [];
  }

  lemma SmallSize(ts: seq<Tree>, n: nat)
    requires |ts| <= 5 && forall t | t in ts :: Size(t) <= n
    ensures SizeAll(ts) <= 5 * n
  {
    SizeBound(ts, n);
    Scaled(|ts|, n);
  }

  lemma Scaled(k: nat, n: nat)
    requires k <= 5
    ensures k * n <= 5 * n
  {
  }

  lemma {:induction false} SizeBound(ts: seq<Tree>, n: nat)
    requires forall t | t in ts :: Size(t) <= n
    ensures SizeAll(ts) <= |ts| * n
  {
    if ts != [] {
      var k := |ts| - 1;
      SizeBound(ts[..k], n);
      assert ts[k] in ts;
      assert (k + 1) * n == k * n + n;
    }
  }

  lemma ArrayUnfolds(g: Graph, r: Ref, v: Value, depth: nat, t: Tree)
    requires r in g && (g[r] == ArrayOf(v) || g[r] == Holed(v)) && depth <= 20 && Unfold(g, v, depth + 1, IR) == Some(t)
    ensures Unfold(g, At(r), depth, IR) == Some(Items([t])) && Size(Items([t])) == 1 + Size(t)
  {
    NodeUnfolds(g, r, depth, [t]);
    OneSize(t);
  }

  /** An object of at most five members of at most `n` nodes each. */
  lemma ObjectUnfolds(g: Graph, r: Ref, keys: seq<string>, values: seq<Value>, depth: nat, ts: seq<Tree>, n: nat)
    requires |keys| == |values| == |ts| <= 5 && r in g && g[r] == ObjectOf(keys, values) && depth <= 20
    requires forall i | 0 <= i < |ts| :: Unfold(g, values[i], depth + 1, IR) == Some(ts[i]) && Size(ts[i]) <= n
    ensures Unfold(g, At(r), depth, IR) == Some(Build(g[r], ts)) && Size(Build(g[r], ts)) <= 1 + 5 * n
  {
    NodeUnfolds(g, r, depth, ts);
    SmallSize(ts, n);
  }

  lemma FiveUnfold(g: Graph, r: Ref, keys: seq<string>, depth: nat, n: nat,
    a: Value, b: Value, c: Value, d: Value, e: Value, ta: Tree, tb: Tree, tc: Tree, td: Tree, te: Tree) returns (t: Tree)
    requires |keys| == 5 && r in g && g[r] == ObjectOf(keys, [a, b, c, d, e]) && depth <= 19
    requires Unfold(g, a, depth + 1, IR) == Some(ta) && Unfold(g, b, depth + 1, IR) == Some(tb)
    requires Unfold(g, c, depth + 1, IR) == Some(tc) && Unfold(g, d, depth + 1, IR) == Some(td)
    requires Unfold(g, e, depth + 1, IR) == Some(te)
    requires Size(ta) <= n && Size(tb) <= n && Size(tc) <= n && Size(td) <= n && Size(te) <= n
    ensures Unfold(g, At(r), depth, IR) == Some(t) && Size(t) <= 1 + 5 * n
  {
    var ts := [ta, tb, tc, td, te];
    ObjectUnfolds(g, r, keys, [a, b, c, d, e], depth, ts, n);
    t := Build(g[r], ts);
  }

  lemma FieldUnfolds(g: Graph) returns (t: Tree)
    requires 4 in g && g[4] == FieldThing()
    ensures Unfold(g, At(4), 4, IR) == Some(t) && Size(t) <= 6
  {
    t := FiveUnfold(g, 4, FIELD_NAMES, 4, 1, Text("id"), Text("id"), Text("uuid"), Truth(true), Truth(false),
                    Leaf(Str("id")), Leaf(Str("id")), Leaf(Str("uuid")), Leaf(Bool(true)), Leaf(Bool(false)));
  }

  lemma EntityUnfolds(g: Graph, fields: Tree, key: Tree, holed: Tree) returns (t: Tree)
    requires 2 in g && g[2] == EntityThing() && Size(fields) <= 7 && Size(key) <= 7 && Size(holed) <= 7
    requires Unfold(g, At(3), 3, IR) == Some(fields) && Unfold(g, At(5), 3, IR) == Some(key) && Unfold(g, At(6), 3, IR) == Some(holed)
    ensures Unfold(g, At(2), 2, IR) == Some(t) && Size(t) <= 36
  {
    t := FiveUnfold(g, 2, ENTITY_NAMES, 2, 7, Text("Item"), Text("item"), At(3), At(5), At(6),
                    Leaf(Str("Item")), Leaf(Str("item")), fields, key, holed);
  }

  lemma RootUnfolds(g: Graph, entities: Tree) returns (t: Tree)
    requires 0 in g && g[0] == IrThing() && Unfold(g, At(1), 1, IR) == Some(entities) && Size(entities) <= 37
    ensures Unfold(g, At(0), 0, IR) == Some(t) && Size(t) <= 186
  {
    var ts := [Leaf(Str(VERSION)), Leaf(Str("app")), entities];
    ObjectUnfolds(g, 0, IR_NAMES, IR_VALUES, 0, ts, 37);
    t := Build(g[0], ts);
  }

  lemma HoldingUnfolds(g: Graph) returns (t: Tree)
    requires Holds(g)
    ensures Unfold(g, At(0), 0, IR) == Some(t) && Size(t) <= 186
  {
    var id := Leaf(Str("id"));
    var field := FieldUnfolds(g);
    ArrayUnfolds(g, 3, At(4), 3, field);
    ArrayUnfolds(g, 5, Text("id"), 3, id);
    ArrayUnfolds(g, 5, Text("id"), 4, id);
    ArrayUnfolds(g, 6, At(5), 3, Items([id]));
    var entity := EntityUnfolds(g, Items([field]), Items([id]), Items([Items([id])]));
    ArrayUnfolds(g, 1, At(2), 1, entity);
    t := RootUnfolds(g, Items([entity]));
  }

  lemma HoldingWalked(g: Graph)
    requires Holds(g)
    ensures JsonValue(g, At(0), {}, 0, IR_NODES).Some?
  {
    var t := HoldingUnfolds(g);
    assert ToSet<Ref>([]) == {};
    BudgetIsCount(g, [], At(0), {}, 0, IR_NODES);
  }

  // ----- what is read -----

  lemma {:induction false} ReadKeys(g: Graph, ps: seq<Property>, depth: nat)
    requires depth <= 20
    ensures ReadMembers(g, ps, depth).Keys == ToSet(Map(TextOfKey, ps))
  {
    if ps != [] {
      var (rest, last) := (ps[..|ps| - 1], ps[|ps| - 1]);
      ReadKeys(g, rest, depth);
      assert ps == rest + [last];
      MembersSnoc(g, rest, last, depth);
    }
  }

  /** The members of an object, read one by one. */
  lemma ObjectRead(g: Graph, r: Ref, keys: seq<string>, values: seq<Value>, depth: nat)
    requires r in g && depth <= 20 && |keys| == |values| && NoDup(keys) && g[r] == ObjectOf(keys, values)
    ensures var d := Reading(g, At(r), depth);
            && d.Fields? && d.members.Keys == ToSet(keys)
            && (forall i | 0 <= i < |keys| :: keys[i] in d.members && d.members[keys[i]] == Reading(g, values[i], depth + 1))
  {
    var ps := g[r].properties;
    ReadKeys(g, ps, depth);
    assert Map(TextOfKey, ps) == keys;
    forall i | 0 <= i < |keys|
      ensures keys[i] in ReadMembers(g, ps, depth) && ReadMembers(g, ps, depth)[keys[i]] == Reading(g, values[i], depth + 1)
    {
      ReadMembersHolds(g, ps, depth, i);
    }
  }

  lemma ArrayRead(g: Graph, r: Ref, depth: nat, v: Value)
    requires r in g && depth <= 20 && g[r] == ArrayOf(v)
    ensures Reading(g, At(r), depth) == Slots([Some(Reading(g, v, depth + 1))])
  {
    var ps := g[r].properties;
    assert Lookup(ps, Index(0)) == Some(v);
    SlotAt(g, ps, 1, depth, 0);
  }

  lemma HoledRead(g: Graph, r: Ref, depth: nat, v: Value)
    requires r in g && depth <= 20 && g[r] == Holed(v)
    ensures Reading(g, At(r), depth) == Slots([None])
  {
    var ps := g[r].properties;
    assert ps[..0] == [] && Lookup(ps, Index(0)) == None;
    SlotAt(g, ps, 1, depth, 0);
  }

  function IdField(): IrField { IrField("id", "id", UuidType, true, false, None, None, None, None) }
  function Item(): Entity { Entity("Item", "item", [IdField()], ["id"], [], [], []) }
  function Kept(): HoledIr { HoledIr("app", [HoledEntity(Item(), [], [None], [])]) }

  predicate FieldMembers(d: Data) {
    && d.Fields? && d.members.Keys == {"name", "column", "type", "required", "nullable"}
    && d.members["name"] == Atom(Str("id")) && d.members["column"] == Atom(Str("id")) && d.members["type"] == Atom(Str("uuid"))
    && d.members["required"] == Atom(Bool(true)) && d.members["nullable"] == Atom(Bool(false))
  }

  lemma FieldIsRead(g: Graph)
    requires 4 in g && g[4] == FieldThing()
    ensures FieldMembers(Reading(g, At(4), 4))
  {
    NamesApart();
    ObjectRead(g, 4, FIELD_NAMES, FIELD_VALUES, 4);
    var d := Reading(g, At(4), 4);
    assert d.members[FIELD_NAMES[0]] == Atom(Str("id")) && d.members[FIELD_NAMES[1]] == Atom(Str("id"));
    assert d.members[FIELD_NAMES[2]] == Atom(Str("uuid"));
    assert d.members[FIELD_NAMES[3]] == Atom(Bool(true)) && d.members[FIELD_NAMES[4]] == Atom(Bool(false));
  }

  lemma FieldRead(d: Data)
    requires FieldMembers(d)
    ensures FieldShape(Filled(d)) && ReadField(Filled(d)) == IdField()
  {
    MembersFilled(d);
  }

  predicate EntityMembers(d: Data, field: Data) {
    && d.Fields? && d.members.Keys == {"name", "table", "fields", "primaryKey", "indexes"}
    && d.members["name"] == Atom(Str("Item")) && d.members["table"] == Atom(Str("item"))
    && d.members["fields"] == Slots([Some(field)]) && d.members["primaryKey"] == Slots([Some(Atom(Str("id")))])
    && d.members["indexes"] == Slots([None])
  }

  lemma EntityIsRead(g: Graph)
    requires Holds(g)
    ensures EntityMembers(Reading(g, At(2), 2), Reading(g, At(4), 4))
  {
    NamesApart();
    ObjectRead(g, 2, ENTITY_NAMES, ENTITY_VALUES, 2);
    ArrayRead(g, 3, 3, At(4));
    ArrayRead(g, 5, 3, Text("id"));
    HoledRead(g, 6, 3, At(5));
    var d := Reading(g, At(2), 2);
    assert d.members[ENTITY_NAMES[0]] == Atom(Str("Item")) && d.members[ENTITY_NAMES[1]] == Atom(Str("item"));
    assert d.members[ENTITY_NAMES[2]] == Reading(g, At(3), 3) && d.members[ENTITY_NAMES[3]] == Reading(g, At(5), 3);
    assert d.members[ENTITY_NAMES[4]] == Reading(g, At(6), 3);
  }

  lemma OneFilled(d: Data)
    ensures Filled(Slots([Some(d)])) == Arr([Filled(d)])
  {
    assert [Some(d)][..0] == [];
    assert FilledAll([Some(d)]) == [FilledSlot(Some(d))];
  }

  lemma EntityBaseRead(d: Data, field: Data)
    requires EntityMembers(d, field) && FieldMembers(field)
    ensures EntityBaseShape(Filled(d)) && BaseOf(ReadEntity(Filled(d))) == Item()
  {
    var j := Filled(d);
    MembersFilled(d);
    FieldRead(field);
    OneFilled(field);
    OneFilled(Atom(Str("id")));
    assert Shape.Get(j, "fields") == Arr([Filled(field)]) && Shape.Get(j, "primaryKey") == Arr([Str("id")]);
    assert Map(ReadField, [Filled(field)]) == [IdField()];
    assert Shape.DecodeNames(Arr([Str("id")])) == ["id"];
  }

  lemma EntityRead(d: Data, field: Data)
    requires EntityMembers(d, field) && FieldMembers(field)
    ensures ReadsEntity(d) && EntityIn(d) == HoledEntity(Item(), [], [None], [])
  {
    EntityBaseRead(d, field);
    EntityListsRead(d, field);
  }

  lemma EntityListsRead(d: Data, field: Data)
    requires EntityMembers(d, field)
    ensures ListIn(d, "uniqueKeys") == Slots([]) && ListIn(d, "indexes") == Slots([None]) && ListIn(d, "foreignKeys") == Slots([])
  {
  }

  lemma RootIsRead(g: Graph)
    requires Holds(g)
    ensures var d := Reading(g, At(0), 0);
            && d.Fields? && d.members.Keys == IR_KEYS
            && d.members["schemaVersion"] == Atom(Str(VERSION)) && d.members["databaseSchema"] == Atom(Str("app"))
            && d.members["entities"] == Slots([Some(Reading(g, At(2), 2))])
  {
    NamesApart();
    ObjectRead(g, 0, IR_NAMES, IR_VALUES, 0);
    ArrayRead(g, 1, 1, At(2));
    var d := Reading(g, At(0), 0);
    assert d.members[IR_NAMES[0]] == Atom(Str(VERSION)) && d.members[IR_NAMES[1]] == Atom(Str("app"));
    assert d.members[IR_NAMES[2]] == Reading(g, At(1), 1);
  }

  lemma HoldingRead(g: Graph)
    requires Holds(g)
    ensures ReadsIr(Reading(g, At(0), 0)) && IrIn(Reading(g, At(0), 0)) == Kept()
  {
    var (d, entity) := (Reading(g, At(0), 0), Reading(g, At(2), 2));
    RootIsRead(g);
    FieldIsRead(g);
    EntityIsRead(g);
    EntityRead(entity, Reading(g, At(4), 4));
    MembersFilled(d);
    assert Map(EntityInSlot, [Some(entity)]) == [HoledEntity(Item(), [], [None], [])];
  }

  // ----- it is valid, and its hole is printed -----

  lemma IdIsFree()
    ensures FieldIdentifier("id") && ColumnIdentifier("id")
  {
  }

  lemma ItemNames()
    ensures EntityIdentifier("Item") && TableIdentifier("item") && SqlName("app") && !ReservedSchema("app")
  {
  }

  lemma ItemFields()
    ensures IrFields(Item()) == map["id" := IdField()] && EntityFieldsOk([IdField()])
  {
    IdIsFree();
    assert [IdField()][..0] == [];
  }

  lemma ItemKeysOk()
    ensures HoledKeysOk(HoledEntity(Item(), [], [None], []))
  {
    ItemFields();
  }

  lemma KeptOk()
    ensures HoledIrOk(Kept())
  {
    ItemNames();
    ItemFields();
    ItemKeysOk();
  }

  lemma KeptIsCanonical()
    ensures CanonicalHoled(Kept()) == Kept()
  {
    var e := HoledEntity(Item(), [], [None], []);
    ItemIsCanonical();
    assert Map(CanonHoled, [e]) == [e];
    SortOne(NameOfHoled, e);
  }

  lemma HoleSorts()
    ensures SortHoles(HoledText, [None]) == [None]
  {
    var hole: seq<Option<HoledKey>> := [None];
    assert hole[..0] == [] && Present(hole) == [];
    assert Holes<HoledKey>(1) == hole;
  }

  lemma ItemIsCanonical()
    ensures CanonHoled(HoledEntity(Item(), [], [None], [])) == HoledEntity(Item(), [], [None], [])
  {
    HoleSorts();
    SortOne(NameOfIrField, IdField());
  }

  lemma SortOne<T>(key: T -> string, x: T)
    ensures SortBy(key, [x]) == [x]
  {
    assert [x][1..] == [];
  }

  lemma KeptNormalises(g: Graph)
    requires Holds(g)
    ensures NormalizeGraph(g, At(0)) == Some(Kept())
  {
    HoldingWalked(g);
    HoldingRead(g);
    KeptOk();
    KeptIsCanonical();
  }

  /** The one generated name starts with an `o`, and the table does not. */
  lemma KeptCompiles(digest: string -> string)
    ensures IrNames.NoCollision(digest, Ir("app", Map(Skipping, Kept().entities)))
  {
    SkippedItem();
    var g := IrNames.Generated(IrNames.PrimaryKey, "item", ["id"]);
    TwoNames(IrNames.NameOf(digest), g, Ir("app", [Item()]));
    NameStarts(digest, g);
    ApartIsTwo("item", IrNames.NameOf(digest)(g));
  }

  lemma NameStarts(digest: string -> string, g: IrNames.Generated)
    ensures |IrNames.NameOf(digest)(g)| > 0 && IrNames.NameOf(digest)(g)[0] == 'o'
  {
    assert |IrNames.Prefix(g.kind)| > 0 && IrNames.Prefix(g.kind)[0] == 'o';
    var (prefix, rest) := (IrNames.Prefix(g.kind), digest(IrNames.HashedText(g)));
    assert IrNames.NameOf(digest)(g) == prefix + rest;
  }

  lemma TwoNames(name: IrNames.Generated -> string, g: IrNames.Generated, ir: Ir)
    requires Map(TableOfEntity, ir.entities) == ["item"] && IrNames.GeneratedRelations(ir) == [g]
    ensures Map(TableOfEntity, ir.entities) + Map(name, IrNames.GeneratedRelations(ir)) == ["item", name(g)]
  {
  }

  lemma ApartIsTwo(a: string, b: string)
    requires a != b
    ensures |ToSet([a, b])| == 2
  {
    assert ToSet([a, b]) == {a, b};
  }

  lemma SkippedItem()
    ensures Map(Skipping, Kept().entities) == [Item()]
    ensures IrNames.GeneratedRelations(Ir("app", [Item()])) == [IrNames.Generated(IrNames.PrimaryKey, "item", ["id"])]
  {
    var hole: seq<Option<HoledKey>> := [None];
    assert hole[..0] == [] && Present(hole) == [];
    assert [Item()][..0] == [];
  }

  lemma KeptIsSmall()
    ensures Size(Printed(Kept())) <= IR_NODES
  {
    var h := HoledEntity(Item(), [], [None], []);
    var entities := Items(Map(PrintedEntity, [h]));
    IrBudget.ThreePairs(TextTree(VERSION), TextTree("app"), entities);
    assert Map(PrintedEntity, [h]) == [PrintedEntity(h)];
    OneSize(PrintedEntity(h));
    PrintedItemSize();
  }

  lemma PrintedItemSize()
    ensures Size(PrintedEntity(HoledEntity(Item(), [], [None], []))) <= 200
  {
    var base := EntityBase(Item());
    var none: seq<Tree> := [];
    var hole := [Leaf(Null)];
    var (a, b, c) := (ListPairs("uniqueKeys", Items(none), true), ListPairs("indexes", Items(hole), true), ListPairs("foreignKeys", Items(none), true));
    assert Map(IndexTree, HoledEntity(Item(), [], [None], []).indexes) == hole;
    IrBudget.PairSizePlus(base, a);
    IrBudget.PairSizePlus(base + a, b);
    IrBudget.PairSizePlus(base + a + b, c);
    IrBudget.ListSize("uniqueKeys", Items(none), true);
    IrBudget.ListSize("indexes", Items(hole), true);
    IrBudget.ListSize("foreignKeys", Items(none), true);
    OneSize(Leaf(Null));
    ItemBaseSize();
  }

  lemma ItemBaseSize()
    ensures IrBudget.PairSize(EntityBase(Item())) <= 100
  {
    var (x, y) := (Items(Map(IrRoundTrip.FieldTree, [IdField()])), NamesTree(["id"]));
    IrBudget.FieldSize(IdField());
    IrBudget.EvenSize(IrRoundTrip.FieldTree, [IdField()], 6);
    IrBudget.NamesSize(["id"]);
    var (a, b) := (P("name", TextTree("Item")), P("table", TextTree("item")));
    var (c, d) := (P("fields", x), P("primaryKey", y));
    IrBudget.PairSizePlus(a, b);
    IrBudget.PairSizePlus(a + b, c);
    IrBudget.PairSizePlus(a + b + c, d);
    IrBudget.PSize("name", TextTree("Item"));
    IrBudget.PSize("table", TextTree("item"));
    IrBudget.PSize("fields", x);
    IrBudget.PSize("primaryKey", y);
  }

  lemma CompiledWhen(digest: string -> string, g: Graph, v: Value, n: HoledIr)
    requires NormalizeGraph(g, v) == Some(n) && forall e | e in n.entities :: KeysWhole(e)
    requires IrNames.NoCollision(digest, Ir(n.databaseSchema, Map(Skipping, n.entities)))
    ensures CompileGraph(digest, g, v) == Some(n)
  {
  }

  lemma HoledItemFacts()
    ensures KeysWhole(HoledEntity(Item(), [], [None], [])) && !FullEntity(HoledEntity(Item(), [], [None], []))
  {
    var indexes: seq<Option<HoledKey>> := [None];
    assert indexes[0] in indexes;
    assert !AllThere(indexes);
  }

  lemma KeptFacts()
    ensures (forall e | e in Kept().entities :: KeysWhole(e)) && !Full(Kept())
  {
    HoledItemFacts();
    assert Kept().entities[0] in Kept().entities;
  }

  /**
   * Accepted and compiled, with an index that is a hole; what is printed for it is rejected, and
   * not for want of budget.
   */
  lemma HoleIsNotFixed(digest: string -> string)
    ensures NormalizeGraph(Holding(), At(0)) == Some(Kept()) && CompileGraph(digest, Holding(), At(0)) == Some(Kept())
    ensures Heap(Holding())
    ensures NormalizeTree(SchemaFile(Kept())) == None && Size(SchemaFile(Kept())) <= IR_NODES
  {
    var g := Holding();
    HoldingHolds();
    HoldingIsHeap(g);
    KeptNormalises(g);
    KeptCompiles(digest);
    KeptFacts();
    CompiledWhen(digest, g, At(0), Kept());
    KeptFile();
  }

  /** The printed file: rejected, and small. */
  lemma KeptFile()
    ensures Normalize(ToJson(SchemaFile(Kept()))) == None && Size(SchemaFile(Kept())) <= IR_NODES
  {
    KeptFacts();
    HoleRejected(Kept());
    KeptIsSmall();
    FileSize(Kept());
  }
}
