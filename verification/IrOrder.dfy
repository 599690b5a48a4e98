/** Declaration order reaches neither what the schema-IR front end accepts, the node budget included, nor its result. */
module IrOrder {
  import opened Seqs
  import opened Json
  import opened SchemaIr
  import opened Snapshot
  import opened HeapData
  import opened Nodes
  import opened IrFixpoint
  import IrCanonical
  import IrHoles
  import Shape

  // ----- the same declarations in another order -----

  /** The lists of an entity whose order is that of declarations. */
  const DECLARATIONS := {"fields", "uniqueKeys", "indexes", "foreignKeys"}

  predicate Declares(key: string, j: Json) { key in DECLARATIONS && j.Arr? }

  /** What is left of an entity when the order of its declarations is forgotten. */
  datatype JsonBag = Other(j: Json) | JsonBag(rest: map<string, Json>, lists: map<string, multiset<Json>>)

  function JsonBagOf(x: Json): JsonBag {
    if x.Obj? then
      JsonBag(map k | k in x.members && !Declares(k, x.members[k]) :: x.members[k],
                map k | k in x.members && Declares(k, x.members[k]) :: multiset(x.members[k].items))
    else Other(x)
  }

  /** JSON data that lists the same entities and declarations in another order; it need not be an IR. */
  ghost predicate Shuffled(i: Json, j: Json) {
    && i.Obj? && j.Obj? && i.members.Keys == j.members.Keys
    && (forall k | k in i.members && k != "entities" :: i.members[k] == j.members[k])
    && ("entities" in i.members ==> SameEntities(i.members["entities"], j.members["entities"]))
  }

  ghost predicate SameEntities(a: Json, b: Json) {
    a == b || (a.Arr? && b.Arr? && Perm(Map(JsonBagOf, a.items), Map(JsonBagOf, b.items)))
  }

  /** Equal, or the same declarations in another order. */
  predicate SameMember(key: string, a: Json, b: Json) {
    a == b || (Declares(key, a) && Declares(key, b) && multiset(a.items) == multiset(b.items))
  }

  ghost predicate SameEntity(x: Json, y: Json) {
    x == y || (x.Obj? && y.Obj? && x.members.Keys == y.members.Keys &&
               forall k | k in x.members :: SameMember(k, x.members[k], y.members[k]))
  }

  lemma BagTells(x: Json, y: Json)
    requires JsonBagOf(x) == JsonBagOf(y)
    ensures SameEntity(x, y)
  {
    if x.Obj? {
      var (a, b) := (JsonBagOf(x), JsonBagOf(y));
      assert x.members.Keys == a.rest.Keys + a.lists.Keys && y.members.Keys == b.rest.Keys + b.lists.Keys;
      forall k | k in x.members ensures SameMember(k, x.members[k], y.members[k]) {
        assert Declares(k, x.members[k]) <==> k in a.lists;
        assert Declares(k, y.members[k]) <==> k in b.lists;
        if k in a.lists {
          assert a.lists[k] == b.lists[k];
        } else {
          assert a.rest[k] == b.rest[k];
        }
      }
    }
  }

  // ----- one entity -----

  lemma MemberAlike(x: Json, y: Json, key: string)
    requires SameEntity(x, y)
    ensures SameMember(key, Shape.Get(x, key), Shape.Get(y, key)) && SameMember(key, ListOr(x, key), ListOr(y, key))
    ensures key !in DECLARATIONS ==> Shape.Get(x, key) == Shape.Get(y, key)
  {
  }

  lemma ItemsAlike(key: string, a: Json, b: Json)
    requires SameMember(key, a, b)
    ensures a.Arr? <==> b.Arr?
    ensures Perm(Shape.ItemsOf(a), Shape.ItemsOf(b))
    ensures a.Arr? ==> forall x :: x in a.items <==> x in b.items
  {
    PermMembers(Shape.ItemsOf(a), Shape.ItemsOf(b));
  }

  lemma BaseShapeAlike(x: Json, y: Json)
    requires SameEntity(x, y) && EntityBaseShape(x)
    ensures EntityBaseShape(y)
  {
    NotDeclared();
    MemberAlike(x, y, "name");
    MemberAlike(x, y, "table");
    MemberAlike(x, y, "primaryKey");
    MemberAlike(x, y, "fields");
    ItemsAlike("fields", Shape.Get(x, "fields"), Shape.Get(y, "fields"));
  }

  lemma NotDeclared()
    ensures "name" !in DECLARATIONS && "table" !in DECLARATIONS && "primaryKey" !in DECLARATIONS
  {
  }

  lemma ListsShapeAlike(x: Json, y: Json)
    requires SameEntity(x, y)
    ensures IsStringsList(ListOr(x, "uniqueKeys")) <==> IsStringsList(ListOr(y, "uniqueKeys"))
    ensures IsStringsList(ListOr(x, "indexes")) <==> IsStringsList(ListOr(y, "indexes"))
    ensures IsForeignList(ListOr(x, "foreignKeys")) <==> IsForeignList(ListOr(y, "foreignKeys"))
  {
    MemberAlike(x, y, "uniqueKeys");
    MemberAlike(x, y, "indexes");
    MemberAlike(x, y, "foreignKeys");
    ItemsAlike("uniqueKeys", ListOr(x, "uniqueKeys"), ListOr(y, "uniqueKeys"));
    ItemsAlike("indexes", ListOr(x, "indexes"), ListOr(y, "indexes"));
    ItemsAlike("foreignKeys", ListOr(x, "foreignKeys"), ListOr(y, "foreignKeys"));
  }

  lemma ShapeAlike(x: Json, y: Json)
    requires SameEntity(x, y) && EntityShape(x)
    ensures EntityShape(y)
  {
    BaseShapeAlike(x, y);
    ListsShapeAlike(x, y);
  }

  /** The items of a list of declarations, read one by one. */
  lemma ReadAlike<T>(x: Json, y: Json, key: string, read: Json -> T)
    requires SameEntity(x, y)
    ensures multiset(Map(read, Shape.ItemsOf(ListOr(x, key)))) == multiset(Map(read, Shape.ItemsOf(ListOr(y, key))))
    ensures multiset(Map(read, Shape.ItemsOf(Shape.Get(x, key)))) == multiset(Map(read, Shape.ItemsOf(Shape.Get(y, key))))
  {
    MemberAlike(x, y, key);
    ItemsAlike(key, ListOr(x, key), ListOr(y, key));
    ItemsAlike(key, Shape.Get(x, key), Shape.Get(y, key));
    MapPerm(read, Shape.ItemsOf(ListOr(x, key)), Shape.ItemsOf(ListOr(y, key)));
    MapPerm(read, Shape.ItemsOf(Shape.Get(x, key)), Shape.ItemsOf(Shape.Get(y, key)));
  }

  lemma BagsAlike(x: Json, y: Json)
    requires SameEntity(x, y)
    ensures IrCanonical.BagOf(ReadEntity(x)) == IrCanonical.BagOf(ReadEntity(y))
  {
    NotDeclared();
    MemberAlike(x, y, "name");
    MemberAlike(x, y, "table");
    MemberAlike(x, y, "primaryKey");
    ReadAlike(x, y, "fields", ReadField);
    ReadAlike(x, y, "uniqueKeys", Shape.DecodeNames);
    ReadAlike(x, y, "indexes", Shape.DecodeNames);
    ReadAlike(x, y, "foreignKeys", ReadForeign);
  }

  function Same(j: Json): Json { j }

  lemma ListCountsAlike(a: seq<Json>, b: seq<Json>)
    requires Perm(a, b)
    ensures Count(Arr(a)) == Count(Arr(b))
  {
    assert Map(Same, a) == a && Map(Same, b) == b;
    ArraysCountAlike(Same, a, b);
  }

  lemma EntitiesCountAlike(x: Json, y: Json)
    requires SameEntity(x, y)
    ensures Count(x) == Count(y)
  {
    if x != y {
      forall k | k in x.members ensures Count(x.members[k]) == Count(y.members[k]) {
        assert SameMember(k, x.members[k], y.members[k]);
        if x.members[k] != y.members[k] {
          ListCountsAlike(x.members[k].items, y.members[k].items);
        }
      }
      ObjectsCountAlike(x.members, y.members);
    }
  }

  // ----- the whole IR -----

  lemma Counterpart(a: seq<Json>, b: seq<Json>, y: Json) returns (x: Json)
    requires Perm(Map(JsonBagOf, a), Map(JsonBagOf, b)) && y in b
    ensures x in a && SameEntity(x, y)
  {
    MapIn(JsonBagOf, b, y);
    PermMembers(Map(JsonBagOf, a), Map(JsonBagOf, b));
    x := MapInInverse(JsonBagOf, a, JsonBagOf(y));
    BagTells(x, y);
  }

  ghost predicate AllEntities(j: Json) { j.Arr? && forall x | x in j.items :: EntityShape(x) }

  lemma EntitiesShapeAlike(a: Json, b: Json)
    requires SameEntities(a, b) && AllEntities(a)
    ensures AllEntities(b)
  {
    if a != b {
      forall y | y in b.items ensures EntityShape(y) {
        var x := Counterpart(a.items, b.items, y);
        ShapeAlike(x, y);
      }
    }
  }

  lemma EntitiesReadAlike(a: Json, b: Json)
    requires SameEntities(a, b)
    ensures Perm(Map(IrCanonical.BagOf, Map(ReadEntity, Shape.ItemsOf(a))), Map(IrCanonical.BagOf, Map(ReadEntity, Shape.ItemsOf(b))))
    ensures Count(a) == Count(b)
  {
    if a != b {
      forall x, y | x in a.items && y in b.items && JsonBagOf(x) == JsonBagOf(y)
        ensures ReadBag(x) == ReadBag(y) && Count(Same(x)) == Count(Same(y))
      {
        BagTells(x, y);
        BagsAlike(x, y);
        EntitiesCountAlike(x, y);
      }
      assert Decides(JsonBagOf, ReadBag, a.items, b.items);
      MapDecides(JsonBagOf, ReadBag, a.items, b.items);
      TwoReads(a.items);
      TwoReads(b.items);
      assert Map(Same, a.items) == a.items && Map(Same, b.items) == b.items;
      BagsCountAlike(Same, JsonBagOf, a.items, b.items);
    }
  }

  function ReadBag(x: Json): IrCanonical.EntityBag { IrCanonical.BagOf(ReadEntity(x)) }

  lemma TwoReads(items: seq<Json>)
    ensures Map(ReadBag, items) == Map(IrCanonical.BagOf, Map(ReadEntity, items))
  {
  }

  lemma RootAlike(i: Json, j: Json)
    requires Shuffled(i, j)
    ensures SameEntities(Shape.Get(i, "entities"), Shape.Get(j, "entities"))
    ensures Shape.Get(i, "databaseSchema") == Shape.Get(j, "databaseSchema")
    ensures Shape.Get(i, "schemaVersion") == Shape.Get(j, "schemaVersion")
  {
    RootKeysApart();
  }

  lemma RootKeysApart()
    ensures "databaseSchema" != "entities" && "schemaVersion" != "entities"
  {
  }

  lemma IrShapeAlike(i: Json, j: Json)
    requires Shuffled(i, j) && IrShape(i)
    ensures IrShape(j)
  {
    RootAlike(i, j);
    EntitiesShapeAlike(Shape.Get(i, "entities"), Shape.Get(j, "entities"));
  }

  lemma ShuffledBack(i: Json, j: Json)
    requires Shuffled(i, j)
    ensures Shuffled(j, i)
  {
  }

  lemma ShuffledReads(i: Json, j: Json)
    requires Shuffled(i, j)
    ensures IrCanonical.Reordering(ReadIr(i), ReadIr(j))
  {
    RootAlike(i, j);
    EntitiesReadAlike(Shape.Get(i, "entities"), Shape.Get(j, "entities"));
  }

  /** As many nodes, whether or not the data is an IR. */
  lemma ShuffledCountsAlike(i: Json, j: Json)
    requires Shuffled(i, j)
    ensures Count(i) == Count(j)
  {
    forall k | k in i.members ensures Count(i.members[k]) == Count(j.members[k]) {
      if k == "entities" {
        EntitiesReadAlike(i.members[k], j.members[k]);
      }
    }
    ObjectsCountAlike(i.members, j.members);
  }

  /**
   * JSON data with its declarations in another order, defaults written out or not, normalises to
   * the same IR, or is rejected too.
   */
  lemma TextsAreOrderBlind(i: Json, j: Json)
    requires Shuffled(i, j)
    ensures Normalize(i) == Normalize(j) && NormalizeText(i) == NormalizeText(j)
  {
    ShuffledCountsAlike(i, j);
    if IrShape(i) || IrShape(j) {
      ShuffledBack(i, j);
      if IrShape(i) {
        IrShapeAlike(i, j);
      } else {
        IrShapeAlike(j, i);
      }
      ShuffledReads(i, j);
      IrCanonical.NormalizeIsOrderBlind(i, j);
    }
  }

  /** And so do graphs of such data, the node budget included. */
  lemma GraphsAreOrderBlind(g: Graph, v: Value, j: Json, g': Graph, v': Value, j': Json)
    requires Heap(g) && Heap(g') && Parses(g, v, j) && Parses(g', v', j') && Shuffled(j, j')
    ensures IrHoles.NormalizeGraph(g, v) == IrHoles.NormalizeGraph(g', v')
  {
    GraphsNormalizeAsData(g, v, j);
    GraphsNormalizeAsData(g', v', j');
    TextsAreOrderBlind(j, j');
  }
}
