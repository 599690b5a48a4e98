/** Compiling a compiler's own normalised IR again: reproduced when the input had no holes and the result fits the budget. */
module IrFixpoint {
  import opened Seqs
  import opened Strings
  import opened Json
  import opened Document
  import opened SchemaIr
  import opened Snapshot
  import opened IrRoundTrip
  import opened IrHoles
  import opened IrDense
  import opened HeapData
  import opened Nodes
  import opened CanonicalText
  import IrNames
  import Shape

  // ----- graphs without holes read as the trees they unfold to -----

  lemma {:induction false} LookupFinds(ps: seq<Property>, i: nat)
    requires i < |ps| && forall k | i < k < |ps| :: ps[k].key != ps[i].key
    ensures Lookup(ps, ps[i].key) == Some(ps[i].value)
    decreases |ps|
  {
    if i < |ps| - 1 {
      LookupFinds(ps[..|ps| - 1], i);
    }
  }

  lemma {:induction false} LookupIn(ps: seq<Property>, key: Key)
    requires Lookup(ps, key).Some?
    ensures exists p | p in ps :: p.key == key
  {
    if ps[|ps| - 1].key == key {
      assert ps[|ps| - 1] in ps;
    } else {
      LookupIn(ps[..|ps| - 1], key);
    }
  }

  lemma {:induction false} SlotAt(g: Graph, ps: seq<Property>, n: nat, depth: nat, i: nat)
    requires depth <= 20 && i < n
    ensures ReadSlots(g, ps, n, depth)[i] == ReadSlot(g, Lookup(ps, Index(i)), depth)
  {
    if i < n - 1 {
      SlotAt(g, ps, n - 1, depth, i);
    }
  }

  /** In an array without keys beyond its length, slot `i` is own property `i`. */
  lemma SlotInOrder(g: Graph, t: Thing, depth: nat, i: nat)
    requires depth <= 20 && OwnKeys(t) && t.length.Some? && ArrayKeys(t, true) && i < t.length.value
    ensures ReadSlots(g, t.properties, t.length.value, depth)[i] == Some(Reading(g, t.properties[i].value, depth + 1))
  {
    ItemsInOrder(t, i);
    SlotAt(g, t.properties, t.length.value, depth, i);
    forall k | i < k < |t.properties| ensures t.properties[k].key != t.properties[i].key {
      ItemsInOrder(t, k);
    }
    LookupFinds(t.properties, i);
  }

  function Filling(members: map<string, Data>): map<string, Json> { map k | k in members :: Filled(members[k]) }

  ghost predicate AllHoleFree(members: map<string, Data>) { forall k | k in members :: HoleFree(members[k]) }

  lemma FillingOf(members: map<string, Data>, key: string, d: Data)
    ensures Filling(members[key := d]) == Filling(members)[key := Filled(d)]
    ensures AllHoleFree(members) && HoleFree(d) ==> AllHoleFree(members[key := d])
  {
  }

  /** What a graph without holes reads as is what it unfolds to. */
  lemma {:induction false} StrictReading(g: Graph, v: Value, depth: nat)
    requires Heap(g) && Unfold(g, v, depth, STRICT).Some?
    ensures HoleFree(Reading(g, v, depth)) && Filled(Reading(g, v, depth)) == ToJson(Unfold(g, v, depth, STRICT).value)
    decreases 21 - depth, 1, 0
  {
    if v.At? {
      var t := g[v.ref];
      var children := UnfoldAll(g, Map(ValueOf, t.properties), depth, STRICT).value;
      if t.length.Some? {
        StrictItems(g, t, depth);
      } else {
        StrictMembers(g, t.properties, depth);
        assert Reading(g, v, depth) == Fields(ReadMembers(g, t.properties, depth));
      }
    }
  }

  lemma {:induction false} StrictItems(g: Graph, t: Thing, depth: nat)
    requires Heap(g) && depth <= 20 && OwnKeys(t) && t.length.Some? && ArrayKeys(t, true)
    requires UnfoldAll(g, Map(ValueOf, t.properties), depth, STRICT).Some?
    ensures var slots := ReadSlots(g, t.properties, t.length.value, depth);
            HoleFree(Slots(slots)) && FilledAll(slots) == ToJsonAll(UnfoldAll(g, Map(ValueOf, t.properties), depth, STRICT).value)
    decreases 21 - depth, 0, 0
  {
    var slots := ReadSlots(g, t.properties, t.length.value, depth);
    var vs := Map(ValueOf, t.properties);
    var children := UnfoldAll(g, vs, depth, STRICT).value;
    UnfoldEach(g, vs, depth, STRICT);
    FilledEach(slots);
    ToJsonEach(children);
    forall i | 0 <= i < |slots| ensures slots[i].Some? && HoleFree(slots[i].value) && FilledAll(slots)[i] == ToJsonAll(children)[i] {
      SlotInOrder(g, t, depth, i);
      assert Unfold(g, vs[i], depth + 1, STRICT).Some?;
      StrictReading(g, vs[i], depth + 1);
    }
    assert FilledAll(slots) == ToJsonAll(children);
  }

  lemma MembersSnoc(g: Graph, ps: seq<Property>, p: Property, depth: nat)
    requires depth <= 20
    ensures ReadMembers(g, ps + [p], depth) == ReadMembers(g, ps, depth)[PropertyName(p.key) := Reading(g, p.value, depth + 1)]
    ensures Map(ValueOf, ps + [p]) == Map(ValueOf, ps) + [p.value]
    ensures Map(TextOfKey, ps + [p]) == Map(TextOfKey, ps) + [TextOfKey(p)]
  {
    assert (ps + [p])[..|ps|] == ps;
  }

  lemma {:induction false} StrictMembers(g: Graph, ps: seq<Property>, depth: nat)
    requires Heap(g) && depth <= 20 && UnfoldAll(g, Map(ValueOf, ps), depth, STRICT).Some?
    ensures AllHoleFree(ReadMembers(g, ps, depth))
    ensures Filling(ReadMembers(g, ps, depth)) ==
              Object(Map(TextOfKey, ps), ToJsonAll(UnfoldAll(g, Map(ValueOf, ps), depth, STRICT).value))
    decreases 21 - depth, 0, |ps|
  {
    if ps != [] {
      var (rest, last) := (ps[..|ps| - 1], ps[|ps| - 1]);
      assert ps == rest + [last];
      MembersSnoc(g, rest, last, depth);
      UnfoldSnoc(g, Map(ValueOf, rest), last.value, depth, STRICT);
      StrictMembers(g, rest, depth);
      StrictReading(g, last.value, depth + 1);
      FillingOf(ReadMembers(g, rest, depth), PropertyName(last.key), Reading(g, last.value, depth + 1));
      UnfoldEach(g, Map(ValueOf, rest), depth, STRICT);
      ObjectSnoc(Map(TextOfKey, rest), TextOfKey(last), UnfoldAll(g, Map(ValueOf, rest), depth, STRICT).value,
                 Unfold(g, last.value, depth + 1, STRICT).value);
    }
  }

  // ----- and only those -----

  lemma ReadMembersHolds(g: Graph, ps: seq<Property>, depth: nat, i: nat)
    requires depth <= 20 && i < |ps|
    requires forall k | i < k < |ps| :: PropertyName(ps[k].key) != PropertyName(ps[i].key)
    ensures PropertyName(ps[i].key) in ReadMembers(g, ps, depth)
    ensures ReadMembers(g, ps, depth)[PropertyName(ps[i].key)] == Reading(g, ps[i].value, depth + 1)
    decreases |ps|
  {
    if i < |ps| - 1 {
      ReadMembersHolds(g, ps[..|ps| - 1], depth, i);
    }
  }

  ghost predicate ReadHoleFree(g: Graph, vs: seq<Value>, depth: nat) {
    forall v | v in vs :: HoleFree(Reading(g, v, depth))
  }

  /** Every property of a hole-free thing is read, and hole-free. */
  lemma PropertiesHoleFree(g: Graph, r: Ref, depth: nat)
    requires Heap(g) && r in g && depth <= 20 && Readable(g[r], IR) && HoleFree(Reading(g, At(r), depth))
    ensures ArrayKeys(g[r], true)
    ensures ReadHoleFree(g, Map(ValueOf, g[r].properties), depth + 1)
  {
    var t := g[r];
    if t.length.Some? {
      SlotsDense(g, t, depth);
    }
    forall v | v in Map(ValueOf, t.properties) ensures HoleFree(Reading(g, v, depth + 1)) {
      var i :| 0 <= i < |t.properties| && Map(ValueOf, t.properties)[i] == v;
      if t.length.Some? {
        var slots := ReadSlots(g, t.properties, t.length.value, depth);
        SlotInOrder(g, t, depth, i);
        assert slots[i] in slots;
      } else {
        ReadMembersHolds(g, t.properties, depth, i);
      }
    }
  }

  lemma SlotsDense(g: Graph, t: Thing, depth: nat)
    requires OwnKeys(t) && depth <= 20 && t.length.Some? && ArrayKeys(t, false)
    requires HoleFree(Slots(ReadSlots(g, t.properties, t.length.value, depth)))
    ensures ArrayKeys(t, true)
  {
    var slots := ReadSlots(g, t.properties, t.length.value, depth);
    forall i: nat | i < t.length.value ensures HasIndex(t, i) {
      SlotAt(g, t.properties, t.length.value, depth, i);
      assert slots[i] in slots;
      LookupIn(t.properties, Index(i));
    }
    DenseIffBelow(t);
  }

  /** The strict limits add nothing to what the walk accepts but the absence of holes. */
  lemma {:induction false} StrictIffHoleFree(g: Graph, v: Value, depth: nat)
    requires Heap(g) && Unfold(g, v, depth, IR).Some?
    ensures Unfold(g, v, depth, STRICT).Some? <==> HoleFree(Reading(g, v, depth))
    decreases 21 - depth, 1, 0
  {
    if Unfold(g, v, depth, STRICT).Some? {
      StrictReading(g, v, depth);
    } else if v.At? && HoleFree(Reading(g, v, depth)) {
      PropertiesHoleFree(g, v.ref, depth);
      StrictAll(g, Map(ValueOf, g[v.ref].properties), depth);
    }
  }

  lemma {:induction false} StrictAll(g: Graph, vs: seq<Value>, depth: nat)
    requires Heap(g) && depth <= 20 && UnfoldAll(g, vs, depth, IR).Some?
    requires ReadHoleFree(g, vs, depth + 1)
    ensures UnfoldAll(g, vs, depth, STRICT).Some?
    decreases 21 - depth, 0, 0
  {
    UnfoldEach(g, vs, depth, IR);
    UnfoldEach(g, vs, depth, STRICT);
    forall i | 0 <= i < |vs| ensures Unfold(g, vs[i], depth + 1, STRICT).Some? {
      StrictAt(g, vs[i], depth + 1, vs);
    }
  }

  lemma {:induction false} StrictAt(g: Graph, v: Value, depth: nat, vs: seq<Value>)
    requires Heap(g) && v in vs && Unfold(g, v, depth, IR).Some? && ReadHoleFree(g, vs, depth)
    ensures Unfold(g, v, depth, STRICT).Some?
    decreases 21 - depth, 2, 0
  {
    StrictIffHoleFree(g, v, depth);
  }

  /** Under the strict limits a graph unfolds to the same tree. */
  lemma {:induction false} StrictIsIr(g: Graph, v: Value, depth: nat)
    requires Unfold(g, v, depth, STRICT).Some?
    ensures Unfold(g, v, depth, IR) == Unfold(g, v, depth, STRICT)
    decreases 21 - depth, 1, 0
  {
    if v.At? {
      StrictAllIsIr(g, Map(ValueOf, g[v.ref].properties), depth);
    }
  }

  lemma {:induction false} StrictAllIsIr(g: Graph, vs: seq<Value>, depth: nat)
    requires depth <= 20 && UnfoldAll(g, vs, depth, STRICT).Some?
    ensures UnfoldAll(g, vs, depth, IR) == UnfoldAll(g, vs, depth, STRICT)
    decreases 21 - depth, 0, |vs|
  {
    if vs != [] {
      StrictAllIsIr(g, vs[..|vs| - 1], depth);
      StrictIsIr(g, vs[|vs| - 1], depth + 1);
    }
  }

  /** Without holes, a graph normalises as the JSON text it unfolds to. */
  lemma GraphsNormalizeAsTrees(g: Graph, v: Value)
    requires Heap(g) && Unfold(g, v, 0, STRICT).Some?
    ensures NormalizeGraph(g, v) == Embedded(NormalizeTree(Unfold(g, v, 0, STRICT).value))
  {
    assert ToSet<Ref>([]) == {};
    StrictIsIr(g, v, 0);
    BudgetIsCount(g, [], v, {}, 0, IR_NODES);
    UnfoldIsBounded(g, v, 0, IR);
    StrictReading(g, v, 0);
    DenseNormalises(Reading(g, v, 0));
  }

  /** The front end on JSON data: as long as its nodes fit the budget. */
  ghost function NormalizeText(j: Json): Option<Ir> { if Count(j) <= 100000 then Normalize(j) else None }

  lemma TreeNormalises(t: Tree)
    requires Proper(t) && Bounded(t, 0, STRICT)
    ensures NormalizeTree(t) == NormalizeText(ToJson(t))
  {
    SizeIsCount(t);
  }

  /** So it normalises as the data it stands for, whatever the order of members. */
  lemma GraphsNormalizeAsData(g: Graph, v: Value, j: Json)
    requires Heap(g) && Parses(g, v, j)
    ensures NormalizeGraph(g, v) == Embedded(NormalizeText(j))
  {
    ParsesIffUnfolds(g, v, j);
    UnfoldsProperly(g, v, 0, STRICT);
    UnfoldIsBounded(g, v, 0, STRICT);
    TreeNormalises(Unfold(g, v, 0, STRICT).value);
    GraphsNormalizeAsTrees(g, v);
  }

  // ----- where a hole survives -----

  predicate FullKey(key: HoledKey) { None !in key }

  predicate AllFull(keys: seq<HoledKey>) { forall k | k in keys :: FullKey(k) }
  predicate AllThere(keys: seq<Option<HoledKey>>) { forall k | k in keys :: k.Some? && FullKey(k.value) }

  predicate FullEntity(e: HoledEntity) {
    AllFull(e.uniqueKeys) && AllThere(e.indexes) && None !in e.foreignKeys
  }

  predicate Full(ir: HoledIr) { forall e | e in ir.entities :: FullEntity(e) }

  lemma {:induction false} PresentMeans<T>(xs: seq<Option<T>>)
    ensures forall x :: x in Present(xs) <==> Some(x) in xs
    ensures |Present(xs)| == |xs| <==> None !in xs
  {
    if xs != [] {
      var (rest, last) := (xs[..|xs| - 1], xs[|xs| - 1]);
      assert xs == rest + [last];
      PresentMeans(rest);
    }
  }

  lemma SortHolesMember<T>(key: T -> string, xs: seq<Option<T>>, x: Option<T>)
    ensures x in SortHoles(key, xs) <==> x in xs
  {
    var (there, sorted) := (Present(xs), SortBy(key, Present(xs)));
    PresentMeans(xs);
    SortByCorrect(key, there);
    PermMembers(there, sorted);
    var (some, holes) := (Map(SomeOf, sorted), Holes<T>(|xs| - |there|));
    if x in some {
      var y := MapInInverse(SomeOf, sorted, x);
    }
    if x.Some? && x in xs {
      MapIn(SomeOf, sorted, x.value);
    }
    if x == None && x in xs {
      assert holes[0] in holes;
    }
  }

  lemma SortKeepsFull(keys: seq<HoledKey>)
    ensures AllFull(SortBy(HoledText, keys)) <==> AllFull(keys)
  {
    var sorted := SortBy(HoledText, keys);
    SortByCorrect(HoledText, keys);
    forall k | k in keys ensures k in sorted {
      assert k in multiset(keys);
    }
    forall k | k in sorted ensures k in keys {
      assert k in multiset(sorted);
    }
  }

  lemma SortKeepsThere(keys: seq<Option<HoledKey>>)
    ensures AllThere(SortHoles(HoledText, keys)) <==> AllThere(keys)
  {
    var sorted := SortHoles(HoledText, keys);
    if AllThere(keys) {
      forall k | k in sorted ensures k.Some? && FullKey(k.value) {
        SortHolesMember(HoledText, keys, k);
      }
    }
    if AllThere(sorted) {
      forall k | k in keys ensures k.Some? && FullKey(k.value) {
        SortHolesMember(HoledText, keys, k);
      }
    }
  }

  lemma CanonKeepsFull(e: HoledEntity)
    ensures FullEntity(CanonHoled(e)) <==> FullEntity(e)
  {
    SortKeepsFull(e.uniqueKeys);
    SortKeepsThere(e.indexes);
    SortHolesMember(ForeignText, e.foreignKeys, None);
  }

  lemma CanonicalKeepsFull(ir: HoledIr)
    ensures Full(CanonicalHoled(ir)) <==> Full(ir)
  {
    var canon := Map(CanonHoled, ir.entities);
    SortByCorrect(NameOfHoled, canon);
    PermMembers(canon, SortBy(NameOfHoled, canon));
    forall e | e in ir.entities ensures CanonHoled(e) in canon && (FullEntity(CanonHoled(e)) <==> FullEntity(e)) {
      MapIn(CanonHoled, ir.entities, e);
      CanonKeepsFull(e);
    }
    forall c | c in canon ensures exists e | e in ir.entities :: c == CanonHoled(e) {
      var e := MapInInverse(CanonHoled, ir.entities, c);
    }
  }

  lemma WholeIsFull(key: seq<string>)
    ensures FullKey(Whole(key))
  {
  }

  lemma WholesAreFull(keys: seq<seq<string>>)
    ensures AllFull(Map(Whole, keys)) && AllThere(Map(SomeWhole, keys))
  {
    forall k | k in keys ensures FullKey(Whole(k)) {
      WholeIsFull(k);
    }
  }

  lemma EmbeddedIsFull(ir: Ir)
    ensures Full(HoledIrOf(ir))
  {
    forall h | h in HoledIrOf(ir).entities ensures FullEntity(h) {
      var e := MapInInverse(HoledOf, ir.entities, h);
      WholesAreFull(e.uniqueKeys);
      WholesAreFull(e.indexes);
    }
  }

  /** Texts, numbers and truth values are no arrays. */
  lemma SimpleHoleFree(d: Data)
    requires Filled(d).Str? || Filled(d).Bool? || Filled(d).Num?
    ensures HoleFree(d)
  {
  }

  lemma ItemsHoleFree(d: Data, itemOk: Json -> bool)
    requires d.Slots? && (forall x | x in Filled(d).items :: itemOk(x)) && !itemOk(Null)
    requires forall x | itemOk(Filled(x)) :: HoleFree(x)
    ensures HoleFree(d)
  {
    FilledEach(d.slots);
    forall s | s in d.slots ensures s.Some? && HoleFree(s.value) {
      var i :| 0 <= i < |d.slots| && d.slots[i] == s;
      assert Filled(d).items[i] in Filled(d).items;
    }
  }

  lemma StringsHoleFree(d: Data)
    requires IsStrings(Filled(d))
    ensures HoleFree(d)
  {
    ItemsHoleFree(d, IsString);
  }

  lemma MembersFilled(d: Data)
    requires d.Fields?
    ensures Filled(d).members.Keys == d.members.Keys
    ensures forall k | k in d.members :: Shape.Get(Filled(d), k) == Filled(d.members[k])
  {
  }

  lemma FieldHoleFree(d: Data)
    requires FieldShape(Filled(d))
    ensures HoleFree(d)
  {
    MembersFilled(d);
    forall k | k in d.members ensures HoleFree(d.members[k]) {
      FieldValueSimple(Filled(d), k);
      SimpleHoleFree(d.members[k]);
    }
  }

  lemma FieldValueSimple(j: Json, k: string)
    requires FieldShape(j) && k in j.members
    ensures Shape.Get(j, k).Str? || Shape.Get(j, k).Bool? || Shape.Get(j, k).Num?
  {
    assert k in FIELD_KEYS || k in BOUND_KEYS;
  }

  lemma ReferencesHoleFree(d: Data)
    requires IsRecord(Filled(d), REFERENCE_KEYS, {})
    requires Shape.Get(Filled(d), "entity").Str? && IsStrings(Shape.Get(Filled(d), "fields"))
    ensures HoleFree(d)
  {
    MembersFilled(d);
    forall k | k in d.members ensures HoleFree(d.members[k]) {
      assert k in REFERENCE_KEYS;
      if k == "entity" {
        SimpleHoleFree(d.members[k]);
      } else {
        StringsHoleFree(d.members[k]);
      }
    }
  }

  lemma ForeignHoleFree(d: Data)
    requires ForeignShape(Filled(d))
    ensures HoleFree(d)
  {
    MembersFilled(d);
    forall k | k in d.members ensures HoleFree(d.members[k]) {
      assert k in FOREIGN_KEYS + {"onDelete"};
      if k == "fields" {
        StringsHoleFree(d.members[k]);
      } else if k == "references" {
        ReferencesHoleFree(d.members[k]);
      } else {
        SimpleHoleFree(d.members[k]);
      }
    }
  }

  lemma KeyHoleFree(d: Data)
    requires ReadsKey(d) && FullKey(KeyIn(d))
    ensures HoleFree(d)
  {
    forall s | s in d.slots ensures s.Some? && HoleFree(s.value) {
      MapIn(Lift(NameIn), d.slots, s);
      assert ReadsName(s);
    }
  }

  lemma UniqueKeysHoleFree(d: Data)
    requires ReadsUniqueKeys(d) && AllFull(Map(UniqueIn, d.slots))
    ensures HoleFree(d)
  {
    forall s | s in d.slots ensures s.Some? && HoleFree(s.value) {
      MapIn(UniqueIn, d.slots, s);
      assert ReadsUnique(s);
      KeyHoleFree(s.value);
    }
  }

  lemma IndexesHoleFree(d: Data)
    requires ReadsIndexes(d) && AllThere(Map(Lift(KeyIn), d.slots))
    ensures HoleFree(d)
  {
    forall s | s in d.slots ensures s.Some? && HoleFree(s.value) {
      MapIn(Lift(KeyIn), d.slots, s);
      assert ReadsIfPresent(s);
      KeyHoleFree(s.value);
    }
  }

  lemma ForeignKeysHoleFree(d: Data)
    requires ReadsForeignKeys(d) && None !in Map(Lift(ForeignIn), d.slots)
    ensures HoleFree(d)
  {
    forall s | s in d.slots ensures s.Some? && HoleFree(s.value) {
      MapIn(Lift(ForeignIn), d.slots, s);
      assert ReadsForeignIfPresent(s);
      ForeignHoleFree(s.value);
    }
  }

  lemma FieldsHoleFree(d: Data)
    requires Filled(d).Arr? && forall x | x in Filled(d).items :: FieldShape(x)
    ensures HoleFree(d)
  {
    forall x | FieldShape(Filled(x)) ensures HoleFree(x) {
      FieldHoleFree(x);
    }
    ItemsHoleFree(d, FieldShape);
  }

  lemma EntityBaseHoleFree(d: Data, k: string)
    requires d.Fields? && EntityBaseShape(Filled(d)) && k in d.members && k in ENTITY_KEYS
    ensures HoleFree(d.members[k])
  {
    MembersFilled(d);
    if k == "fields" {
      FieldsHoleFree(d.members[k]);
    } else if k == "primaryKey" {
      StringsHoleFree(d.members[k]);
    } else {
      assert k == "name" || k == "table";
      SimpleHoleFree(d.members[k]);
    }
  }

  lemma EntityHoleFree(d: Data)
    requires ReadsEntity(d) && FullEntity(EntityIn(d))
    ensures HoleFree(d)
  {
    UniqueKeysHoleFree(ListIn(d, "uniqueKeys"));
    IndexesHoleFree(ListIn(d, "indexes"));
    ForeignKeysHoleFree(ListIn(d, "foreignKeys"));
    MembersFilled(d);
    forall k | k in d.members ensures HoleFree(d.members[k]) {
      assert k in ENTITY_KEYS + LIST_KEYS;
      if k in ENTITY_KEYS {
        EntityBaseHoleFree(d, k);
      } else {
        assert k == "uniqueKeys" || k == "indexes" || k == "foreignKeys";
        assert d.members[k] == ListIn(d, k);
      }
    }
  }

  lemma EntitiesHoleFree(d: Data)
    requires d.Slots? && (forall s | s in d.slots :: ReadsEntitySlot(s))
    requires forall e | e in Map(EntityInSlot, d.slots) :: FullEntity(e)
    ensures HoleFree(d)
  {
    forall s | s in d.slots ensures s.Some? && HoleFree(s.value) {
      MapIn(EntityInSlot, d.slots, s);
      assert ReadsEntitySlot(s);
      EntityHoleFree(s.value);
    }
  }

  lemma IrHoleFree(d: Data)
    requires ReadsIr(d) && Full(IrIn(d))
    ensures HoleFree(d)
  {
    MembersFilled(d);
    EntitiesHoleFree(MemberOf(d, "entities"));
    forall k | k in d.members ensures HoleFree(d.members[k]) {
      assert k in IR_KEYS;
      if k == "entities" {
        assert d.members[k] == MemberOf(d, "entities");
      } else {
        assert k == "schemaVersion" || k == "databaseSchema";
        SimpleHoleFree(d.members[k]);
      }
    }
  }

  /** A hole in accepted data is still there in the normalised IR. */
  lemma HolesSurvive(d: Data, n: HoledIr)
    requires NormalizeData(d) == Some(n)
    ensures Full(n) <==> HoleFree(d)
  {
    CanonicalKeepsFull(IrIn(d));
    if HoleFree(d) {
      DenseNormalises(d);
      EmbeddedIsFull(Normalize(Filled(d)).value);
    }
    if Full(n) {
      IrHoleFree(d);
    }
  }

  // ----- the printed form of a normalised IR, a hole as null -----

  function NameTree(n: Option<string>): Tree { if n.Some? then TextTree(n.value) else Leaf(Null) }
  function HoledKeyTree(key: HoledKey): Tree { Items(Map(NameTree, key)) }
  function IndexTree(key: Option<HoledKey>): Tree { if key.Some? then HoledKeyTree(key.value) else Leaf(Null) }
  function ForeignSlotTree(k: Option<IrForeign>): Tree { if k.Some? then ForeignTree(true)(k.value) else Leaf(Null) }

  function PrintedEntity(e: HoledEntity): Tree {
    ObjectTree(EntityBase(e.base) + ListPairs("uniqueKeys", Items(Map(HoledKeyTree, e.uniqueKeys)), true) +
               ListPairs("indexes", Items(Map(IndexTree, e.indexes)), true) +
               ListPairs("foreignKeys", Items(Map(ForeignSlotTree, e.foreignKeys)), true))
  }

  /** `JSON.stringify` of the normalised IR, parsed again. */
  function Printed(ir: HoledIr): Tree {
    ObjectTree(P("schemaVersion", TextTree(VERSION)) + P("databaseSchema", TextTree(ir.databaseSchema)) +
               P("entities", Items(Map(PrintedEntity, ir.entities))))
  }

  lemma PrintedKey(key: seq<string>)
    ensures HoledKeyTree(Whole(key)) == NamesTree(key)
  {
    assert Map(NameTree, Whole(key)) == Map(TextTree, key);
  }

  lemma PrintedKeys(keys: seq<seq<string>>)
    ensures Map(HoledKeyTree, Map(Whole, keys)) == Map(NamesTree, keys)
    ensures Map(IndexTree, Map(SomeWhole, keys)) == Map(NamesTree, keys)
  {
    forall i | 0 <= i < |keys|
      ensures Map(HoledKeyTree, Map(Whole, keys))[i] == Map(NamesTree, keys)[i]
      ensures Map(IndexTree, Map(SomeWhole, keys))[i] == Map(NamesTree, keys)[i]
    {
      PrintedKey(keys[i]);
    }
  }

  lemma PrintedForeigns(keys: seq<IrForeign>)
    ensures Map(ForeignSlotTree, Map(SomeOf, keys)) == Map(ForeignTree(true), keys)
  {
  }

  lemma PrintedWholeEntity(e: Entity)
    ensures PrintedEntity(HoledOf(e)) == EntityTree(true)(e)
  {
    assert EntityBase(BaseOf(e)) == EntityBase(e);
    PrintedKeys(e.uniqueKeys);
    PrintedKeys(e.indexes);
    PrintedForeigns(e.foreignKeys);
  }

  /** Without holes the printed form is the text with all defaults. */
  lemma PrintedWhole(ir: Ir)
    ensures Printed(HoledIrOf(ir)) == IrTree(ir, true)
  {
    forall i | 0 <= i < |ir.entities|
      ensures Map(PrintedEntity, Map(HoledOf, ir.entities))[i] == Map(EntityTree(true), ir.entities)[i]
    {
      PrintedWholeEntity(ir.entities[i]);
    }
    assert Map(PrintedEntity, Map(HoledOf, ir.entities)) == Map(EntityTree(true), ir.entities);
  }

  // ----- a printed hole is rejected -----

  lemma PrintedItem<T>(write: T -> Tree, xs: seq<T>, x: T)
    requires x in xs
    ensures ToJson(Items(Map(write, xs))).Arr? && ToJson(write(x)) in ToJson(Items(Map(write, xs))).items
  {
    var i :| 0 <= i < |xs| && xs[i] == x;
    ToJsonEach(Map(write, xs));
    assert ToJsonAll(Map(write, xs))[i] == ToJson(write(x));
  }

  lemma HoledKeyRejected(key: HoledKey)
    requires !FullKey(key)
    ensures !IsStrings(ToJson(HoledKeyTree(key)))
  {
    PrintedItem(NameTree, key, None);
  }

  lemma HoledEntityRejected(e: HoledEntity)
    requires !FullEntity(e)
    ensures !EntityShape(ToJson(PrintedEntity(e)))
  {
    PrintedLists(e);
    if !AllFull(e.uniqueKeys) {
      var k :| k in e.uniqueKeys && !FullKey(k);
      HoledKeyRejected(k);
      PrintedItem(HoledKeyTree, e.uniqueKeys, k);
    } else if !AllThere(e.indexes) {
      var k :| k in e.indexes && !(k.Some? && FullKey(k.value));
      if k.Some? {
        HoledKeyRejected(k.value);
      }
      PrintedItem(IndexTree, e.indexes, k);
    } else {
      PrintedItem(ForeignSlotTree, e.foreignKeys, None);
    }
  }

  lemma PrintedLists(e: HoledEntity)
    ensures var j := ToJson(PrintedEntity(e));
            && ListOr(j, "uniqueKeys") == ToJson(Items(Map(HoledKeyTree, e.uniqueKeys)))
            && ListOr(j, "indexes") == ToJson(Items(Map(IndexTree, e.indexes)))
            && ListOr(j, "foreignKeys") == ToJson(Items(Map(ForeignSlotTree, e.foreignKeys)))
  {
    var (u, i, f) := (Items(Map(HoledKeyTree, e.uniqueKeys)), Items(Map(IndexTree, e.indexes)), Items(Map(ForeignSlotTree, e.foreignKeys)));
    WithLists(EntityBase(e.base), u, i, f, true, true, true);
    EntityBaseIs(e.base);
    EntityMembers(Str(e.base.name), Str(e.base.table), ToJson(Items(Map(FieldTree, e.base.fields))), ToJson(NamesTree(e.base.primaryKey)),
                  ToJson(u), ToJson(i), ToJson(f), true, true, true);
  }

  lemma HoleRejected(ir: HoledIr)
    requires !Full(ir)
    ensures Normalize(ToJson(Printed(ir))) == None
  {
    var e :| e in ir.entities && !FullEntity(e);
    var entities := Items(Map(PrintedEntity, ir.entities));
    HoledEntityRejected(e);
    PrintedItem(PrintedEntity, ir.entities, e);
    var parts := P("schemaVersion", TextTree(VERSION)) + P("databaseSchema", TextTree(ir.databaseSchema)) + P("entities", entities);
    ObjectJson(parts);
    ThreeMembers(TextTree(VERSION), TextTree(ir.databaseSchema), entities);
    IrRecord(Str(VERSION), Str(ir.databaseSchema), ToJson(entities));
  }

  // ----- the fixpoint -----

  /** What the walk accepts unfolds, and within the budget. */
  lemma AcceptedUnfolds(g: Graph, v: Value)
    requires JsonValue(g, v, {}, 0, IR_NODES).Some?
    ensures Unfold(g, v, 0, IR).Some?
  {
    assert ToSet<Ref>([]) == {};
    BudgetIsCount(g, [], v, {}, 0, IR_NODES);
  }

  lemma WholeIsFixed(g: Graph, v: Value, n: HoledIr)
    requires Heap(g) && NormalizeGraph(g, v) == Some(n) && HasData(g, v)
    ensures Embedded(Normalize(ToJson(Printed(n)))) == Some(n)
  {
    var j :| Parses(g, v, j);
    GraphsNormalizeAsData(g, v, j);
    var ir := Normalize(j).value;
    PrintedWhole(ir);
    TextIsFixed(j, ir);
  }

  lemma HoleIsFull(g: Graph, v: Value, n: HoledIr)
    requires Heap(g) && NormalizeGraph(g, v) == Some(n)
    ensures HasData(g, v) <==> Full(n)
  {
    HasDataIffUnfolds(g, v);
    AcceptedUnfolds(g, v);
    StrictIffHoleFree(g, v, 0);
    HolesSurvive(Reading(g, v, 0), n);
  }

  /** What the printed form normalises to as data. */
  lemma PrintedNormalises(g: Graph, v: Value, n: HoledIr)
    requires Heap(g) && NormalizeGraph(g, v) == Some(n)
    ensures Embedded(NormalizeText(ToJson(Printed(n)))) ==
              if HasData(g, v) && Count(ToJson(Printed(n))) <= 100000 then Some(n) else None
  {
    HoleIsFull(g, v, n);
    if Full(n) {
      WholeIsFixed(g, v, n);
    } else {
      HoleRejected(n);
    }
  }

  /**
   * The normalised IR, printed with its members in any order, parsed and normalised again, is
   * the same IR exactly when no array of the input has a key at or beyond its length and the
   * nodes, defaults included, fit the budget; otherwise it is rejected.
   */
  lemma NormalisedIsFixed(g: Graph, v: Value, n: HoledIr, again: Graph, root: Value)
    requires Heap(g) && NormalizeGraph(g, v) == Some(n)
    requires Heap(again) && Parses(again, root, ToJson(Printed(n)))
    ensures NormalizeGraph(again, root) ==
              if HasData(g, v) && Count(ToJson(Printed(n))) <= 100000 then Some(n) else None
  {
    GraphsNormalizeAsData(again, root, ToJson(Printed(n)));
    PrintedNormalises(g, v, n);
  }

  // ----- the whole compiler -----

  /** A hole in a key is `undefined`, for which no column is found: the SQL emitter throws. */
  predicate KeysWhole(e: HoledEntity) {
    AllFull(e.uniqueKeys) && forall k | k in e.indexes && k.Some? :: FullKey(k.value)
  }

  /** What the emitters map over: holes are skipped. */
  function Skipping(e: HoledEntity): Entity {
    e.base.(uniqueKeys := Map(Present, e.uniqueKeys), indexes := Map(Present, Present(e.indexes)), foreignKeys := Present(e.foreignKeys))
  }

  /** The IR that `compileSchemaIr` prints, or `None` for diagnostics or an exception. */
  ghost function CompileGraph(digest: string -> string, g: Graph, v: Value): Option<HoledIr> {
    var n := NormalizeGraph(g, v);
    if n.Some? && (forall e | e in n.value.entities :: KeysWhole(e))
       && IrNames.NoCollision(digest, Ir(n.value.databaseSchema, Map(Skipping, n.value.entities))) then n else None
  }

  /** What the compiler prints compiles to itself under the same condition. */
  lemma CompiledIsFixed(digest: string -> string, g: Graph, v: Value, n: HoledIr, again: Graph, root: Value)
    requires Heap(g) && CompileGraph(digest, g, v) == Some(n)
    requires Heap(again) && Parses(again, root, ToJson(Printed(n)))
    ensures CompileGraph(digest, again, root) ==
              if HasData(g, v) && Count(ToJson(Printed(n))) <= 100000 then Some(n) else None
  {
    NormalisedIsFixed(g, v, n, again, root);
  }

  // ----- the text the compiler itself prints -----

  lemma NamesProper(names: seq<string>)
    ensures Proper(NamesTree(names))
  {
    ProperItems(TextTree, names);
  }

  lemma BoundProper(ps: seq<Pair>, known: set<string>, key: string, x: Option<int>)
    requires ProperPairs(ps) && KeySet(ps) <= known && key !in known
    ensures ProperPairs(ps + BoundPairs(key, x)) && KeySet(ps + BoundPairs(key, x)) <= known + {key}
  {
    NextPair(ps, known, key, Leaf(Num(if x.Some? then x.value as real else 0.0)), x.Some?);
  }

  lemma FieldBaseProper(f: IrField)
    ensures ProperPairs(FieldBasePairs(f)) && KeySet(FieldBasePairs(f)) <= FIELD_KEYS
  {
    var (a, b, c) := (P("name", TextTree(f.name)), P("column", TextTree(f.column)), P("type", TextTree(Shape.ScalarText(f.scalar))));
    var d := P("required", Leaf(Bool(f.required)));
    ThreeProper("name", "column", "type", TextTree(f.name), TextTree(f.column), TextTree(Shape.ScalarText(f.scalar)));
    NextPair(a + b + c, {"name", "column", "type"}, "required", Leaf(Bool(f.required)), true);
    NextPair(a + b + c + d, {"name", "column", "type", "required"}, "nullable", Leaf(Bool(f.nullable)), true);
  }

  lemma FieldProper(f: IrField)
    ensures Proper(FieldTree(f))
  {
    var ps := FieldBasePairs(f);
    var (a, b, c) := (BoundPairs("minLength", f.minLength), BoundPairs("maxLength", f.maxLength), BoundPairs("minimum", f.minimum));
    BoundKeysApart();
    FieldBaseProper(f);
    BoundProper(ps, FIELD_KEYS, "minLength", f.minLength);
    BoundProper(ps + a, FIELD_KEYS + {"minLength"}, "maxLength", f.maxLength);
    BoundProper(ps + a + b, FIELD_KEYS + {"minLength"} + {"maxLength"}, "minimum", f.minimum);
    BoundProper(ps + a + b + c, FIELD_KEYS + {"minLength"} + {"maxLength"} + {"minimum"}, "maximum", f.maximum);
    ProperObject(FieldPairs(f));
  }

  lemma ReferenceProper(k: IrForeign)
    ensures Proper(ObjectTree(ReferencePairs(k)))
  {
    NamesProper(k.targetFields);
    FirstPair("entity", TextTree(k.entity));
    NextPair(P("entity", TextTree(k.entity)), {"entity"}, "fields", NamesTree(k.targetFields), true);
    ProperObject(ReferencePairs(k));
  }

  lemma ForeignProper(k: IrForeign)
    ensures Proper(ForeignTree(true)(k))
  {
    NamesProper(k.fields);
    ReferenceProper(k);
    ThreeProper("fields", "references", "onDelete", NamesTree(k.fields), ObjectTree(ReferencePairs(k)), TextTree(IrActionText(k.onDelete)));
    ProperObject(ForeignPairs(k, true));
  }

  lemma HoledKeyProper(key: HoledKey)
    ensures Proper(HoledKeyTree(key))
  {
    ProperItems(NameTree, key);
  }

  lemma EntityBaseProper(e: Entity)
    ensures ProperPairs(EntityBase(e)) && KeySet(EntityBase(e)) <= ENTITY_KEYS
  {
    forall f | f in e.fields ensures Proper(FieldTree(f)) {
      FieldProper(f);
    }
    ProperItems(FieldTree, e.fields);
    NamesProper(e.primaryKey);
    var fields := Items(Map(FieldTree, e.fields));
    ThreeProper("name", "table", "fields", TextTree(e.name), TextTree(e.table), fields);
    NextPair(P("name", TextTree(e.name)) + P("table", TextTree(e.table)) + P("fields", fields), {"name", "table", "fields"},
             "primaryKey", NamesTree(e.primaryKey), true);
  }

  lemma ListsProper(e: HoledEntity)
    ensures Proper(Items(Map(HoledKeyTree, e.uniqueKeys))) && Proper(Items(Map(IndexTree, e.indexes)))
    ensures Proper(Items(Map(ForeignSlotTree, e.foreignKeys)))
  {
    forall k | k in e.uniqueKeys ensures Proper(HoledKeyTree(k)) {
      HoledKeyProper(k);
    }
    forall k | k in e.indexes ensures Proper(IndexTree(k)) {
      if k.Some? {
        HoledKeyProper(k.value);
      }
    }
    forall k | k in e.foreignKeys ensures Proper(ForeignSlotTree(k)) {
      if k.Some? {
        ForeignProper(k.value);
      }
    }
    ProperItems(HoledKeyTree, e.uniqueKeys);
    ProperItems(IndexTree, e.indexes);
    ProperItems(ForeignSlotTree, e.foreignKeys);
  }

  lemma PrintedEntityProper(e: HoledEntity)
    ensures Proper(PrintedEntity(e))
  {
    var (u, i, f) := (Items(Map(HoledKeyTree, e.uniqueKeys)), Items(Map(IndexTree, e.indexes)), Items(Map(ForeignSlotTree, e.foreignKeys)));
    var base := EntityBase(e.base);
    ListKeysApart();
    EntityBaseProper(e.base);
    ListsProper(e);
    NextPair(base, ENTITY_KEYS, "uniqueKeys", u, true);
    NextPair(base + ListPairs("uniqueKeys", u, true), ENTITY_KEYS + {"uniqueKeys"}, "indexes", i, true);
    NextPair(base + ListPairs("uniqueKeys", u, true) + ListPairs("indexes", i, true), ENTITY_KEYS + {"uniqueKeys"} + {"indexes"},
             "foreignKeys", f, true);
    ProperObject(base + ListPairs("uniqueKeys", u, true) + ListPairs("indexes", i, true) + ListPairs("foreignKeys", f, true));
  }

  lemma PrintedProper(n: HoledIr)
    ensures Proper(Printed(n))
  {
    forall e | e in n.entities ensures Proper(PrintedEntity(e)) {
      PrintedEntityProper(e);
    }
    ProperItems(PrintedEntity, n.entities);
    var entities := Items(Map(PrintedEntity, n.entities));
    ThreeProper("schemaVersion", "databaseSchema", "entities", TextTree(VERSION), TextTree(n.databaseSchema), entities);
    ProperObject(P("schemaVersion", TextTree(VERSION)) + P("databaseSchema", TextTree(n.databaseSchema)) + P("entities", entities));
  }

  /** The file `schema-ir.json`: the keys of every object sorted. */
  function SchemaFile(n: HoledIr): Tree { Sorted(Printed(n)) }

  /** Sorting changes no size. */
  lemma FileSize(n: HoledIr)
    ensures Size(SchemaFile(n)) == Size(Printed(n)) && ToJson(SchemaFile(n)) == ToJson(Printed(n))
  {
    PrintedProper(n);
    SortedKeeps(Printed(n));
    SizeIsCount(Printed(n));
    SizeIsCount(SchemaFile(n));
  }

  lemma FileParses(n: HoledIr, again: Graph, root: Value)
    requires Heap(again) && Unfold(again, root, 0, STRICT) == Some(SchemaFile(n))
    ensures Parses(again, root, ToJson(Printed(n))) && Size(SchemaFile(n)) == Count(ToJson(Printed(n)))
  {
    FileSize(n);
    PrintedProper(n);
    SizeIsCount(Printed(n));
    ParsesIffUnfolds(again, root, ToJson(Printed(n)));
  }

  /** The file the compiler prints compiles to the same file, or is rejected, under the same condition. */
  lemma OwnFileIsFixed(digest: string -> string, g: Graph, v: Value, n: HoledIr, again: Graph, root: Value)
    requires Heap(g) && CompileGraph(digest, g, v) == Some(n)
    requires Heap(again) && Unfold(again, root, 0, STRICT) == Some(SchemaFile(n))
    ensures CompileGraph(digest, again, root) ==
              if HasData(g, v) && Size(SchemaFile(n)) <= 100000 then Some(n) else None
  {
    FileParses(n, again, root);
    CompiledIsFixed(digest, g, v, n, again, root);
  }
}
