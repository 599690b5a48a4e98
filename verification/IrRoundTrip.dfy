/** The JSON text of an IR, read back; with its defaults written out it is reproduced as long as it fits the node budget. */
module IrRoundTrip {
  import opened Seqs
  import opened Json
  import opened Document
  import opened Snapshot
  import opened SchemaIr
  import IrCanonical
  import Shape

  // ----- the front end on unfolded data -----

  function Max(a: nat, b: nat): nat { if a < b then b else a }

  function Height(t: Tree): nat {
    match t
    case Leaf(_) => 0
    case Items(items) => Above(items)
    case Members(_, values) => Above(values)
  }

  /** The height of a node with these children. */
  function Above(ts: seq<Tree>): nat
    decreases ts, 1
  {
    if ts == [] then 0 else 1 + HeightAll(ts)
  }

  function HeightAll(ts: seq<Tree>): nat
    decreases ts, 0
  {
    if ts == [] then 0 else Max(HeightAll(ts[..|ts| - 1]), Height(ts[|ts| - 1]))
  }

  /** The length of the longest array. */
  function Width(t: Tree): nat {
    match t
    case Leaf(_) => 0
    case Items(items) => Max(|items|, WidthAll(items))
    case Members(_, values) => WidthAll(values)
  }

  function WidthAll(ts: seq<Tree>): nat {
    if ts == [] then 0 else Max(WidthAll(ts[..|ts| - 1]), Width(ts[|ts| - 1]))
  }

  /** Within the depth and array limits of the walk. */
  predicate Bounded(t: Tree, depth: nat, limits: Limits) {
    depth + Height(t) <= limits.depth && Width(t) <= limits.entries
  }

  ghost function NormalizeTree(t: Tree): Option<Ir> {
    if Bounded(t, 0, IR) && Size(t) <= IR_NODES then Normalize(ToJson(t)) else None
  }

  lemma {:induction false} UnfoldIsBounded(g: Graph, v: Value, depth: nat, limits: Limits)
    requires Unfold(g, v, depth, limits).Some?
    ensures Bounded(Unfold(g, v, depth, limits).value, depth, limits)
    decreases limits.depth + 1 - depth, 1
  {
    if v.At? {
      AllBounded(g, Map(ValueOf, g[v.ref].properties), depth, limits);
    }
  }

  lemma {:induction false} AllBounded(g: Graph, vs: seq<Value>, depth: nat, limits: Limits)
    requires depth <= limits.depth && UnfoldAll(g, vs, depth, limits).Some?
    ensures var ts := UnfoldAll(g, vs, depth, limits).value;
            |ts| == |vs| && depth + Above(ts) <= limits.depth && WidthAll(ts) <= limits.entries
    decreases limits.depth + 1 - depth, 0, |vs|
  {
    if vs != [] {
      AllBounded(g, vs[..|vs| - 1], depth, limits);
      UnfoldIsBounded(g, vs[|vs| - 1], depth + 1, limits);
    }
  }

  // ----- objects, member by member -----

  type Pair = (string, Tree)

  function KeyOfPair(p: Pair): string { p.0 }
  function TreeOfPair(p: Pair): Tree { p.1 }

  function ObjectTree(ps: seq<Pair>): Tree { Members(Map(KeyOfPair, ps), Map(TreeOfPair, ps)) }

  function JsonOf(ps: seq<Pair>): map<string, Json> {
    if ps == [] then map[] else JsonOf(ps[..|ps| - 1])[ps[|ps| - 1].0 := ToJson(ps[|ps| - 1].1)]
  }

  lemma {:induction false} ObjectIs(ps: seq<Pair>)
    ensures Object(Map(KeyOfPair, ps), ToJsonAll(Map(TreeOfPair, ps))) == JsonOf(ps)
  {
    if ps != [] {
      var (rest, last) := (ps[..|ps| - 1], ps[|ps| - 1]);
      ObjectIs(rest);
      assert ps == rest + [last];
      MapAppend(KeyOfPair, rest, [last]);
      MapAppend(TreeOfPair, rest, [last]);
      ObjectSnoc(Map(KeyOfPair, rest), last.0, Map(TreeOfPair, rest), last.1);
    }
  }

  lemma ObjectSnoc(keys: seq<string>, key: string, ts: seq<Tree>, t: Tree)
    requires |keys| == |ts|
    ensures Object(keys + [key], ToJsonAll(ts + [t])) == Object(keys, ToJsonAll(ts))[key := ToJson(t)]
  {
    assert (ts + [t])[..|ts|] == ts && (keys + [key])[..|keys|] == keys;
    assert ToJsonAll(ts + [t])[..|ts|] == ToJsonAll(ts);
  }

  lemma ObjectJson(ps: seq<Pair>)
    ensures ToJson(ObjectTree(ps)) == Obj(JsonOf(ps))
  {
    ObjectIs(ps);
  }

  function P(key: string, t: Tree): seq<Pair> { [(key, t)] }

  lemma PIs(key: string, t: Tree)
    ensures JsonOf(P(key, t)) == map[key := ToJson(t)]
  {
    assert P(key, t)[..0] == [];
  }

  lemma {:induction false} JsonOfPlus(a: seq<Pair>, b: seq<Pair>)
    ensures JsonOf(a + b) == JsonOf(a) + JsonOf(b)
  {
    if b == [] {
      assert a + b == a;
    } else {
      var n := |b| - 1;
      JsonOfPlus(a, b[..n]);
      assert (a + b)[..|a| + n] == a + b[..n];
    }
  }

  // ----- the tree of a normalised IR -----

  function TextTree(s: string): Tree { Leaf(Str(s)) }
  function NamesTree(names: seq<string>): Tree { Items(Map(TextTree, names)) }
  function KeysTree(keys: seq<seq<string>>): Tree { Items(Map(NamesTree, keys)) }

  function BoundPairs(key: string, x: Option<int>): seq<Pair> {
    if x.Some? then P(key, Leaf(Num(x.value as real))) else []
  }

  function FieldBasePairs(f: IrField): seq<Pair> {
    P("name", TextTree(f.name)) + P("column", TextTree(f.column)) + P("type", TextTree(Shape.ScalarText(f.scalar))) +
    P("required", Leaf(Bool(f.required))) + P("nullable", Leaf(Bool(f.nullable)))
  }

  function FieldPairs(f: IrField): seq<Pair> {
    FieldBasePairs(f) +
    BoundPairs("minLength", f.minLength) + BoundPairs("maxLength", f.maxLength) +
    BoundPairs("minimum", f.minimum) + BoundPairs("maximum", f.maximum)
  }

  function FieldTree(f: IrField): Tree { ObjectTree(FieldPairs(f)) }

  function ReferencePairs(k: IrForeign): seq<Pair> {
    P("entity", TextTree(k.entity)) + P("fields", NamesTree(k.targetFields))
  }

  /** With `full`, defaults are written out, as normalisation does. */
  function ForeignPairs(k: IrForeign, full: bool): seq<Pair> {
    P("fields", NamesTree(k.fields)) + P("references", ObjectTree(ReferencePairs(k))) +
    ListPairs("onDelete", TextTree(IrActionText(k.onDelete)), full || k.onDelete != NoAction)
  }

  function ForeignTree(full: bool): IrForeign -> Tree { k => ObjectTree(ForeignPairs(k, full)) }

  function ListPairs(key: string, t: Tree, present: bool): seq<Pair> { if present then P(key, t) else [] }

  function EntityBase(e: Entity): seq<Pair> {
    P("name", TextTree(e.name)) + P("table", TextTree(e.table)) + P("fields", Items(Map(FieldTree, e.fields))) +
    P("primaryKey", NamesTree(e.primaryKey))
  }

  function EntityPairs(e: Entity, full: bool): seq<Pair> {
    EntityBase(e) +
    ListPairs("uniqueKeys", KeysTree(e.uniqueKeys), full || e.uniqueKeys != []) +
    ListPairs("indexes", KeysTree(e.indexes), full || e.indexes != []) +
    ListPairs("foreignKeys", Items(Map(ForeignTree(full), e.foreignKeys)), full || e.foreignKeys != [])
  }

  function EntityTree(full: bool): Entity -> Tree { e => ObjectTree(EntityPairs(e, full)) }

  function IrPairs(ir: Ir, full: bool): seq<Pair> {
    P("schemaVersion", TextTree(VERSION)) + P("databaseSchema", TextTree(ir.databaseSchema)) +
    P("entities", Items(Map(EntityTree(full), ir.entities)))
  }

  function IrTree(ir: Ir, full: bool): Tree { ObjectTree(IrPairs(ir, full)) }

  // ----- reading the tree back -----

  lemma NamesRead(names: seq<string>)
    ensures IsStrings(ToJson(NamesTree(names))) && Shape.DecodeNames(ToJson(NamesTree(names))) == names
  {
    ToJsonEach(Map(TextTree, names));
    assert Map(Shape.TextOf, ToJsonAll(Map(TextTree, names))) == names;
  }

  lemma ItemsRead<T>(write: T -> Tree, read: Json -> T, shape: Json -> bool, xs: seq<T>)
    requires forall x | x in xs :: shape(ToJson(write(x))) && read(ToJson(write(x))) == x
    ensures var j := ToJson(Items(Map(write, xs)));
            j.Arr? && (forall x | x in j.items :: shape(x)) && Map(read, j.items) == xs
  {
    var items := ToJsonAll(Map(write, xs));
    ToJsonEach(Map(write, xs));
    forall i | 0 <= i < |xs| ensures shape(items[i]) && read(items[i]) == xs[i] {
      assert xs[i] in xs;
    }
    assert Map(read, items) == xs;
  }

  lemma KeysRead(keys: seq<seq<string>>)
    ensures IsStringsList(ToJson(KeysTree(keys)))
    ensures Map(Shape.DecodeNames, Shape.ItemsOf(ToJson(KeysTree(keys)))) == keys
  {
    forall k | k in keys ensures IsStrings(ToJson(NamesTree(k))) && Shape.DecodeNames(ToJson(NamesTree(k))) == k {
      NamesRead(k);
    }
    ItemsRead(NamesTree, Shape.DecodeNames, IsStrings, keys);
  }

  function ListJson(key: string, j: Json, present: bool): map<string, Json> { if present then map[key := j] else map[] }

  /** An optional member changes nothing but its own key. */
  lemma Added(m: map<string, Json>, key: string, j: Json, present: bool)
    requires key !in m
    ensures var n := m + ListJson(key, j, present);
            && n.Keys == m.Keys + (if present then {key} else {})
            && (forall k | k in m :: n[k] == m[k])
            && (present ==> n[key] == j)
  {
  }

  function BoundJson(key: string, x: Option<int>): map<string, Json> {
    ListJson(key, Num(if x.Some? then x.value as real else 0.0), x.Some?)
  }

  lemma BoundIs(key: string, x: Option<int>)
    ensures JsonOf(BoundPairs(key, x)) == BoundJson(key, x)
  {
    if x.Some? {
      PIs(key, Leaf(Num(x.value as real)));
    }
  }

  function FieldBase(f: IrField): map<string, Json> {
    map["name" := Str(f.name), "column" := Str(f.column), "type" := Str(Shape.ScalarText(f.scalar)),
        "required" := Bool(f.required), "nullable" := Bool(f.nullable)]
  }

  lemma FieldBaseIs(f: IrField)
    ensures JsonOf(FieldBasePairs(f)) == FieldBase(f)
  {
    var (a, b, c) := (P("name", TextTree(f.name)), P("column", TextTree(f.column)), P("type", TextTree(Shape.ScalarText(f.scalar))));
    var (d, e) := (P("required", Leaf(Bool(f.required))), P("nullable", Leaf(Bool(f.nullable))));
    JsonOfPlus(a, b);
    JsonOfPlus(a + b, c);
    JsonOfPlus(a + b + c, d);
    JsonOfPlus(a + b + c + d, e);
    PIs("name", TextTree(f.name));
    PIs("column", TextTree(f.column));
    PIs("type", TextTree(Shape.ScalarText(f.scalar)));
    PIs("required", Leaf(Bool(f.required)));
    PIs("nullable", Leaf(Bool(f.nullable)));
  }

  lemma FieldJson(f: IrField)
    ensures ToJson(FieldTree(f)) ==
              Obj(FieldBase(f) + BoundJson("minLength", f.minLength) + BoundJson("maxLength", f.maxLength) +
                  BoundJson("minimum", f.minimum) + BoundJson("maximum", f.maximum))
  {
    ObjectJson(FieldPairs(f));
    FieldBaseIs(f);
    var base := FieldBasePairs(f);
    var (a, b, c, d) := (BoundPairs("minLength", f.minLength), BoundPairs("maxLength", f.maxLength),
                         BoundPairs("minimum", f.minimum), BoundPairs("maximum", f.maximum));
    JsonOfPlus(base, a);
    JsonOfPlus(base + a, b);
    JsonOfPlus(base + a + b, c);
    JsonOfPlus(base + a + b + c, d);
    BoundIs("minLength", f.minLength);
    BoundIs("maxLength", f.maxLength);
    BoundIs("minimum", f.minimum);
    BoundIs("maximum", f.maximum);
  }

  /** A member is there exactly when its bound is. */
  predicate BoundAt(n: map<string, Json>, key: string, x: Option<int>) {
    if x.Some? then key in n && n[key] == Num(x.value as real) else key !in n
  }

  lemma FourAdded(m0: map<string, Json>, k1: string, k2: string, k3: string, k4: string,
    a: Option<int>, b: Option<int>, c: Option<int>, d: Option<int>)
    requires k1 !in m0 && k2 !in m0 && k3 !in m0 && k4 !in m0
    requires k1 != k2 && k1 != k3 && k1 != k4 && k2 != k3 && k2 != k4 && k3 != k4
    ensures var n := m0 + BoundJson(k1, a) + BoundJson(k2, b) + BoundJson(k3, c) + BoundJson(k4, d);
            && m0.Keys <= n.Keys <= m0.Keys + {k1, k2, k3, k4}
            && (forall k | k in m0 :: n[k] == m0[k])
            && BoundAt(n, k1, a) && BoundAt(n, k2, b) && BoundAt(n, k3, c) && BoundAt(n, k4, d)
  {
    var m1 := m0 + BoundJson(k1, a);
    var m2 := m1 + BoundJson(k2, b);
    var m3 := m2 + BoundJson(k3, c);
    Bounds(m0, k1, a);
    Bounds(m1, k2, b);
    Bounds(m2, k3, c);
    Bounds(m3, k4, d);
  }

  lemma BoundKeysApart()
    ensures "minLength" != "maxLength" && "minLength" != "minimum" && "minLength" != "maximum"
    ensures "maxLength" != "minimum" && "maxLength" != "maximum" && "minimum" != "maximum"
    ensures forall k | k in BOUND_KEYS :: k !in FIELD_KEYS
    ensures BOUND_KEYS == {"minLength", "maxLength", "minimum", "maximum"}
  {
  }

  lemma FourBounds(m0: map<string, Json>, a: Option<int>, b: Option<int>, c: Option<int>, d: Option<int>)
    requires m0.Keys == FIELD_KEYS
    ensures var j := Obj(m0 + BoundJson("minLength", a) + BoundJson("maxLength", b) + BoundJson("minimum", c) + BoundJson("maximum", d));
            && IsRecord(j, FIELD_KEYS, BOUND_KEYS)
            && (forall k | k in m0 :: j.members[k] == m0[k])
            && ReadBound(j, "minLength") == a && IntegerIfPresent(j, "minLength")
            && ReadBound(j, "maxLength") == b && IntegerIfPresent(j, "maxLength")
            && ReadBound(j, "minimum") == c && IntegerIfPresent(j, "minimum")
            && ReadBound(j, "maximum") == d && IntegerIfPresent(j, "maximum")
  {
    BoundKeysApart();
    FourAdded(m0, "minLength", "maxLength", "minimum", "maximum", a, b, c, d);
    var n := m0 + BoundJson("minLength", a) + BoundJson("maxLength", b) + BoundJson("minimum", c) + BoundJson("maximum", d);
    BoundRead(Obj(n), "minLength", a);
    BoundRead(Obj(n), "maxLength", b);
    BoundRead(Obj(n), "minimum", c);
    BoundRead(Obj(n), "maximum", d);
  }

  lemma Bounds(m: map<string, Json>, key: string, x: Option<int>)
    requires key !in m
    ensures var n := m + BoundJson(key, x);
            && n.Keys == m.Keys + (if x.Some? then {key} else {})
            && (forall k | k in m :: n[k] == m[k])
            && (x.Some? ==> n[key] == Num(x.value as real))
  {
    Added(m, key, Num(if x.Some? then x.value as real else 0.0), x.Some?);
  }

  lemma FieldRead(f: IrField)
    ensures FieldShape(ToJson(FieldTree(f))) && ReadField(ToJson(FieldTree(f))) == f
  {
    FieldJson(f);
    FourBounds(FieldBase(f), f.minLength, f.maxLength, f.minimum, f.maximum);
    BaseRead(ToJson(FieldTree(f)), f);
  }

  lemma BaseRead(j: Json, f: IrField)
    requires j.Obj? && FIELD_KEYS <= j.members.Keys && forall k | k in FieldBase(f) :: j.members[k] == FieldBase(f)[k]
    ensures Shape.Get(j, "name") == Str(f.name) && Shape.Get(j, "column") == Str(f.column)
    ensures Shape.Get(j, "required") == Bool(f.required) && Shape.Get(j, "nullable") == Bool(f.nullable)
    ensures Shape.ScalarOf(Shape.Get(j, "type")) == Some(f.scalar)
  {
    var base := FieldBase(f);
    assert Shape.Get(j, "name") == base["name"] && Shape.Get(j, "column") == base["column"];
    assert Shape.Get(j, "required") == base["required"] && Shape.Get(j, "nullable") == base["nullable"];
    assert Shape.Get(j, "type") == base["type"];
  }

  lemma BoundRead(j: Json, key: string, x: Option<int>)
    requires j.Obj? && BoundAt(j.members, key, x)
    ensures IntegerIfPresent(j, key) && ReadBound(j, key) == x
  {
  }

  lemma ReferenceRead(k: IrForeign)
    ensures var j := ToJson(ObjectTree(ReferencePairs(k)));
            && IsRecord(j, REFERENCE_KEYS, {}) && Shape.Get(j, "entity") == Str(k.entity)
            && Shape.Get(j, "fields") == ToJson(NamesTree(k.targetFields))
  {
    ObjectJson(ReferencePairs(k));
    JsonOfPlus(P("entity", TextTree(k.entity)), P("fields", NamesTree(k.targetFields)));
    PIs("entity", TextTree(k.entity));
    PIs("fields", NamesTree(k.targetFields));
  }

  predicate ActionWritten(k: IrForeign, full: bool) { full || k.onDelete != NoAction }

  lemma ForeignJson(k: IrForeign, full: bool)
    ensures ToJson(ForeignTree(full)(k)) ==
              Obj(map["fields" := ToJson(NamesTree(k.fields)), "references" := ToJson(ObjectTree(ReferencePairs(k)))] +
                  ListJson("onDelete", Str(IrActionText(k.onDelete)), ActionWritten(k, full)))
  {
    ObjectJson(ForeignPairs(k, full));
    var (a, b) := (P("fields", NamesTree(k.fields)), P("references", ObjectTree(ReferencePairs(k))));
    var c := ListPairs("onDelete", TextTree(IrActionText(k.onDelete)), ActionWritten(k, full));
    JsonOfPlus(a, b);
    JsonOfPlus(a + b, c);
    PIs("fields", NamesTree(k.fields));
    PIs("references", ObjectTree(ReferencePairs(k)));
    ListIs("onDelete", TextTree(IrActionText(k.onDelete)), ActionWritten(k, full));
  }

  lemma ForeignMembers(f: Json, r: Json, a: Json, written: bool)
    ensures var j := Obj(map["fields" := f, "references" := r] + ListJson("onDelete", a, written));
            && IsRecord(j, FOREIGN_KEYS, {"onDelete"})
            && Shape.Get(j, "fields") == f && Shape.Get(j, "references") == r
            && Shape.Has(j, "onDelete") == written && Shape.Get(j, "onDelete") == if written then a else Null
  {
  }

  lemma ActionRead(a: IrAction)
    ensures ActionOf(Str(IrActionText(a))) == Some(a) && ActionOf(Null) == None
  {
  }

  lemma ForeignRead(k: IrForeign, full: bool)
    ensures ForeignShape(ToJson(ForeignTree(full)(k))) && ReadForeign(ToJson(ForeignTree(full)(k))) == k
  {
    ForeignJson(k, full);
    ForeignMembers(ToJson(NamesTree(k.fields)), ToJson(ObjectTree(ReferencePairs(k))), Str(IrActionText(k.onDelete)), ActionWritten(k, full));
    ActionRead(k.onDelete);
    ReferenceRead(k);
    NamesRead(k.fields);
    NamesRead(k.targetFields);
  }

  lemma FieldsRead(fields: seq<IrField>)
    ensures var j := ToJson(Items(Map(FieldTree, fields)));
            j.Arr? && (forall x | x in j.items :: FieldShape(x)) && Map(ReadField, j.items) == fields
  {
    forall x | x in fields ensures FieldShape(ToJson(FieldTree(x))) && ReadField(ToJson(FieldTree(x))) == x {
      FieldRead(x);
    }
    ItemsRead(FieldTree, ReadField, FieldShape, fields);
  }

  lemma ForeignsRead(keys: seq<IrForeign>, full: bool)
    ensures var j := ToJson(Items(Map(ForeignTree(full), keys)));
            j.Arr? && (forall x | x in j.items :: ForeignShape(x)) && Map(ReadForeign, j.items) == keys
  {
    forall x | x in keys ensures ForeignShape(ToJson(ForeignTree(full)(x))) && ReadForeign(ToJson(ForeignTree(full)(x))) == x {
      ForeignRead(x, full);
    }
    ItemsRead(ForeignTree(full), ReadForeign, ForeignShape, keys);
  }

  lemma ListIs(key: string, t: Tree, present: bool)
    ensures JsonOf(ListPairs(key, t, present)) == ListJson(key, ToJson(t), present)
  {
    PIs(key, t);
  }

  lemma EntityBaseIs(e: Entity)
    ensures JsonOf(EntityBase(e)) ==
              map["name" := Str(e.name), "table" := Str(e.table), "fields" := ToJson(Items(Map(FieldTree, e.fields))),
                  "primaryKey" := ToJson(NamesTree(e.primaryKey))]
  {
    var (a, b) := (P("name", TextTree(e.name)), P("table", TextTree(e.table)));
    var (c, d) := (P("fields", Items(Map(FieldTree, e.fields))), P("primaryKey", NamesTree(e.primaryKey)));
    JsonOfPlus(a, b);
    JsonOfPlus(a + b, c);
    JsonOfPlus(a + b + c, d);
    PIs("name", TextTree(e.name));
    PIs("table", TextTree(e.table));
    PIs("fields", Items(Map(FieldTree, e.fields)));
    PIs("primaryKey", NamesTree(e.primaryKey));
  }

  lemma EntityJson(e: Entity, full: bool)
    ensures ToJson(EntityTree(full)(e)) ==
              Obj(JsonOf(EntityBase(e)) +
                  ListJson("uniqueKeys", ToJson(KeysTree(e.uniqueKeys)), full || e.uniqueKeys != []) +
                  ListJson("indexes", ToJson(KeysTree(e.indexes)), full || e.indexes != []) +
                  ListJson("foreignKeys", ToJson(Items(Map(ForeignTree(full), e.foreignKeys))), full || e.foreignKeys != []))
  {
    WithLists(EntityBase(e), KeysTree(e.uniqueKeys), KeysTree(e.indexes), Items(Map(ForeignTree(full), e.foreignKeys)),
               full || e.uniqueKeys != [], full || e.indexes != [], full || e.foreignKeys != []);
  }

  lemma WithLists(base: seq<Pair>, u: Tree, i: Tree, f: Tree, hasU: bool, hasI: bool, hasF: bool)
    ensures ToJson(ObjectTree(
              base + ListPairs("uniqueKeys", u, hasU) + ListPairs("indexes", i, hasI) + ListPairs("foreignKeys", f, hasF))) ==
              Obj(JsonOf(base) + ListJson("uniqueKeys", ToJson(u), hasU) + ListJson("indexes", ToJson(i), hasI) +
                  ListJson("foreignKeys", ToJson(f), hasF))
  {
    ObjectJson(base + ListPairs("uniqueKeys", u, hasU) + ListPairs("indexes", i, hasI) + ListPairs("foreignKeys", f, hasF));
    ThreeLists(base, u, i, f, hasU, hasI, hasF);
  }

  lemma ThreeLists(base: seq<Pair>, u: Tree, i: Tree, f: Tree, hasU: bool, hasI: bool, hasF: bool)
    ensures JsonOf(base + ListPairs("uniqueKeys", u, hasU) + ListPairs("indexes", i, hasI) + ListPairs("foreignKeys", f, hasF)) ==
              JsonOf(base) + ListJson("uniqueKeys", ToJson(u), hasU) + ListJson("indexes", ToJson(i), hasI) +
              ListJson("foreignKeys", ToJson(f), hasF)
  {
    var (a, b, c) := (ListPairs("uniqueKeys", u, hasU), ListPairs("indexes", i, hasI), ListPairs("foreignKeys", f, hasF));
    JsonOfPlus(base, a);
    JsonOfPlus(base + a, b);
    JsonOfPlus(base + a + b, c);
    ListIs("uniqueKeys", u, hasU);
    ListIs("indexes", i, hasI);
    ListIs("foreignKeys", f, hasF);
  }

  lemma BaseMembers(a: Json, b: Json, c: Json, d: Json)
    ensures var m := map["name" := a, "table" := b, "fields" := c, "primaryKey" := d];
            m.Keys == ENTITY_KEYS && m["name"] == a && m["table"] == b && m["fields"] == c && m["primaryKey"] == d
  {
  }

  lemma ListKeysApart()
    ensures "uniqueKeys" !in ENTITY_KEYS && "indexes" !in ENTITY_KEYS && "foreignKeys" !in ENTITY_KEYS
    ensures "uniqueKeys" != "indexes" && "uniqueKeys" != "foreignKeys" && "indexes" != "foreignKeys"
  {
  }

  /** Three optional members on top of any record. */
  lemma WithThree(m0: map<string, Json>, u: Json, i: Json, f: Json, hasU: bool, hasI: bool, hasF: bool)
    requires m0.Keys == ENTITY_KEYS
    ensures var j := Obj(m0 + ListJson("uniqueKeys", u, hasU) + ListJson("indexes", i, hasI) + ListJson("foreignKeys", f, hasF));
            && IsRecord(j, ENTITY_KEYS, LIST_KEYS)
            && (forall k | k in m0 :: Shape.Get(j, k) == m0[k])
            && ListOr(j, "uniqueKeys") == (if hasU then u else Arr([])) && ListOr(j, "indexes") == (if hasI then i else Arr([]))
            && ListOr(j, "foreignKeys") == (if hasF then f else Arr([]))
  {
    ListKeysApart();
    var m1 := m0 + ListJson("uniqueKeys", u, hasU);
    var m2 := m1 + ListJson("indexes", i, hasI);
    Added(m0, "uniqueKeys", u, hasU);
    Added(m1, "indexes", i, hasI);
    Added(m2, "foreignKeys", f, hasF);
  }

  /** The members of an entity, whether or not its empty lists are written out. */
  lemma EntityMembers(a: Json, b: Json, c: Json, d: Json, u: Json, i: Json, f: Json, hasU: bool, hasI: bool, hasF: bool)
    ensures var j := Obj(map["name" := a, "table" := b, "fields" := c, "primaryKey" := d] +
                         ListJson("uniqueKeys", u, hasU) + ListJson("indexes", i, hasI) + ListJson("foreignKeys", f, hasF));
            && IsRecord(j, ENTITY_KEYS, LIST_KEYS)
            && Shape.Get(j, "name") == a && Shape.Get(j, "table") == b && Shape.Get(j, "fields") == c && Shape.Get(j, "primaryKey") == d
            && ListOr(j, "uniqueKeys") == (if hasU then u else Arr([])) && ListOr(j, "indexes") == (if hasI then i else Arr([]))
            && ListOr(j, "foreignKeys") == (if hasF then f else Arr([]))
  {
    BaseMembers(a, b, c, d);
    WithThree(map["name" := a, "table" := b, "fields" := c, "primaryKey" := d], u, i, f, hasU, hasI, hasF);
  }

  lemma EntityRead(e: Entity, full: bool)
    ensures EntityShape(ToJson(EntityTree(full)(e))) && ReadEntity(ToJson(EntityTree(full)(e))) == e
  {
    EntityJson(e, full);
    EntityBaseIs(e);
    EntityMembers(Str(e.name), Str(e.table), ToJson(Items(Map(FieldTree, e.fields))), ToJson(NamesTree(e.primaryKey)),
                  ToJson(KeysTree(e.uniqueKeys)), ToJson(KeysTree(e.indexes)), ToJson(Items(Map(ForeignTree(full), e.foreignKeys))),
                  full || e.uniqueKeys != [], full || e.indexes != [], full || e.foreignKeys != []);
    FieldsRead(e.fields);
    NamesRead(e.primaryKey);
    KeysRead(e.uniqueKeys);
    KeysRead(e.indexes);
    ForeignsRead(e.foreignKeys, full);
  }

  lemma EntitiesRead(entities: seq<Entity>, full: bool)
    ensures var j := ToJson(Items(Map(EntityTree(full), entities)));
            j.Arr? && (forall x | x in j.items :: EntityShape(x)) && Map(ReadEntity, j.items) == entities
  {
    forall x | x in entities ensures EntityShape(ToJson(EntityTree(full)(x))) && ReadEntity(ToJson(EntityTree(full)(x))) == x {
      EntityRead(x, full);
    }
    ItemsRead(EntityTree(full), ReadEntity, EntityShape, entities);
  }

  lemma IrMembers(ir: Ir, full: bool)
    ensures ToJson(IrTree(ir, full)) ==
              Obj(map["schemaVersion" := Str(VERSION), "databaseSchema" := Str(ir.databaseSchema),
                      "entities" := ToJson(Items(Map(EntityTree(full), ir.entities)))])
  {
    ObjectJson(IrPairs(ir, full));
    ThreeMembers(TextTree(VERSION), TextTree(ir.databaseSchema), Items(Map(EntityTree(full), ir.entities)));
  }

  lemma ThreeMembers(x: Tree, y: Tree, z: Tree)
    ensures JsonOf(P("schemaVersion", x) + P("databaseSchema", y) + P("entities", z)) ==
              map["schemaVersion" := ToJson(x), "databaseSchema" := ToJson(y), "entities" := ToJson(z)]
  {
    JsonOfPlus(P("schemaVersion", x), P("databaseSchema", y));
    JsonOfPlus(P("schemaVersion", x) + P("databaseSchema", y), P("entities", z));
    PIs("schemaVersion", x);
    PIs("databaseSchema", y);
    PIs("entities", z);
  }

  lemma IrRecord(a: Json, b: Json, c: Json)
    ensures var j := Obj(map["schemaVersion" := a, "databaseSchema" := b, "entities" := c]);
            && IsRecord(j, IR_KEYS, {}) && Shape.Get(j, "schemaVersion") == a
            && Shape.Get(j, "databaseSchema") == b && Shape.Get(j, "entities") == c
  {
  }

  /** An IR is read back from its tree, with or without its defaults written out. */
  lemma IrRead(ir: Ir, full: bool)
    ensures IrShape(ToJson(IrTree(ir, full))) && ReadIr(ToJson(IrTree(ir, full))) == ir
  {
    IrMembers(ir, full);
    IrRecord(Str(VERSION), Str(ir.databaseSchema), ToJson(Items(Map(EntityTree(full), ir.entities))));
    EntitiesRead(ir.entities, full);
  }

  // ----- the tree of a valid IR stays within the depth and array limits -----

  predicate Within(t: Tree, height: nat, width: nat) {
    Height(t) <= height && Width(t) <= width
  }

  /** Every member is within these limits. */
  predicate AllWithin(ts: seq<Tree>, height: nat, width: nat) {
    HeightAll(ts) <= height && WidthAll(ts) <= width
  }

  lemma {:induction false} MapWithin<T>(write: T -> Tree, xs: seq<T>, height: nat, width: nat)
    requires forall x | x in xs :: Within(write(x), height, width)
    ensures AllWithin(Map(write, xs), height, width)
  {
    if xs != [] {
      var n := |xs| - 1;
      MapWithin(write, xs[..n], height, width);
      assert Map(write, xs)[..n] == Map(write, xs[..n]);
      assert xs[n] in xs;
    }
  }

  lemma ItemsWithin<T>(write: T -> Tree, xs: seq<T>, height: nat, width: nat)
    requires |xs| <= width && forall x | x in xs :: Within(write(x), height, width)
    ensures Within(Items(Map(write, xs)), height + 1, width)
  {
    MapWithin(write, xs, height, width);
  }

  predicate PairsWithin(ps: seq<Pair>, height: nat, width: nat) {
    AllWithin(Map(TreeOfPair, ps), height, width)
  }

  lemma ObjectWithin(ps: seq<Pair>, height: nat, width: nat)
    requires PairsWithin(ps, height, width)
    ensures Within(ObjectTree(ps), height + 1, width)
  {
  }

  lemma {:induction false} AllWithinPlus(a: seq<Tree>, b: seq<Tree>, height: nat, width: nat)
    requires AllWithin(a, height, width) && AllWithin(b, height, width)
    ensures AllWithin(a + b, height, width)
  {
    if b == [] {
      assert a + b == a;
    } else {
      AllWithinPlus(a, b[..|b| - 1], height, width);
      assert (a + b)[..|a| + |b| - 1] == a + b[..|b| - 1];
    }
  }

  lemma PairsWithinPlus(a: seq<Pair>, b: seq<Pair>, height: nat, width: nat)
    requires PairsWithin(a, height, width) && PairsWithin(b, height, width)
    ensures PairsWithin(a + b, height, width)
  {
    MapAppend(TreeOfPair, a, b);
    AllWithinPlus(Map(TreeOfPair, a), Map(TreeOfPair, b), height, width);
  }

  lemma PWithin(key: string, t: Tree, height: nat, width: nat)
    requires Within(t, height, width)
    ensures PairsWithin(P(key, t), height, width)
  {
    assert Map(TreeOfPair, P(key, t)) == [t];
    assert [t][..0] == [];
  }

  lemma NamesWithin(names: seq<string>, width: nat)
    requires |names| <= width
    ensures Within(NamesTree(names), 1, width)
  {
    ItemsWithin(TextTree, names, 0, width);
  }

  lemma KeysWithin(keys: seq<seq<string>>, width: nat)
    requires |keys| <= width && forall k | k in keys :: |k| <= width
    ensures Within(KeysTree(keys), 2, width)
  {
    forall k | k in keys ensures Within(NamesTree(k), 1, width) {
      NamesWithin(k, width);
    }
    ItemsWithin(NamesTree, keys, 1, width);
  }

  lemma LeavesWithin(ps: seq<Pair>)
    requires forall p | p in ps :: p.1.Leaf?
    ensures PairsWithin(ps, 0, 0)
  {
    forall p | p in ps ensures Within(TreeOfPair(p), 0, 0) {}
    MapWithin(TreeOfPair, ps, 0, 0);
  }

  lemma FieldWithin(f: IrField)
    ensures Within(FieldTree(f), 1, 0)
  {
    LeavesWithin(FieldPairs(f));
    ObjectWithin(FieldPairs(f), 0, 0);
  }

  lemma ReferenceWithin(k: IrForeign)
    requires |k.targetFields| <= 16
    ensures Within(ObjectTree(ReferencePairs(k)), 2, 16)
  {
    NamesWithin(k.targetFields, 16);
    PWithin("entity", TextTree(k.entity), 1, 16);
    PWithin("fields", NamesTree(k.targetFields), 1, 16);
    PairsWithinPlus(P("entity", TextTree(k.entity)), P("fields", NamesTree(k.targetFields)), 1, 16);
    ObjectWithin(ReferencePairs(k), 1, 16);
  }

  lemma ForeignWithin(k: IrForeign, full: bool)
    requires |k.fields| <= 16 && |k.targetFields| <= 16
    ensures Within(ForeignTree(full)(k), 3, 16)
  {
    var (a, b) := (P("fields", NamesTree(k.fields)), P("references", ObjectTree(ReferencePairs(k))));
    var c := ListPairs("onDelete", TextTree(IrActionText(k.onDelete)), full || k.onDelete != NoAction);
    NamesWithin(k.fields, 16);
    ReferenceWithin(k);
    PWithin("fields", NamesTree(k.fields), 2, 16);
    PWithin("references", ObjectTree(ReferencePairs(k)), 2, 16);
    ListWithin("onDelete", TextTree(IrActionText(k.onDelete)), full || k.onDelete != NoAction, 2, 16);
    PairsWithinPlus(a, b, 2, 16);
    PairsWithinPlus(a + b, c, 2, 16);
    ObjectWithin(ForeignPairs(k, full), 2, 16);
  }

  /** Short lists of short keys: all the limits of the walk need. */
  predicate Small(e: Entity) {
    && |e.fields| <= 256 && |e.primaryKey| <= 16
    && |e.uniqueKeys| <= 64 && (forall k | k in e.uniqueKeys :: |k| <= 16)
    && |e.indexes| <= 64 && (forall k | k in e.indexes :: |k| <= 16)
    && |e.foreignKeys| <= 64 && (forall k | k in e.foreignKeys :: |k.fields| <= 16 && |k.targetFields| <= 16)
  }

  lemma EntityBaseWithin(e: Entity)
    requires Small(e)
    ensures PairsWithin(EntityBase(e), 4, 256)
  {
    forall f | f in e.fields ensures Within(FieldTree(f), 1, 256) {
      FieldWithin(f);
    }
    ItemsWithin(FieldTree, e.fields, 1, 256);
    NamesWithin(e.primaryKey, 256);
    var (a, b) := (P("name", TextTree(e.name)), P("table", TextTree(e.table)));
    var (c, d) := (P("fields", Items(Map(FieldTree, e.fields))), P("primaryKey", NamesTree(e.primaryKey)));
    PWithin("name", TextTree(e.name), 4, 256);
    PWithin("table", TextTree(e.table), 4, 256);
    PWithin("fields", Items(Map(FieldTree, e.fields)), 4, 256);
    PWithin("primaryKey", NamesTree(e.primaryKey), 4, 256);
    PairsWithinPlus(a, b, 4, 256);
    PairsWithinPlus(a + b, c, 4, 256);
    PairsWithinPlus(a + b + c, d, 4, 256);
  }

  lemma ForeignsWithin(keys: seq<IrForeign>, full: bool)
    requires |keys| <= 64 && forall k | k in keys :: |k.fields| <= 16 && |k.targetFields| <= 16
    ensures Within(Items(Map(ForeignTree(full), keys)), 4, 64)
  {
    forall k | k in keys ensures Within(ForeignTree(full)(k), 3, 64) {
      ForeignWithin(k, full);
    }
    ItemsWithin(ForeignTree(full), keys, 3, 64);
  }

  lemma ListWithin(key: string, t: Tree, present: bool, height: nat, width: nat)
    requires Within(t, height, width)
    ensures PairsWithin(ListPairs(key, t, present), height, width)
  {
    PWithin(key, t, height, width);
  }

  lemma EntityWithin(e: Entity, full: bool)
    requires Small(e)
    ensures Within(EntityTree(full)(e), 5, 256)
  {
    EntityBaseWithin(e);
    ForeignsWithin(e.foreignKeys, full);
    KeysWithin(e.uniqueKeys, 64);
    KeysWithin(e.indexes, 64);
    var (u, i, f) := (KeysTree(e.uniqueKeys), KeysTree(e.indexes), Items(Map(ForeignTree(full), e.foreignKeys)));
    var (hasU, hasI, hasF) := (full || e.uniqueKeys != [], full || e.indexes != [], full || e.foreignKeys != []);
    var (a, b, c) := (ListPairs("uniqueKeys", u, hasU), ListPairs("indexes", i, hasI), ListPairs("foreignKeys", f, hasF));
    ListWithin("uniqueKeys", u, hasU, 4, 256);
    ListWithin("indexes", i, hasI, 4, 256);
    ListWithin("foreignKeys", f, hasF, 4, 256);
    PairsWithinPlus(EntityBase(e), a, 4, 256);
    PairsWithinPlus(EntityBase(e) + a, b, 4, 256);
    PairsWithinPlus(EntityBase(e) + a + b, c, 4, 256);
    ObjectWithin(EntityPairs(e, full), 4, 256);
  }

  lemma OkIsSmall(ir: Ir)
    requires IrOk(ir)
    ensures |ir.entities| <= 64 && forall e | e in ir.entities :: Small(e)
  {
    forall e | e in ir.entities ensures Small(e) {
      assert EntityOk(e);
    }
  }

  lemma EntitiesWithin(entities: seq<Entity>, full: bool)
    requires |entities| <= 64 && forall e | e in entities :: Small(e)
    ensures Within(Items(Map(EntityTree(full), entities)), 6, 256)
  {
    forall e | e in entities ensures Within(EntityTree(full)(e), 5, 256) {
      EntityWithin(e, full);
    }
    ItemsWithin(EntityTree(full), entities, 5, 256);
  }

  lemma IrBounded(ir: Ir, full: bool)
    requires |ir.entities| <= 64 && forall e | e in ir.entities :: Small(e)
    ensures Bounded(IrTree(ir, full), 0, IR)
  {
    EntitiesWithin(ir.entities, full);
    var entities := Items(Map(EntityTree(full), ir.entities));
    var (a, b, c) := (P("schemaVersion", TextTree(VERSION)), P("databaseSchema", TextTree(ir.databaseSchema)), P("entities", entities));
    PWithin("schemaVersion", TextTree(VERSION), 6, 256);
    PWithin("databaseSchema", TextTree(ir.databaseSchema), 6, 256);
    PWithin("entities", entities, 6, 256);
    PairsWithinPlus(a, b, 6, 256);
    PairsWithinPlus(a + b, c, 6, 256);
    ObjectWithin(IrPairs(ir, full), 6, 256);
  }

  /** Whatever order its members are written in, the data of a normalised IR normalises to itself. */
  lemma TextIsFixed(j: Json, n: Ir)
    requires Normalize(j) == Some(n)
    ensures Normalize(ToJson(IrTree(n, true))) == Some(n)
  {
    IrCanonical.CanonicalIsFixed(ReadIr(j));
    IrRead(n, true);
  }
}
