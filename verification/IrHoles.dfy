/**
 * The schema-IR front end on graphs, where an array may have a hole: it reads arrays by index,
 * skips the hole in some places, takes it for `undefined` in others, and prints it as null.
 */
module IrHoles {
  import opened Seqs
  import opened Strings
  import opened Json
  import opened Document
  import opened SchemaIr
  import opened Snapshot
  import JsonText
  import Shape

  // ----- data as index and member access see it -----

  type Simple = j: Json | !j.Arr? && !j.Obj? witness Null

  /** An index that no own property names is a hole. */
  datatype Data = Atom(value: Simple) | Slots(slots: seq<Option<Data>>) | Fields(members: map<string, Data>)

  function Lookup(ps: seq<Property>, key: Key): Option<Value> {
    if ps == [] then None
    else if ps[|ps| - 1].key == key then Some(ps[|ps| - 1].value)
    else Lookup(ps[..|ps| - 1], key)
  }

  function Reading(g: Graph, v: Value, depth: nat): Data
    decreases 21 - depth, 0
  {
    if v.At? then
      if depth > 20 || v.ref !in g then Atom(Null)
      else if g[v.ref].length.Some? then Slots(ReadSlots(g, g[v.ref].properties, g[v.ref].length.value, depth))
      else Fields(ReadMembers(g, g[v.ref].properties, depth))
    else if Primitive(v).Some? then Atom(Primitive(v).value)
    else Atom(Null)
  }

  function ReadSlots(g: Graph, ps: seq<Property>, n: nat, depth: nat): (r: seq<Option<Data>>)
    requires depth <= 20
    ensures |r| == n
    decreases 21 - depth, 0, n
  {
    if n == 0 then [] else ReadSlots(g, ps, n - 1, depth) + [ReadSlot(g, Lookup(ps, Index(n - 1)), depth)]
  }

  function ReadSlot(g: Graph, v: Option<Value>, depth: nat): Option<Data>
    requires depth <= 20
    decreases 21 - depth, 0, 0
  {
    if v.Some? then Some(Reading(g, v.value, depth + 1)) else None
  }

  function ReadMembers(g: Graph, ps: seq<Property>, depth: nat): map<string, Data>
    requires depth <= 20
    decreases 21 - depth, 0, |ps|
  {
    if ps == [] then map[]
    else
      var last := ps[|ps| - 1];
      ReadMembers(g, ps[..|ps| - 1], depth)[PropertyName(last.key) := Reading(g, last.value, depth + 1)]
  }

  predicate HoleFree(d: Data) {
    match d
    case Atom(_) => true
    case Slots(slots) => forall s | s in slots :: s.Some? && HoleFree(s.value)
    case Fields(members) => forall k | k in members :: HoleFree(members[k])
  }

  /** The data with null in place of every hole, as it is printed. */
  function Filled(d: Data): Json {
    match d
    case Atom(j) => j
    case Slots(slots) => Arr(FilledAll(slots))
    case Fields(members) => Obj(map k | k in members :: Filled(members[k]))
  }

  function FilledAll(slots: seq<Option<Data>>): (r: seq<Json>)
    ensures |r| == |slots|
  {
    if slots == [] then []
    else FilledAll(slots[..|slots| - 1]) + [FilledSlot(slots[|slots| - 1])]
  }

  function FilledSlot(slot: Option<Data>): Json { if slot.Some? then Filled(slot.value) else Null }

  // ----- lists with holes -----

  /** A copied key: spreading an array turns a hole into `undefined`. */
  type HoledKey = seq<Option<string>>

  function SomeOf<T>(x: T): Option<T> { Some(x) }
  function Whole(key: seq<string>): HoledKey { Map(SomeOf, key) }

  /** The items that are there, in order. */
  function Present<T>(xs: seq<Option<T>>): (r: seq<T>)
    ensures |r| <= |xs|
  {
    if xs == [] then []
    else Present(xs[..|xs| - 1]) + if xs[|xs| - 1].Some? then [xs[|xs| - 1].value] else []
  }

  function Holes<T>(n: nat): (r: seq<Option<T>>)
    ensures |r| == n && forall x | x in r :: x == None
  {
    if n == 0 then [] else Holes<T>(n - 1) + [None]
  }

  /** `Array.prototype.sort` leaves holes and `undefined` at the end. */
  function SortHoles<T>(key: T -> string, xs: seq<Option<T>>): seq<Option<T>> {
    Map(SomeOf, SortBy(key, Present(xs))) + Holes<T>(|xs| - |Present(xs)|)
  }

  /** `map` skips holes, and a set made of its result holds `undefined` for them. */
  function Lift<T, U>(f: T -> U): Option<T> -> Option<U> {
    (x: Option<T>) => if x.Some? then Some(f(x.value)) else None
  }

  function TermOf(n: Option<string>): JsonText.Term { if n.Some? then JsonText.Text(n.value) else JsonText.Nil }

  /** `JSON.stringify(key)` */
  function HoledText(key: HoledKey): string { JsonText.Print(JsonText.List(Map(TermOf, key))) }
  function SortedHoledText(key: HoledKey): string { HoledText(SortHoles(Self, key)) }

  // ----- what the front end reads -----

  function MemberOf(d: Data, key: string): Data {
    if d.Fields? && key in d.members then d.members[key] else Atom(Null)
  }

  /** An absent list is empty. */
  function ListIn(d: Data, key: string): Data {
    if d.Fields? && key in d.members then d.members[key] else Slots([])
  }

  /** Copied without a look at the holes. */
  predicate ReadsKey(d: Data) { d.Slots? && forall s | s in d.slots :: ReadsName(s) }
  predicate ReadsName(s: Option<Data>) { s.Some? ==> Filled(s.value).Str? }

  function KeyIn(d: Data): HoledKey { if d.Slots? then Map(Lift(NameIn), d.slots) else [] }
  function NameIn(d: Data): string { Shape.TextOf(Filled(d)) }
  function ForeignIn(d: Data): IrForeign { ReadForeign(Filled(d)) }

  /** A hole is skipped. */
  predicate ReadsIfPresent(s: Option<Data>) { s.Some? ==> ReadsKey(s.value) }
  predicate ReadsForeignIfPresent(s: Option<Data>) { s.Some? ==> ForeignShape(Filled(s.value)) }

  /** Unique keys are spread into another array, where a hole becomes `undefined` and is spread in turn: that throws. */
  predicate ReadsUnique(s: Option<Data>) { s.Some? && ReadsKey(s.value) }
  function UniqueIn(s: Option<Data>): HoledKey { if s.Some? then KeyIn(s.value) else [] }

  predicate ReadsUniqueKeys(d: Data) { d.Slots? && forall s | s in d.slots :: ReadsUnique(s) }
  predicate ReadsIndexes(d: Data) { d.Slots? && forall s | s in d.slots :: ReadsIfPresent(s) }
  predicate ReadsForeignKeys(d: Data) { d.Slots? && forall s | s in d.slots :: ReadsForeignIfPresent(s) }

  /**
   * Everywhere else a hole ends in an exception, as null does: fields and entities become the
   * entries of a map, the fields of a primary key and of a foreign key are looked up, the
   * referenced fields are matched against a pattern.
   */
  predicate ReadsEntity(d: Data) {
    && EntityBaseShape(Filled(d))
    && ReadsUniqueKeys(ListIn(d, "uniqueKeys")) && ReadsIndexes(ListIn(d, "indexes"))
    && ReadsForeignKeys(ListIn(d, "foreignKeys"))
  }

  /** The part of an entity without holes: `base` has no further keys, indexes or foreign keys. */
  datatype HoledEntity = HoledEntity(
    base: Entity, uniqueKeys: seq<HoledKey>, indexes: seq<Option<HoledKey>>, foreignKeys: seq<Option<IrForeign>>)
  datatype HoledIr = HoledIr(databaseSchema: string, entities: seq<HoledEntity>)

  function SlotsIn(d: Data): seq<Option<Data>> { if d.Slots? then d.slots else [] }

  function BaseOf(e: Entity): Entity { e.(uniqueKeys := [], indexes := [], foreignKeys := []) }

  function EntityIn(d: Data): HoledEntity {
    HoledEntity(BaseOf(ReadEntity(Filled(d))), Map(UniqueIn, SlotsIn(ListIn(d, "uniqueKeys"))),
                Map(Lift(KeyIn), SlotsIn(ListIn(d, "indexes"))), Map(Lift(ForeignIn), SlotsIn(ListIn(d, "foreignKeys"))))
  }

  predicate ReadsEntitySlot(s: Option<Data>) { s.Some? && ReadsEntity(s.value) }
  function EntityInSlot(s: Option<Data>): HoledEntity { EntityIn(if s.Some? then s.value else Atom(Null)) }

  predicate ReadsIr(d: Data) {
    && IsRecord(Filled(d), IR_KEYS, {})
    && Shape.Get(Filled(d), "schemaVersion") == Str(VERSION)
    && Shape.Get(Filled(d), "databaseSchema").Str?
    && MemberOf(d, "entities").Slots? && (forall s | s in MemberOf(d, "entities").slots :: ReadsEntitySlot(s))
  }

  function IrIn(d: Data): HoledIr {
    HoledIr(Shape.TextOf(Shape.Get(Filled(d), "databaseSchema")), Map(EntityInSlot, SlotsIn(MemberOf(d, "entities"))))
  }

  // ----- the rules, in the presence of holes -----

  ghost predicate HoledTupleOk(key: HoledKey, fields: map<string, IrField>) {
    1 <= |key| <= 16 && (forall n | n in key && n.Some? :: n.value in fields) && NoDup(key)
  }

  function NameOfHoled(e: HoledEntity): string { e.base.name }
  function TableOfHoled(e: HoledEntity): string { e.base.table }
  function LowerNameOfHoled(e: HoledEntity): string { LowerName(e.base) }
  function HoledKeys(e: HoledEntity): seq<HoledKey> { [Whole(e.base.primaryKey)] + e.uniqueKeys }

  ghost predicate HoledKeysOk(e: HoledEntity) {
    && TupleOk(e.base.primaryKey, IrFields(e.base)) && SolidKey(e.base.primaryKey, IrFields(e.base))
    && |e.uniqueKeys| <= 64 && (forall k | k in e.uniqueKeys :: HoledTupleOk(k, IrFields(e.base)))
    && |e.indexes| <= 64 && (forall k | k in e.indexes && k.Some? :: HoledTupleOk(k.value, IrFields(e.base)))
    && NoDup(Map(SortedHoledText, HoledKeys(e))) && NoDup(Map(Lift(HoledText), e.indexes))
  }

  ghost predicate HoledForeignsOk(e: HoledEntity) {
    && |e.foreignKeys| <= 64 && (forall k | k in e.foreignKeys && k.Some? :: IrForeignOk(k.value, IrFields(e.base)))
    && NoDup(Map(Lift(RelationText), e.foreignKeys))
  }

  ghost predicate HoledEntityOk(e: HoledEntity) {
    && EntityIdentifier(e.base.name) && TableIdentifier(e.base.table)
    && EntityFieldsOk(e.base.fields) && HoledKeysOk(e) && HoledForeignsOk(e)
  }

  function HoledEntities(entities: seq<HoledEntity>): map<string, HoledEntity> { IndexBy(NameOfHoled, entities) }

  predicate HoledReferenceOk(fields: map<string, IrField>, k: IrForeign, target: HoledEntity) {
    && (forall n | n in k.targetFields :: n in IrFields(target.base))
    && Whole(k.targetFields) in HoledKeys(target)
    && |k.fields| == |k.targetFields|
    && (forall i | 0 <= i < |k.fields| ::
         k.fields[i] in fields && fields[k.fields[i]].scalar == IrFields(target.base)[k.targetFields[i]].scalar)
    && (k.onDelete == SetNullOnDelete ==> forall n | n in k.fields && n in fields :: fields[n].nullable)
  }

  predicate HoledReferencesOk(e: HoledEntity, entities: map<string, HoledEntity>) {
    forall k | k in e.foreignKeys && k.Some? ::
      k.value.entity in entities && HoledReferenceOk(IrFields(e.base), k.value, entities[k.value.entity])
  }

  ghost predicate HoledIrOk(ir: HoledIr) {
    && SqlName(ir.databaseSchema) && !ReservedSchema(ir.databaseSchema)
    && 1 <= |ir.entities| <= 64
    && (forall e | e in ir.entities :: HoledEntityOk(e))
    && NoDup(Map(LowerNameOfHoled, ir.entities)) && NoDup(Map(TableOfHoled, ir.entities))
    && (forall e | e in ir.entities :: HoledReferencesOk(e, HoledEntities(ir.entities)))
  }

  function CanonHoled(e: HoledEntity): HoledEntity {
    HoledEntity(e.base.(fields := SortBy(NameOfIrField, e.base.fields)), SortBy(HoledText, e.uniqueKeys),
                SortHoles(HoledText, e.indexes), SortHoles(ForeignText, e.foreignKeys))
  }

  function CanonicalHoled(ir: HoledIr): HoledIr {
    HoledIr(ir.databaseSchema, SortBy(NameOfHoled, Map(CanonHoled, ir.entities)))
  }

  /** `normalizeSchemaIr`; `None` stands for a thrown error. */
  ghost function NormalizeData(d: Data): Option<HoledIr> {
    if ReadsIr(d) && HoledIrOk(IrIn(d)) then Some(CanonicalHoled(IrIn(d))) else None
  }

  ghost function NormalizeGraph(g: Graph, v: Value): Option<HoledIr> {
    if JsonValue(g, v, {}, 0, IR_NODES).Some? then NormalizeData(Reading(g, v, 0)) else None
  }
}
