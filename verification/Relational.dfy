/** The relational and SQL-name phases of the validator, fault by fault, and the rules they decide. */
module Relational {
  import opened Seqs
  import opened Strings
  import opened Diagnostics
  import opened Document
  import JsonText

  // ----- signatures -----

  function TableText(s: Storage): string { s.schema + "." + s.table }
  function RelationText(r: Relation): string { r.0 + "." + r.1 }
  function Signature(key: seq<string>): string { NulJoin(SortBy(Self, key)) }

  function RelationshipTerm(k: ForeignKey): JsonText.Term {
    JsonText.List([
      JsonText.List(JsonText.Texts(k.fields)), JsonText.Text(k.model), JsonText.List(JsonText.Texts(k.targetFields))])
  }

  function RelationshipText(k: ForeignKey): string { JsonText.Print(RelationshipTerm(k)) }

  /** Sorting and joining the fields of a key gives its field set and nothing else. */
  lemma SignatureIsFieldSet(a: seq<string>, b: seq<string>)
    requires FieldListOk(a) && FieldListOk(b)
    ensures Signature(a) == Signature(b) <==> FieldSet(a) == FieldSet(b)
  {
    var (x, y) := (SortBy(Self, a), SortBy(Self, b));
    SortByCorrect(Self, a);
    SortByCorrect(Self, b);
    PermMembers(a, x);
    PermMembers(b, y);
    if Signature(a) == Signature(b) {
      NamesAreNulFree(x);
      NamesAreNulFree(y);
      NulJoinInjective(x, y);
    }
    if FieldSet(a) == FieldSet(b) {
      SameMembersSorted(a, b);
    }
  }

  lemma SameMembersSorted(a: seq<string>, b: seq<string>)
    requires NoDup(a) && NoDup(b) && ToSet(a) == ToSet(b)
    ensures SortBy(Self, a) == SortBy(Self, b)
  {
    NoDupCounts(a);
    NoDupCounts(b);
    forall x ensures multiset(a)[x] == multiset(b)[x] {
      assert x in a <==> x in ToSet(a);
      assert x in b <==> x in ToSet(b);
      assert x in a <==> x in multiset(a);
      assert x in b <==> x in multiset(b);
    }
    assert multiset(a) == multiset(b);
    SortByOrderBlind(Self, a, b);
  }

  /** A printed relationship is the relationship. */
  lemma RelationshipTextFaithful(a: ForeignKey, b: ForeignKey)
    requires ForeignKeyOk(a) && ForeignKeyOk(b)
    ensures RelationshipText(a) == RelationshipText(b) <==> Relationship(a) == Relationship(b)
  {
    RelationshipPlain(a);
    RelationshipPlain(b);
    JsonText.PrintInjective(RelationshipTerm(a), RelationshipTerm(b));
    if RelationshipTerm(a) == RelationshipTerm(b) {
      var (x, y) := (RelationshipTerm(a).items, RelationshipTerm(b).items);
      assert x[0] == y[0] && x[1] == y[1] && x[2] == y[2];
      JsonText.TextsInjective(a.fields, b.fields);
      JsonText.TextsInjective(a.targetFields, b.targetFields);
    }
  }

  lemma RelationshipPlain(k: ForeignKey)
    requires ForeignKeyOk(k)
    ensures JsonText.PlainTerm(RelationshipTerm(k))
  {
    TextsPlain(k.fields);
    TextsPlain(k.targetFields);
    NamePlain(k.model);
  }

  predicate DotFree(s: string) { '.' !in s }

  lemma DotAt(a: string, ra: string)
    ensures (a + "." + ra)[|a|] == '.'
  {
  }

  lemma DotAfter(a: string, b: string, rb: string)
    requires |a| < |b| && DotFree(b)
    ensures (b + "." + rb)[|a|] != '.'
  {
    assert (b + "." + rb)[|a|] == b[|a|] && b[|a|] in b;
  }

  lemma FirstDot(a: string, ra: string, b: string, rb: string)
    requires DotFree(b) && a + "." + ra == b + "." + rb
    ensures |a| >= |b|
  {
    if |a| < |b| {
      DotAt(a, ra);
      DotAfter(a, b, rb);
    }
  }

  /** A dotted name splits at its first dot. */
  lemma DottedInjective(a: Relation, b: Relation)
    requires DotFree(a.0) && DotFree(b.0) && RelationText(a) == RelationText(b)
    ensures a == b
  {
    var (x, y) := (RelationText(a), RelationText(b));
    assert x[|a.0|] == '.' && y[|b.0|] == '.';
    FirstDot(a.0, a.1, b.0, b.1);
    FirstDot(b.0, b.1, a.0, a.1);
    assert a.0 == x[..|a.0|] && b.0 == y[..|b.0|];
    assert a.1 == x[|a.0| + 1..] && b.1 == y[|b.0| + 1..];
  }

  // ----- distinctness, seen one item at a time -----

  /** The key of item `i` is the key of an earlier item. */
  predicate Repeated<T>(key: T -> string, items: seq<T>, i: int) {
    0 <= i < |items| && key(items[i]) in Map(key, items[..i])
  }

  lemma RepeatedMeans<T>(key: T -> string, items: seq<T>)
    ensures NoDup(Map(key, items)) <==> forall i | 0 <= i < |items| :: !Repeated(key, items, i)
  {
    var keys := Map(key, items);
    forall i | 0 <= i < |items|
      ensures Repeated(key, items, i) <==> exists k | 0 <= k < i :: keys[k] == keys[i]
    {
      var before := Map(key, items[..i]);
      assert |before| == i && forall k | 0 <= k < i :: before[k] == keys[k];
      if Repeated(key, items, i) {
        var k :| 0 <= k < i && before[k] == keys[i];
        assert keys[k] == keys[i];
      }
      if k :| 0 <= k < i && keys[k] == keys[i] {
        assert before[k] == keys[i];
      }
    }
    if !NoDup(keys) {
      var k, i :| 0 <= k < i < |keys| && keys[k] == keys[i];
      assert Repeated(key, items, i);
    }
  }

  lemma SameKeysSameRepeats<A, B, C>(f: A -> B, g: A -> C, s: seq<A>)
    requires forall x, y | x in s && y in s :: f(x) == f(y) <==> g(x) == g(y)
    ensures NoDup(Map(f, s)) <==> NoDup(Map(g, s))
  {
    forall i, k | 0 <= i < k < |s| ensures Map(f, s)[i] == Map(f, s)[k] <==> Map(g, s)[i] == Map(g, s)[k] {
      assert s[i] in s && s[k] in s;
    }
  }

  lemma InjectiveKeepsNoDup<A, B>(f: A -> B, s: seq<A>)
    requires forall x, y | x in s && y in s && f(x) == f(y) :: x == y
    ensures NoDup(Map(f, s)) <==> NoDup(s)
  {
    forall i, k | 0 <= i < k < |s| ensures Map(f, s)[i] == Map(f, s)[k] <==> s[i] == s[k] {
      assert s[i] in s && s[k] in s;
    }
  }

  /** No member of a list is among the taken ones or repeats an earlier member of its own list. */
  ghost predicate Fresh(taken: seq<string>, own: seq<string>) {
    forall j | 0 <= j < |own| :: own[j] !in taken + own[..j]
  }

  lemma FreshSplits(taken: seq<string>, own: seq<string>)
    ensures Fresh(taken, own) <==> (forall j | 0 <= j < |own| :: own[j] !in taken && own[j] !in own[..j])
  {
    forall j | 0 <= j < |own| ensures own[j] !in taken + own[..j] <==> own[j] !in taken && own[j] !in own[..j] {}
  }

  lemma DistinctPrefixes(own: seq<string>)
    ensures NoDup(own) <==> forall j | 0 <= j < |own| :: own[j] !in own[..j]
  {
    if forall j | 0 <= j < |own| :: own[j] !in own[..j] {
      forall j, k | 0 <= j < k < |own| ensures own[j] != own[k] {
        assert own[..k][j] == own[j];
      }
    }
  }

  lemma FreshMeans(taken: seq<string>, own: seq<string>)
    ensures NoDup(taken + own) <==> NoDup(taken) && Fresh(taken, own)
  {
    NoDupAppend(taken, own);
    FreshSplits(taken, own);
    DistinctPrefixes(own);
    assert (forall x | x in taken :: x !in own) <==> (forall j | 0 <= j < |own| :: own[j] !in taken);
  }

  ghost predicate AllFresh<A>(base: seq<string>, f: A -> seq<string>, d: seq<A>) {
    forall i | 0 <= i < |d| :: Fresh(base + FlatMap(f, d[..i]), f(d[i]))
  }

  lemma AllFreshSnoc<A>(base: seq<string>, f: A -> seq<string>, d: seq<A>, x: A)
    ensures AllFresh(base, f, d + [x]) <==> AllFresh(base, f, d) && Fresh(base + FlatMap(f, d), f(x))
  {
    var e := d + [x];
    forall i | 0 <= i <= |d| ensures e[..i] == d[..i] {}
    assert d[..|d|] == d && e[|d|] == x;
    assert forall i | 0 <= i < |d| :: e[i] == d[i];
  }

  /** Checking each list against everything before it decides whether all of them are distinct. */
  lemma {:induction false} ScanDecides<A>(base: seq<string>, f: A -> seq<string>, d: seq<A>)
    requires NoDup(base)
    ensures NoDup(base + FlatMap(f, d)) <==> AllFresh(base, f, d)
  {
    if d == [] {
      assert base + FlatMap(f, d) == base;
    } else {
      var (rest, x) := (d[..|d| - 1], d[|d| - 1]);
      assert d == rest + [x];
      ScanDecides(base, f, rest);
      FlatMapSnoc(f, rest, x);
      FreshMeans(base + FlatMap(f, rest), f(x));
      assert base + FlatMap(f, d) == base + FlatMap(f, rest) + f(x);
      AllFreshSnoc(base, f, rest, x);
    }
  }

  // ----- faults of a model -----

  function TableTexts(m: Model): seq<string> {
    if m.storage.Some? then [TableText(m.storage.value)] else []
  }

  function Before<T>(items: seq<T>, i: int): seq<T> {
    if 0 <= i <= |items| then items[..i] else items
  }

  predicate TableTaken(d: Document, i: int, s: Storage) {
    TableText(s) in FlatMap(TableTexts, Before(d, i))
  }

  function UnknownFields(m: Model, key: seq<string>, path: Path): seq<Diagnostic> {
    Unless(Resolves(m, key), UNKNOWN_KEY_FIELD, path)
  }

  ghost function KeyFieldCheck(m: Model, path: Path): (seq<string>, int) -> seq<Diagnostic> {
    (key: seq<string>, i: int) => UnknownFields(m, key, path)
  }

  predicate SameTypes(m: Model, k: ForeignKey, target: Model)
    requires |k.fields| == |k.targetFields| && Resolves(m, k.fields) && Resolves(target, k.targetFields)
  {
    forall i | 0 <= i < |k.fields| ::
      FieldMap(m)[k.fields[i]].scalar == FieldMap(target)[k.targetFields[i]].scalar
  }

  predicate NullableFields(m: Model, key: seq<string>) {
    forall n | n in key && n in FieldMap(m) :: FieldMap(m)[n].nullable
  }

  predicate NotNullableFields(m: Model, key: seq<string>) {
    forall n | n in key && n in FieldMap(m) :: !FieldMap(m)[n].nullable
  }

  function ReferenceFaults(m: Model, k: ForeignKey, models: map<string, Model>, path: Path): (r: seq<Diagnostic>)
    ensures r == [] <==> ReferenceOk(m, k, models)
  {
    if k.model !in models || models[k.model].storage.None? then [Diagnostic(UNKNOWN_REFERENCE, Under(path, AtReferences))]
    else
      var target := models[k.model];
      if |k.fields| != |k.targetFields| || !Resolves(m, k.fields) || !Resolves(target, k.targetFields)
      then [Diagnostic(INVALID_FOREIGN_KEY, path)]
      else
        Unless(k.targetFields in Keys(target.storage.value), NON_UNIQUE_REFERENCE, Under(path, AtReferences)) +
        Unless(SameTypes(m, k, target), FOREIGN_KEY_TYPE_MISMATCH, path) +
        Unless(k.onDelete == SetNull ==> NullableFields(m, k.fields), INVALID_SET_NULL, path)
  }

  ghost function ForeignCheck(
    m: Model, keys: seq<ForeignKey>, models: map<string, Model>, path: Path): (ForeignKey, int) -> seq<Diagnostic>
  {
    (k: ForeignKey, i: int) =>
      Unless(!Repeated(RelationshipText, keys, i), DUPLICATE_FOREIGN_KEY, Under(path, Item(i))) +
      ReferenceFaults(m, k, models, Under(path, Item(i)))
  }

  ghost predicate ColumnsDistinct(s: Storage) {
    NoDup(Map(FieldOfColumn, s.columns)) && NoDup(Map(NameOfColumn, s.columns))
  }

  predicate ColumnsUnreserved(s: Storage) { forall c | c in s.columns :: c.name !in SYSTEM_COLUMNS }
  predicate AllRequired(m: Model) { forall f | f in m.fields :: f.required }

  ghost function MappingFaults(m: Model, s: Storage, path: Path): seq<Diagnostic> {
    Unless(ColumnsDistinct(s), DUPLICATE_COLUMN, Under(path, AtColumns)) +
    Unless(ColumnsUnreserved(s), RESERVED_COLUMN, Under(path, AtColumns)) +
    Unless(ColumnMap(s).Keys == FieldMap(m).Keys, INCOMPLETE_MAPPING, Under(path, AtColumns)) +
    Unless(AllRequired(m), LOSSY_PRESENCE, path)
  }

  ghost function KeyFaults(m: Model, s: Storage, path: Path): seq<Diagnostic> {
    Unless(NoDup(Map(Signature, Keys(s))), DUPLICATE_KEY, path) +
    Each(KeyFieldCheck(m, path), Keys(s)) +
    Unless(NotNullableFields(m, s.primaryKey), NULLABLE_PRIMARY_KEY, Under(path, AtPrimaryKey))
  }

  ghost function StoredFaults(d: Document, i: int, m: Model, s: Storage, path: Path): seq<Diagnostic> {
    Unless(!ReservedSchema(s.schema), RESERVED_SCHEMA, Under(path, AtSchema)) +
    Unless(!TableTaken(d, i, s), DUPLICATE_TABLE, path) +
    MappingFaults(m, s, path) +
    KeyFaults(m, s, path) +
    Each(ForeignCheck(m, s.foreignKeys, ModelMap(d), Under(path, AtForeignKeys)), s.foreignKeys)
  }

  ghost function ModelFaults(d: Document, i: int, m: Model, path: Path): seq<Diagnostic> {
    Unless(NoDup(FieldNames(m)), DUPLICATE_FIELD, Under(path, AtFields)) +
    if m.storage.Some? then StoredFaults(d, i, m, m.storage.value, Under(path, AtStorage)) else []
  }

  ghost function ModelCheck(d: Document): (Model, int) -> seq<Diagnostic> {
    (m: Model, i: int) => ModelFaults(d, i, m, Under(Under(Root, AtModels), Item(i)))
  }

  ghost function RelationalFaults(d: Document): seq<Diagnostic> {
    Unless(NoDup(Map(NameOfModel, d)), DUPLICATE_MODEL, Under(Root, AtModels)) + Each(ModelCheck(d), d)
  }

  // ----- faults of generated names -----

  /** The qualified names of the indexes a model creates. */
  function IndexTexts(m: Model): seq<string> {
    if m.storage.Some? then Map(RelationText, ModelIndexIds(Persisted(m, m.storage.value))) else []
  }

  ghost function TakenCheck(taken: seq<string>, own: seq<string>, path: Path): (string, int) -> seq<Diagnostic> {
    (text: string, i: int) => Unless(text !in taken + Before(own, i), SQL_NAME_COLLISION, path)
  }

  /** The relations that exist before the indexes of model `i` are added. */
  function RelationsBefore(d: Document, i: int): seq<string> {
    FlatMap(TableTexts, d) + FlatMap(IndexTexts, Before(d, i))
  }

  ghost function NameCheck(d: Document): (Model, int) -> seq<Diagnostic> {
    (m: Model, i: int) => NameFaultsOf(d, i, m, Under(Under(Under(Root, AtModels), Item(i)), AtStorage))
  }

  ghost function NameFaultsOf(d: Document, i: int, m: Model, path: Path): seq<Diagnostic> {
    if m.storage.None? then []
    else
      Unless(ConstraintNamesOk(Persisted(m, m.storage.value), ModelMap(d)), SQL_NAME_COLLISION, path) +
      Each(TakenCheck(RelationsBefore(d, i), IndexTexts(m), path), IndexTexts(m))
  }

  ghost function NameFaults(d: Document): seq<Diagnostic> { Each(NameCheck(d), d) }

  // ----- the faults decide the rules -----

  lemma KeyFieldsDecide(m: Model, keys: seq<seq<string>>, path: Path)
    ensures Each(KeyFieldCheck(m, path), keys) == [] <==> forall k | k in keys :: Resolves(m, k)
  {
    EachClean(KeyFieldCheck(m, path), keys);
    forall i | 0 <= i < |keys| ensures KeyFieldCheck(m, path)(keys[i], i) == [] <==> Resolves(m, keys[i]) {}
  }

  lemma SignaturesDecide(keys: seq<seq<string>>)
    requires forall k | k in keys :: FieldListOk(k)
    ensures NoDup(Map(Signature, keys)) <==> NoDup(Map(FieldSet, keys))
  {
    forall a, b | a in keys && b in keys ensures Signature(a) == Signature(b) <==> FieldSet(a) == FieldSet(b) {
      SignatureIsFieldSet(a, b);
    }
    SameKeysSameRepeats(Signature, FieldSet, keys);
  }

  lemma KeyFaultsDecide(m: Model, s: Storage, path: Path)
    requires StorageOk(s)
    ensures KeyFaults(m, s, path) == [] <==> KeysOk(m, s)
  {
    SignaturesDecide(Keys(s));
    KeyFieldsDecide(m, Keys(s), path);
  }

  lemma RelationshipsDecide(keys: seq<ForeignKey>)
    requires forall k | k in keys :: ForeignKeyOk(k)
    ensures NoDup(Map(Relationship, keys)) <==> forall i | 0 <= i < |keys| :: !Repeated(RelationshipText, keys, i)
  {
    forall a, b | a in keys && b in keys
      ensures RelationshipText(a) == RelationshipText(b) <==> Relationship(a) == Relationship(b)
    {
      RelationshipTextFaithful(a, b);
    }
    SameKeysSameRepeats(RelationshipText, Relationship, keys);
    RepeatedMeans(RelationshipText, keys);
  }

  lemma ForeignCheckMeans(m: Model, keys: seq<ForeignKey>, models: map<string, Model>, path: Path, k: ForeignKey, i: int)
    ensures ForeignCheck(m, keys, models, path)(k, i) == [] <==>
              !Repeated(RelationshipText, keys, i) && ReferenceOk(m, k, models)
  {
  }

  lemma ForeignFaultsDecide(m: Model, keys: seq<ForeignKey>, models: map<string, Model>, path: Path)
    requires forall k | k in keys :: ForeignKeyOk(k)
    ensures Each(ForeignCheck(m, keys, models, path), keys) == [] <==>
              NoDup(Map(Relationship, keys)) && forall k | k in keys :: ReferenceOk(m, k, models)
  {
    RelationshipsDecide(keys);
    EachClean(ForeignCheck(m, keys, models, path), keys);
    forall i | 0 <= i < |keys|
      ensures ForeignCheck(m, keys, models, path)(keys[i], i) == [] <==>
                !Repeated(RelationshipText, keys, i) && ReferenceOk(m, keys[i], models)
    {
      ForeignCheckMeans(m, keys, models, path, keys[i], i);
    }
  }

  lemma StoredFaultsDecide(d: Document, i: int, m: Model, s: Storage, path: Path)
    requires StorageOk(s)
    ensures StoredFaults(d, i, m, s, path) == [] <==>
              !TableTaken(d, i, s) && StoredModelOk(m, s, ModelMap(d))
  {
    KeyFaultsDecide(m, s, path);
    ForeignFaultsDecide(m, s.foreignKeys, ModelMap(d), Under(path, AtForeignKeys));
    assert MappingFaults(m, s, path) == [] <==> MappingOk(m, s);
  }

  lemma ModelFaultsDecide(d: Document, i: int, m: Model, path: Path)
    requires ModelOk(m)
    ensures ModelFaults(d, i, m, path) == [] <==>
              (m.storage.Some? ==> !TableTaken(d, i, m.storage.value)) && ModelResolved(m, ModelMap(d))
  {
    if m.storage.Some? {
      StoredFaultsDecide(d, i, m, m.storage.value, Under(path, AtStorage));
    }
  }

  function TableTextOf(p: Persisted): string { TableText(p.storage) }

  lemma TableTextFaithful(p: Persisted, q: Persisted)
    requires SqlName(p.storage.schema) && SqlName(q.storage.schema)
    ensures TableTextOf(p) == TableTextOf(q) <==> TableId(p) == TableId(q)
  {
    if TableTextOf(p) == TableTextOf(q) {
      DottedInjective(TableId(p), TableId(q));
    }
  }

  predicate TableFresh(d: Document, i: nat)
    requires i < |d|
  {
    d[i].storage.Some? ==> !TableTaken(d, i, d[i].storage.value)
  }

  lemma FreshOne(taken: seq<string>, m: Model)
    ensures Fresh([] + taken, TableTexts(m)) <==> (m.storage.Some? ==> TableText(m.storage.value) !in taken)
  {
    var own := TableTexts(m);
    assert own != [] ==> [] + taken + own[..0] == taken;
  }

  lemma StoredTextsDecide(ps: seq<Persisted>)
    requires forall p | p in ps :: SqlName(p.storage.schema)
    ensures NoDup(Map(TableId, ps)) <==> NoDup(Map(TableTextOf, ps))
  {
    forall p, q | p in ps && q in ps ensures TableTextOf(p) == TableTextOf(q) <==> TableId(p) == TableId(q) {
      TableTextFaithful(p, q);
    }
    SameKeysSameRepeats(TableTextOf, TableId, ps);
  }

  lemma StoredSchemas(d: Document)
    requires DeclarationsOk(d)
    ensures forall p | p in Stored(d) :: SqlName(p.storage.schema)
  {
    forall p | p in Stored(d) ensures SqlName(p.storage.schema) {
      assert ModelOk(p.model);
    }
  }

  lemma TablesFresh(d: Document)
    ensures NoDup(FlatMap(TableTexts, d)) <==> forall i | 0 <= i < |d| :: TableFresh(d, i)
  {
    ScanDecides([], TableTexts, d);
    assert [] + FlatMap(TableTexts, d) == FlatMap(TableTexts, d);
    forall i | 0 <= i < |d|
      ensures Fresh([] + FlatMap(TableTexts, d[..i]), TableTexts(d[i])) <==> TableFresh(d, i)
    {
      FreshOne(FlatMap(TableTexts, d[..i]), d[i]);
    }
  }

  lemma TablesDecide(d: Document)
    requires DeclarationsOk(d)
    ensures NoDup(Map(TableId, Stored(d))) <==> NoDup(FlatMap(TableTexts, d))
  {
    StoredSchemas(d);
    StoredTextsDecide(Stored(d));
    MapStored(TableTextOf, TableTexts, d);
  }

  /** The relational phase is silent exactly on the documents that meet the relational rules. */
  lemma RelationalFaultsDecide(d: Document)
    requires DeclarationsOk(d)
    ensures RelationalFaults(d) == [] <==> RelationsOk(d)
  {
    ModelChecksDecide(d);
    TablesDecide(d);
    TablesFresh(d);
  }

  lemma ModelChecksDecide(d: Document)
    requires forall m | m in d :: ModelOk(m)
    ensures Each(ModelCheck(d), d) == [] <==> forall i | 0 <= i < |d| :: TableFresh(d, i) && ModelResolved(d[i], ModelMap(d))
  {
    EachClean(ModelCheck(d), d);
    forall i | 0 <= i < |d|
      ensures ModelCheck(d)(d[i], i) == [] <==> TableFresh(d, i) && ModelResolved(d[i], ModelMap(d))
    {
      ModelFaultsDecide(d, i, d[i], Under(Under(Root, AtModels), Item(i)));
    }
  }

  lemma TableTextsMapped(d: Document)
    ensures Map(RelationText, Map(TableId, Stored(d))) == FlatMap(TableTexts, d)
  {
    MapStored(TableTextOf, TableTexts, d);
    assert Map(RelationText, Map(TableId, Stored(d))) == Map(TableTextOf, Stored(d));
  }

  lemma {:induction false} SchemasDotFree(ps: seq<Persisted>)
    requires forall p | p in ps :: SqlName(p.storage.schema)
    ensures forall r | r in RelationIds(ps) :: DotFree(r.0)
  {
    forall r | r in RelationIds(ps) ensures DotFree(r.0) {
      if r in Map(TableId, ps) {
        var p := MapInInverse(TableId, ps, r);
      } else {
        IndexSchema(ps, r);
      }
    }
  }

  lemma {:induction false} IndexSchema(ps: seq<Persisted>, r: Relation)
    requires r in IndexIds(ps)
    ensures exists p | p in ps :: p.storage.schema == r.0
  {
    var n := |ps| - 1;
    if r in IndexIds(ps[..n]) {
      IndexSchema(ps[..n], r);
      var p :| p in ps[..n] && p.storage.schema == r.0;
      assert p in ps;
    } else {
      assert r in ModelIndexIds(ps[n]);
      assert ps[n] in ps;
    }
  }

  lemma {:induction false} IndexTextsMapped(d: Document)
    ensures Map(RelationText, IndexIds(Stored(d))) == FlatMap(IndexTexts, d)
  {
    if d != [] {
      var (rest, m) := (d[..|d| - 1], d[|d| - 1]);
      IndexTextsMapped(rest);
      if m.storage.Some? {
        var p := Persisted(m, m.storage.value);
        FlatMapSnoc(ModelIndexIds, Stored(rest), p);
        MapAppend(RelationText, IndexIds(Stored(rest)), ModelIndexIds(p));
      } else {
        assert Stored(d) == Stored(rest);
      }
    }
  }

  /** Qualified texts are distinct exactly when the relations are. */
  lemma RelationTextsDecide(d: Document)
    requires DeclarationsOk(d)
    ensures NoDup(RelationIds(Stored(d))) <==> NoDup(FlatMap(TableTexts, d) + FlatMap(IndexTexts, d))
  {
    var ids := RelationIds(Stored(d));
    StoredSchemas(d);
    SchemasDotFree(Stored(d));
    forall a, b | a in ids && b in ids && RelationText(a) == RelationText(b) ensures a == b {
      DottedInjective(a, b);
    }
    InjectiveKeepsNoDup(RelationText, ids);
    MapAppend(RelationText, Map(TableId, Stored(d)), IndexIds(Stored(d)));
    TableTextsMapped(d);
    IndexTextsMapped(d);
  }

  lemma NameFaultsOfDecide(d: Document, i: nat, m: Model, path: Path)
    requires i < |d|
    ensures NameFaultsOf(d, i, m, path) == [] <==>
              && (m.storage.Some? ==> ConstraintNamesOk(Persisted(m, m.storage.value), ModelMap(d)))
              && Fresh(RelationsBefore(d, i), IndexTexts(m))
  {
    TakenDecides(RelationsBefore(d, i), IndexTexts(m), path);
  }

  lemma TakenDecides(taken: seq<string>, own: seq<string>, path: Path)
    ensures Each(TakenCheck(taken, own, path), own) == [] <==> Fresh(taken, own)
  {
    EachClean(TakenCheck(taken, own, path), own);
    forall j | 0 <= j < |own| ensures TakenCheck(taken, own, path)(own[j], j) == [] <==> own[j] !in taken + own[..j] {}
  }

  /** The name phase is silent exactly when no generated name collides. */
  lemma NameFaultsDecide(d: Document)
    requires DeclarationsOk(d) && RelationsOk(d)
    ensures NameFaults(d) == [] <==> NamesOk(d)
  {
    EachClean(NameCheck(d), d);
    TablesDecide(d);
    RelationTextsDecide(d);
    ScanDecides(FlatMap(TableTexts, d), IndexTexts, d);
    forall i | 0 <= i < |d|
      ensures NameCheck(d)(d[i], i) == [] <==>
                && (d[i].storage.Some? ==> ConstraintNamesOk(Persisted(d[i], d[i].storage.value), ModelMap(d)))
                && Fresh(FlatMap(TableTexts, d) + FlatMap(IndexTexts, d[..i]), IndexTexts(d[i]))
    {
      NameFaultsOfDecide(d, i, d[i], Under(Under(Under(Root, AtModels), Item(i)), AtStorage));
    }
    StoredAt(NamesOkIn(ModelMap(d)), d);
    assert forall p | p in Stored(d) :: NamesOkIn(ModelMap(d))(p) <==> ConstraintNamesOk(p, ModelMap(d));
  }

  ghost function NamesOkIn(models: map<string, Model>): Persisted -> bool {
    (p: Persisted) => ConstraintNamesOk(p, models)
  }

  lemma StoredAt(ok: Persisted -> bool, d: Document)
    ensures (forall p | p in Stored(d) :: ok(p)) <==>
              forall i | 0 <= i < |d| && d[i].storage.Some? :: ok(Persisted(d[i], d[i].storage.value))
  {
    forall i | 0 <= i < |d| && d[i].storage.Some? ensures Persisted(d[i], d[i].storage.value) in Stored(d) {
      assert d[i] in d;
    }
    forall p | p in Stored(d) ensures exists i | 0 <= i < |d| && d[i].storage.Some? :: p == Persisted(d[i], d[i].storage.value) {
      var i :| 0 <= i < |d| && d[i] == p.model;
      assert p == Persisted(d[i], d[i].storage.value);
    }
  }
}
