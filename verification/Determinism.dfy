/** Reordering declarations changes neither acceptance nor any artifact. */
module Determinism {
  import opened Seqs
  import opened Strings
  import opened Json
  import opened Document
  import opened Emit
  import Ddl
  import JsonText
  import Naming

  // ----- documents up to the order of their declarations -----

  /** A storage block with the order of columns, unique keys and foreign keys forgotten. */
  datatype StorageBag = StorageBag(
    schema: string, table: string, columns: multiset<Column>, primaryKey: seq<string>,
    uniqueKeys: multiset<seq<string>>, foreignKeys: multiset<ForeignKey>)
  datatype ModelBag = ModelBag(name: string, fields: multiset<Field>, storage: Option<StorageBag>)

  function BagOfStorage(s: Storage): StorageBag {
    StorageBag(s.schema, s.table, multiset(s.columns), s.primaryKey, multiset(s.uniqueKeys), multiset(s.foreignKeys))
  }

  function BagOf(m: Model): ModelBag {
    ModelBag(m.name, multiset(m.fields), if m.storage.Some? then Some(BagOfStorage(m.storage.value)) else None)
  }

  /** The same declarations in another order; the order inside a composite key is kept. */
  ghost predicate Reordering(a: Document, b: Document) {
    Perm(Map(BagOf, a), Map(BagOf, b))
  }

  lemma ReorderingSymmetric(a: Document, b: Document)
    requires Reordering(a, b)
    ensures Reordering(b, a)
  {
  }

  lemma Counterpart(a: Document, b: Document, m: Model) returns (m': Model)
    requires Reordering(a, b) && m in b
    ensures m' in a && BagOf(m') == BagOf(m)
  {
    MapIn(BagOf, b, m);
    PermMembers(Map(BagOf, a), Map(BagOf, b));
    m' := MapInInverse(BagOf, a, BagOf(m));
  }

  // ----- rules on single declarations -----

  lemma StorageOkCarries(s: Storage, s': Storage)
    requires StorageOk(s) && BagOfStorage(s) == BagOfStorage(s')
    ensures StorageOk(s')
  {
    PermMembers(s.columns, s'.columns);
    PermMembers(s.uniqueKeys, s'.uniqueKeys);
    PermMembers(s.foreignKeys, s'.foreignKeys);
  }

  lemma ModelOkCarries(m: Model, m': Model)
    requires ModelOk(m) && BagOf(m) == BagOf(m')
    ensures ModelOk(m')
  {
    PermMembers(m.fields, m'.fields);
    if m.storage.Some? {
      StorageOkCarries(m.storage.value, m'.storage.value);
    }
  }

  lemma DeclarationsCarry(a: Document, b: Document)
    requires Reordering(a, b) && DeclarationsOk(a)
    ensures DeclarationsOk(b)
  {
    PermMembers(Map(BagOf, a), Map(BagOf, b));
    forall m | m in b ensures ModelOk(m) {
      var m' := Counterpart(a, b, m);
      ModelOkCarries(m', m);
    }
  }

  // ----- look-up by name -----

  lemma NamesCarry(a: Document, b: Document)
    requires Reordering(a, b)
    ensures Perm(Map(NameOfModel, a), Map(NameOfModel, b))
  {
    MapDecides(BagOf, NameOfModel, a, b);
  }

  ghost predicate SameModels(a: map<string, Model>, b: map<string, Model>) {
    a.Keys == b.Keys && forall n | n in a :: BagOf(a[n]) == BagOf(b[n])
  }

  lemma ModelMapsAgree(a: Document, b: Document)
    requires Reordering(a, b) && NoDup(Map(NameOfModel, a))
    ensures NoDup(Map(NameOfModel, b)) && SameModels(ModelMap(a), ModelMap(b))
  {
    NamesCarry(a, b);
    PermNoDup(Map(NameOfModel, a), Map(NameOfModel, b));
    PermMembers(Map(NameOfModel, a), Map(NameOfModel, b));
    IndexByKeys(NameOfModel, a);
    IndexByKeys(NameOfModel, b);
    forall n | n in ModelMap(a) ensures n in ModelMap(b) && BagOf(ModelMap(a)[n]) == BagOf(ModelMap(b)[n]) {
      var m := ModelMap(b)[n];
      var m' := Counterpart(a, b, m);
      IndexByFinds(NameOfModel, a, m');
    }
  }

  lemma FieldMapsAgree(m: Model, m': Model)
    requires BagOf(m) == BagOf(m') && NoDup(FieldNames(m))
    ensures NoDup(FieldNames(m')) && FieldMap(m) == FieldMap(m')
  {
    MapPerm(NameOfField, m.fields, m'.fields);
    PermNoDup(FieldNames(m), FieldNames(m'));
    IndexByOrderBlind(NameOfField, m.fields, m'.fields);
  }

  lemma ColumnMapsAgree(s: Storage, s': Storage)
    requires BagOfStorage(s) == BagOfStorage(s') && NoDup(Map(FieldOfColumn, s.columns))
    ensures NoDup(Map(FieldOfColumn, s'.columns)) && ColumnMap(s) == ColumnMap(s')
  {
    MapPerm(FieldOfColumn, s.columns, s'.columns);
    PermNoDup(Map(FieldOfColumn, s.columns), Map(FieldOfColumn, s'.columns));
    IndexByOrderBlind(FieldOfColumn, s.columns, s'.columns);
  }

  // ----- relational rules -----

  lemma MappingCarries(m: Model, s: Storage, m': Model, s': Storage)
    requires BagOf(m) == BagOf(m') && BagOfStorage(s) == BagOfStorage(s')
    requires NoDup(FieldNames(m)) && MappingOk(m, s)
    ensures MappingOk(m', s')
  {
    FieldMapsAgree(m, m');
    ColumnMapsAgree(s, s');
    MapPerm(NameOfColumn, s.columns, s'.columns);
    PermNoDup(Map(NameOfColumn, s.columns), Map(NameOfColumn, s'.columns));
    PermMembers(s.columns, s'.columns);
    PermMembers(m.fields, m'.fields);
  }

  lemma KeysPerm(s: Storage, s': Storage)
    requires BagOfStorage(s) == BagOfStorage(s')
    ensures Perm(Keys(s), Keys(s'))
  {
  }

  lemma KeysCarry(m: Model, s: Storage, m': Model, s': Storage)
    requires BagOf(m) == BagOf(m') && BagOfStorage(s) == BagOfStorage(s')
    requires NoDup(FieldNames(m)) && KeysOk(m, s)
    ensures KeysOk(m', s')
  {
    FieldMapsAgree(m, m');
    KeysPerm(s, s');
    MapPerm(FieldSet, Keys(s), Keys(s'));
    PermNoDup(Map(FieldSet, Keys(s)), Map(FieldSet, Keys(s')));
    PermMembers(Keys(s), Keys(s'));
  }

  lemma ReferenceCarries(m: Model, m': Model, k: ForeignKey, models: map<string, Model>, models': map<string, Model>)
    requires FieldMap(m) == FieldMap(m') && SameModels(models, models')
    requires ReferenceOk(m, k, models) && NoDup(FieldNames(models[k.model]))
    ensures ReferenceOk(m', k, models')
  {
    var t, t' := models[k.model], models'[k.model];
    FieldMapsAgree(t, t');
    KeysPerm(t.storage.value, t'.storage.value);
    PermMembers(Keys(t.storage.value), Keys(t'.storage.value));
  }

  ghost predicate DistinctFields(models: map<string, Model>) {
    forall n | n in models :: NoDup(FieldNames(models[n]))
  }

  lemma ReferencesCarry(
      m: Model, s: Storage, m': Model, s': Storage, models: map<string, Model>, models': map<string, Model>)
    requires FieldMap(m) == FieldMap(m') && BagOfStorage(s) == BagOfStorage(s')
    requires SameModels(models, models') && DistinctFields(models) && ReferencesOk(m, s, models)
    ensures ReferencesOk(m', s', models')
  {
    MapPerm(Relationship, s.foreignKeys, s'.foreignKeys);
    PermNoDup(Map(Relationship, s.foreignKeys), Map(Relationship, s'.foreignKeys));
    PermMembers(s.foreignKeys, s'.foreignKeys);
    forall k | k in s'.foreignKeys ensures ReferenceOk(m', k, models') {
      ReferenceCarries(m, m', k, models, models');
    }
  }

  lemma ModelResolvedCarries(m: Model, m': Model, models: map<string, Model>, models': map<string, Model>)
    requires BagOf(m) == BagOf(m') && ModelResolved(m, models)
    requires SameModels(models, models') && DistinctFields(models)
    ensures ModelResolved(m', models')
  {
    FieldMapsAgree(m, m');
    if m.storage.Some? {
      var s, s' := m.storage.value, m'.storage.value;
      MappingCarries(m, s, m', s');
      KeysCarry(m, s, m', s');
      ReferencesCarry(m, s, m', s', models, models');
    }
  }

  lemma ResolvedFieldsDistinct(d: Document)
    requires forall m | m in d :: ModelResolved(m, ModelMap(d))
    ensures DistinctFields(ModelMap(d))
  {
    IndexByKeys(NameOfModel, d);
  }

  // ----- stored models -----

  /** What a bag decides about each model, it decides about the list of stored models. */
  lemma StoredDecides<T>(f: Persisted -> T, a: Document, b: Document)
    requires Reordering(a, b)
    requires forall m, m' | m in a && m' in b && BagOf(m) == BagOf(m') && m.storage.Some? ::
               f(Persisted(m, m.storage.value)) == f(Persisted(m', m'.storage.value))
    ensures Perm(Map(f, Stored(a)), Map(f, Stored(b)))
  {
    var g := (m: Model) => Map(f, StoredOf(m));
    MapStored(f, g, a);
    MapStored(f, g, b);
    forall m, m' | m in a && m' in b ensures BagOf(m) == BagOf(m') ==> Bagged(g)(m) == Bagged(g)(m') {
      if BagOf(m) == BagOf(m') {
        assert Map(f, StoredOf(m)) == Map(f, StoredOf(m'));
      }
    }
    FlatMapDecides(BagOf, g, a, b);
  }

  // ----- acceptance -----

  lemma UniqueNamesMapped(s: Storage, keys: seq<seq<string>>)
    ensures Map((k: seq<string>) => KeyName(s, Naming.UniqueKey, k), keys) == UniqueNames(s, keys)
  {
  }

  lemma KeyNamesAgree(s: Storage, s': Storage, keys: seq<seq<string>>)
    requires s.schema == s'.schema && s.table == s'.table
    ensures UniqueNames(s, keys) == UniqueNames(s', keys)
  {
  }

  lemma IndexNamesPerm(s: Storage, s': Storage)
    requires BagOfStorage(s) == BagOfStorage(s')
    ensures Perm(IndexNames(s), IndexNames(s'))
    ensures Perm(InSchema(s.schema, IndexNames(s)), InSchema(s'.schema, IndexNames(s')))
  {
    var f := (k: seq<string>) => KeyName(s, Naming.UniqueKey, k);
    MapPerm(f, s.uniqueKeys, s'.uniqueKeys);
    UniqueNamesMapped(s, s.uniqueKeys);
    UniqueNamesMapped(s, s'.uniqueKeys);
    KeyNamesAgree(s, s', s'.uniqueKeys);
    PermPrefix([KeyName(s, Naming.PrimaryKey, s.primaryKey)], UniqueNames(s, s.uniqueKeys), UniqueNames(s, s'.uniqueKeys));
    Ddl.InSchemaPerm(s.schema, IndexNames(s), IndexNames(s'));
  }

  lemma PermPrefix<T>(p: seq<T>, a: seq<T>, b: seq<T>)
    requires Perm(a, b)
    ensures Perm(p + a, p + b)
  {
  }

  lemma ForeignNamesPerm(
      s: Storage, s': Storage, models: map<string, Model>, models': map<string, Model>)
    requires BagOfStorage(s) == BagOfStorage(s') && SameModels(models, models')
    requires Targets(s.foreignKeys, models) && Targets(s'.foreignKeys, models')
    ensures Perm(ForeignNames(s, s.foreignKeys, models), ForeignNames(s', s'.foreignKeys, models'))
  {
    MapPerm(Ddl.NameFor(s, models), s.foreignKeys, s'.foreignKeys);
    Ddl.ForeignNamesMapped(s, s.foreignKeys, models);
    Ddl.ForeignNamesMapped(s', s'.foreignKeys, models');
    NameForAgrees(s, s', s'.foreignKeys, models, models');
  }

  lemma NameForAgrees(
      s: Storage, s': Storage, keys: seq<ForeignKey>, models: map<string, Model>, models': map<string, Model>)
    requires TableOf(s) == TableOf(s') && SameModels(models, models') && Targets(keys, models')
    ensures Map(Ddl.NameFor(s, models), keys) == Map(Ddl.NameFor(s', models'), keys)
  {
    forall i | 0 <= i < |keys| ensures Ddl.NameFor(s, models)(keys[i]) == Ddl.NameFor(s', models')(keys[i]) {
      var k := keys[i];
      assert k in keys;
      assert BagOf(models[k.model]) == BagOf(models'[k.model]);
    }
  }

  lemma TargetsCarry(s: Storage, s': Storage, models: map<string, Model>, models': map<string, Model>)
    requires BagOfStorage(s) == BagOfStorage(s') && SameModels(models, models') && Targets(s'.foreignKeys, models')
    ensures Targets(s.foreignKeys, models)
  {
    PermMembers(s.foreignKeys, s'.foreignKeys);
    forall k | k in s.foreignKeys ensures k.model in models && models[k.model].storage.Some? {
      assert BagOf(models[k.model]) == BagOf(models'[k.model]);
    }
  }

  lemma ConstraintNamesCarry(p: Persisted, p': Persisted, models: map<string, Model>, models': map<string, Model>)
    requires BagOfStorage(p.storage) == BagOfStorage(p'.storage) && SameModels(models, models')
    requires ConstraintNamesOk(p, models)
    ensures ConstraintNamesOk(p', models')
  {
    if Targets(p'.storage.foreignKeys, models') {
      TargetsCarry(p.storage, p'.storage, models, models');
      IndexNamesPerm(p.storage, p'.storage);
      ForeignNamesPerm(p.storage, p'.storage, models, models');
      PermBoth(IndexNames(p.storage), IndexNames(p'.storage),
               ForeignNames(p.storage, p.storage.foreignKeys, models),
               ForeignNames(p'.storage, p'.storage.foreignKeys, models'));
    }
  }

  lemma PermBoth<T>(a: seq<T>, b: seq<T>, c: seq<T>, d: seq<T>)
    requires Perm(a, b) && Perm(c, d) && NoDup(a + c)
    ensures NoDup(b + d)
  {
    PermNoDup(a + c, b + d);
  }

  lemma TablesPerm(a: Document, b: Document)
    requires Reordering(a, b)
    ensures Perm(Map(TableId, Stored(a)), Map(TableId, Stored(b)))
  {
    StoredDecides(TableId, a, b);
  }

  lemma IndexBagsAgree(m: Model, m': Model)
    requires BagOf(m) == BagOf(m') && m.storage.Some?
    ensures Bagged(ModelIndexIds)(Persisted(m, m.storage.value)) == Bagged(ModelIndexIds)(Persisted(m', m'.storage.value))
  {
    IndexNamesPerm(m.storage.value, m'.storage.value);
    assert Bagged(ModelIndexIds)(Persisted(m, m.storage.value)) == multiset(ModelIndexIds(Persisted(m, m.storage.value)));
    assert Bagged(ModelIndexIds)(Persisted(m', m'.storage.value)) == multiset(ModelIndexIds(Persisted(m', m'.storage.value)));
  }

  lemma IndexesPerm(a: Document, b: Document)
    requires Reordering(a, b)
    ensures Perm(Map(Bagged(ModelIndexIds), Stored(a)), Map(Bagged(ModelIndexIds), Stored(b)))
  {
    forall m, m' | m in a && m' in b && BagOf(m) == BagOf(m') && m.storage.Some?
      ensures Bagged(ModelIndexIds)(Persisted(m, m.storage.value)) == Bagged(ModelIndexIds)(Persisted(m', m'.storage.value))
    {
      IndexBagsAgree(m, m');
    }
    StoredDecides(Bagged(ModelIndexIds), a, b);
  }

  lemma RelationsCarry(a: Document, b: Document)
    requires Reordering(a, b) && NoDup(RelationIds(Stored(a)))
    ensures NoDup(RelationIds(Stored(b)))
  {
    TablesPerm(a, b);
    IndexesPerm(a, b);
    Ddl.RelationsPerm(Stored(a), Stored(b));
    PermNoDup(RelationIds(Stored(a)), RelationIds(Stored(b)));
  }

  lemma AllResolvedCarry(a: Document, b: Document)
    requires Reordering(a, b) && RelationsOk(a)
    ensures RelationsOk(b)
  {
    ModelMapsAgree(a, b);
    ResolvedFieldsDistinct(a);
    TablesPerm(a, b);
    PermNoDup(Map(TableId, Stored(a)), Map(TableId, Stored(b)));
    forall m | m in b ensures ModelResolved(m, ModelMap(b)) {
      var m' := Counterpart(a, b, m);
      ModelResolvedCarries(m', m, ModelMap(a), ModelMap(b));
    }
  }

  lemma NamesOkCarries(a: Document, b: Document)
    requires Reordering(a, b) && NoDup(Map(NameOfModel, a)) && NamesOk(a)
    ensures NamesOk(b)
  {
    ModelMapsAgree(a, b);
    RelationsCarry(a, b);
    forall p | p in Stored(b) ensures ConstraintNamesOk(p, ModelMap(b)) {
      var m' := Counterpart(a, b, p.model);
      var p' := Persisted(m', m'.storage.value);
      assert p' in Stored(a);
      ConstraintNamesCarry(p', p, ModelMap(a), ModelMap(b));
    }
  }

  /** Reordering the declarations of a document does not change whether it is accepted. */
  lemma AcceptanceIsOrderBlind(a: Document, b: Document)
    requires Reordering(a, b)
    ensures WellFormed(a) <==> WellFormed(b)
  {
    if WellFormed(a) {
      DeclarationsCarry(a, b);
      AllResolvedCarry(a, b);
      NamesOkCarries(a, b);
    }
    if WellFormed(b) {
      ReorderingSymmetric(a, b);
      DeclarationsCarry(b, a);
      AllResolvedCarry(b, a);
      NamesOkCarries(b, a);
    }
  }

  // ----- canonical models -----

  function CanonStorage(s: Storage): Storage {
    s.(columns := SortBy(NameOfColumn, s.columns), uniqueKeys := SortBy(NulJoin, s.uniqueKeys),
       foreignKeys := SortBy(ForeignSortKey, s.foreignKeys))
  }

  function CanonModel(m: Model): Model {
    Model(m.name, SortBy(NameOfField, m.fields), if m.storage.Some? then Some(CanonStorage(m.storage.value)) else None)
  }

  function CanonPersisted(p: Persisted): Persisted {
    Persisted(CanonModel(p.model), CanonStorage(p.storage))
  }

  function ForeignSortTerm(k: ForeignKey): JsonText.Term {
    JsonText.List([
      JsonText.List(JsonText.Texts(k.fields)), JsonText.Text(k.model),
      JsonText.List(JsonText.Texts(k.targetFields)), JsonText.Text(ActionText(k.onDelete))])
  }

  lemma ForeignSortTermPlain(k: ForeignKey)
    requires ForeignKeyOk(k)
    ensures JsonText.PlainTerm(ForeignSortTerm(k))
  {
    TextsPlain(k.fields);
    TextsPlain(k.targetFields);
    NamePlain(k.model);
    assert JsonText.Plain(ActionText(k.onDelete));
  }

  /** The printed sort key of a foreign key identifies it. */
  lemma ForeignSortKeyInjective(a: ForeignKey, b: ForeignKey)
    requires ForeignKeyOk(a) && ForeignKeyOk(b) && ForeignSortKey(a) == ForeignSortKey(b)
    ensures a == b
  {
    ForeignSortTermPlain(a);
    ForeignSortTermPlain(b);
    JsonText.PrintInjective(ForeignSortTerm(a), ForeignSortTerm(b));
    var x, y := ForeignSortTerm(a).items, ForeignSortTerm(b).items;
    assert x[0] == y[0] && x[1] == y[1] && x[2] == y[2] && x[3] == y[3];
    JsonText.TextsInjective(a.fields, b.fields);
    JsonText.TextsInjective(a.targetFields, b.targetFields);
    assert ActionText(a.onDelete) == ActionText(b.onDelete);
    ActionTextInjective(a.onDelete, b.onDelete);
  }

  lemma ActionTextInjective(a: DeleteAction, b: DeleteAction)
    requires ActionText(a) == ActionText(b)
    ensures a == b
  {
    assert |ActionText(Restrict)| == 8 && |ActionText(Cascade)| == 7 && |ActionText(SetNull)| == 7;
    assert ActionText(Cascade)[0] == 'c' && ActionText(SetNull)[0] == 's';
  }

  lemma CanonStorageAgrees(s: Storage, s': Storage)
    requires StorageOk(s) && NoDup(Map(NameOfColumn, s.columns)) && BagOfStorage(s) == BagOfStorage(s')
    ensures CanonStorage(s) == CanonStorage(s')
  {
    assert SortBy(NameOfColumn, s.columns) == SortBy(NameOfColumn, s'.columns) by {
      forall x, y | x in s.columns && y in s.columns && x.name == y.name ensures x == y {
        KeyInjective(NameOfColumn, s.columns, x, y);
      }
      SortByOrderBlind(NameOfColumn, s.columns, s'.columns);
    }
    assert SortBy(NulJoin, s.uniqueKeys) == SortBy(NulJoin, s'.uniqueKeys) by {
      UniqueKeysAgree(s.uniqueKeys, s'.uniqueKeys);
    }
    assert SortBy(ForeignSortKey, s.foreignKeys) == SortBy(ForeignSortKey, s'.foreignKeys) by {
      ForeignKeysAgree(s.foreignKeys, s'.foreignKeys);
    }
  }

  lemma UniqueKeysAgree(a: seq<seq<string>>, b: seq<seq<string>>)
    requires Perm(a, b) && forall k | k in a :: FieldListOk(k)
    ensures SortBy(NulJoin, a) == SortBy(NulJoin, b)
  {
    forall x, y | x in a && y in a && NulJoin(x) == NulJoin(y) ensures x == y {
      NamesAreNulFree(x);
      NamesAreNulFree(y);
      NulJoinInjective(x, y);
    }
    SortByOrderBlind(NulJoin, a, b);
  }

  lemma ForeignKeysAgree(a: seq<ForeignKey>, b: seq<ForeignKey>)
    requires Perm(a, b) && forall k | k in a :: ForeignKeyOk(k)
    ensures SortBy(ForeignSortKey, a) == SortBy(ForeignSortKey, b)
  {
    forall x, y | x in a && y in a && ForeignSortKey(x) == ForeignSortKey(y) ensures x == y {
      ForeignSortKeyInjective(x, y);
    }
    SortByOrderBlind(ForeignSortKey, a, b);
  }

  lemma FieldsAgree(m: Model, m': Model)
    requires NoDup(FieldNames(m)) && BagOf(m) == BagOf(m')
    ensures SortBy(NameOfField, m.fields) == SortBy(NameOfField, m'.fields)
  {
    forall x, y | x in m.fields && y in m.fields && x.name == y.name ensures x == y {
      KeyInjective(NameOfField, m.fields, x, y);
    }
    SortByOrderBlind(NameOfField, m.fields, m'.fields);
  }

  /** The order of declarations is all that two spellings of one model can differ in. */
  lemma CanonModelAgrees(m: Model, m': Model)
    requires ModelOk(m) && NoDup(FieldNames(m)) && BagOf(m) == BagOf(m')
    requires m.storage.Some? ==> NoDup(Map(NameOfColumn, m.storage.value.columns))
    ensures CanonModel(m) == CanonModel(m')
  {
    FieldsAgree(m, m');
    if m.storage.Some? {
      CanonStorageAgrees(m.storage.value, m'.storage.value);
    }
  }

  lemma CanonTellsBag(m: Model, m': Model)
    requires CanonModel(m) == CanonModel(m')
    ensures BagOf(m) == BagOf(m')
  {
    SortByCorrect(NameOfField, m.fields);
    SortByCorrect(NameOfField, m'.fields);
    if m.storage.Some? {
      var s, s' := m.storage.value, m'.storage.value;
      SortByCorrect(NameOfColumn, s.columns);
      SortByCorrect(NameOfColumn, s'.columns);
      SortByCorrect(NulJoin, s.uniqueKeys);
      SortByCorrect(NulJoin, s'.uniqueKeys);
      SortByCorrect(ForeignSortKey, s.foreignKeys);
      SortByCorrect(ForeignSortKey, s'.foreignKeys);
    }
  }

  // ----- models and tables in emission order -----

  lemma CanonDecided(a: Document, b: Document)
    requires Reordering(a, b) && WellFormed(a)
    ensures Decides(BagOf, CanonModel, a, b)
  {
    forall m, m' | m in a && m' in b ensures BagOf(m) == BagOf(m') ==> CanonModel(m) == CanonModel(m') {
      if BagOf(m) == BagOf(m') {
        assert ModelOk(m) && ModelResolved(m, ModelMap(a));
        CanonModelAgrees(m, m');
      }
    }
  }

  function SortedModels(d: Document): seq<Model> { SortBy(NameOfModel, d) }

  lemma NameOfCanon(d: Document)
    ensures KeyKept(CanonModel, NameOfModel, NameOfModel, d)
    ensures Map(NameOfModel, Map(CanonModel, d)) == Map(NameOfModel, d)
  {
  }

  /** The models of two orderings, sorted by name, agree one by one. */
  lemma SortedModelsAgree(a: Document, b: Document)
    requires Reordering(a, b) && WellFormed(a)
    ensures Map(CanonModel, SortedModels(a)) == Map(CanonModel, SortedModels(b))
  {
    CanonDecided(a, b);
    MapDecides(BagOf, CanonModel, a, b);
    NameOfCanon(a);
    NameOfCanon(b);
    var x, y := Map(CanonModel, a), Map(CanonModel, b);
    forall m, m' | m in x && m' in x && NameOfModel(m) == NameOfModel(m') ensures m == m' {
      KeyInjective(NameOfModel, x, m, m');
    }
    SortByOrderBlind(NameOfModel, x, y);
    SortByMapped(CanonModel, NameOfModel, NameOfModel, a);
    SortByMapped(CanonModel, NameOfModel, NameOfModel, b);
  }

  lemma QualifiedInjective(p: Persisted, q: Persisted)
    requires SqlName(p.storage.schema) && SqlName(q.storage.schema)
    requires SqlName(p.storage.table) && SqlName(q.storage.table)
    requires QualifiedName(p) == QualifiedName(q)
    ensures TableId(p) == TableId(q)
  {
    NamePlain(p.storage.schema);
    NamePlain(q.storage.schema);
    NamePlain(p.storage.table);
    NamePlain(q.storage.table);
    var rp, rq := "." + Quote(p.storage.table), "." + Quote(q.storage.table);
    assert QualifiedName(p)[1..] == p.storage.schema + "\"" + rp;
    assert QualifiedName(q)[1..] == q.storage.schema + "\"" + rq;
    JsonText.QuotedPrefix(p.storage.schema, q.storage.schema, rp, rq);
    assert rp[2..] == p.storage.table + "\"" + "" && rq[2..] == q.storage.table + "\"" + "";
    JsonText.QuotedPrefix(p.storage.table, q.storage.table, "", "");
  }

  lemma CanonStoredPerm(a: Document, b: Document)
    requires Reordering(a, b) && WellFormed(a)
    ensures Perm(Map(CanonPersisted, Stored(a)), Map(CanonPersisted, Stored(b)))
  {
    CanonDecided(a, b);
    StoredDecides(CanonPersisted, a, b);
  }

  lemma QualifiedOfCanon(ps: seq<Persisted>)
    ensures KeyKept(CanonPersisted, QualifiedName, QualifiedName, ps)
    ensures Map(TableId, Map(CanonPersisted, ps)) == Map(TableId, ps)
  {
  }

  lemma StoredNames(d: Document, p: Persisted)
    requires DeclarationsOk(d) && p in Stored(d)
    ensures SqlName(p.storage.schema) && SqlName(p.storage.table)
  {
    assert ModelOk(p.model);
  }

  lemma CanonStoredInjective(d: Document, x: Persisted, y: Persisted)
    requires DeclarationsOk(d) && NoDup(Map(TableId, Stored(d)))
    requires x in Map(CanonPersisted, Stored(d)) && y in Map(CanonPersisted, Stored(d))
    requires QualifiedName(x) == QualifiedName(y)
    ensures x == y
  {
    var p := MapInInverse(CanonPersisted, Stored(d), x);
    var q := MapInInverse(CanonPersisted, Stored(d), y);
    StoredNames(d, p);
    StoredNames(d, q);
    QualifiedInjective(x, y);
    KeyInjective(TableId, Stored(d), p, q);
  }

  /** The stored models of two orderings, sorted by table, agree one by one. */
  lemma SortedStoredAgree(a: Document, b: Document)
    requires Reordering(a, b) && WellFormed(a)
    ensures Map(CanonPersisted, SortedStored(a)) == Map(CanonPersisted, SortedStored(b))
  {
    CanonStoredPerm(a, b);
    QualifiedOfCanon(Stored(a));
    QualifiedOfCanon(Stored(b));
    var x, y := Map(CanonPersisted, Stored(a)), Map(CanonPersisted, Stored(b));
    forall p, q | p in x && q in x && QualifiedName(p) == QualifiedName(q) ensures p == q {
      CanonStoredInjective(a, p, q);
    }
    SortByOrderBlind(QualifiedName, x, y);
    SortByMapped(CanonPersisted, QualifiedName, QualifiedName, Stored(a));
    SortByMapped(CanonPersisted, QualifiedName, QualifiedName, Stored(b));
  }

  // ----- artifacts -----

  lemma DefinitionsAgree(a: seq<Model>, b: seq<Model>)
    requires Map(CanonModel, a) == Map(CanonModel, b)
    ensures Map(Definition, a) == Map(Definition, b) && Map(Reference, a) == Map(Reference, b)
    ensures Map(InterfaceOf, a) == Map(InterfaceOf, b)
  {
    forall i | 0 <= i < |a|
      ensures Definition(a[i]) == Definition(b[i]) && Reference(a[i]) == Reference(b[i])
      ensures InterfaceOf(a[i]) == InterfaceOf(b[i])
    {
      assert Map(CanonModel, a)[i] == Map(CanonModel, b)[i];
    }
  }

  /** JSON Schema and TypeScript do not depend on declaration order. */
  lemma ShapesAreOrderBlind(a: Document, b: Document)
    requires Reordering(a, b) && WellFormed(a)
    ensures JsonSchema(a) == JsonSchema(b) && TypeScript(a) == TypeScript(b)
  {
    SortedModelsAgree(a, b);
    DefinitionsAgree(SortedModels(a), SortedModels(b));
  }

  /** Two spellings of one table, with what the emitter reads of them. */
  ghost predicate SameTable(p: Persisted, q: Persisted) {
    && CanonPersisted(p) == CanonPersisted(q)
    && FieldMap(p.model) == FieldMap(q.model)
    && ColumnMap(p.storage) == ColumnMap(q.storage)
  }

  lemma ColumnNamesAgree(s: Storage, s': Storage, key: seq<string>)
    requires KeyMapped(s, key) && ColumnMap(s) == ColumnMap(s')
    ensures KeyMapped(s', key) && ColumnNames(s, key) == ColumnNames(s', key)
  {
  }

  lemma KeyDefsAgree(s: Storage, s': Storage, keys: seq<seq<string>>)
    requires TableOf(s) == TableOf(s') && s.primaryKey == s'.primaryKey && ColumnMap(s) == ColumnMap(s')
    requires KeyMapped(s, s.primaryKey) && forall k | k in keys :: KeyMapped(s, k)
    ensures KeyMapped(s', s'.primaryKey) && forall k | k in keys :: KeyMapped(s', k)
    ensures KeyDefs(s, keys) == KeyDefs(s', keys)
  {
    ColumnNamesAgree(s, s', s.primaryKey);
    forall i | 0 <= i < |keys|
      ensures KeyMapped(s', keys[i])
      ensures KeyDefOf(s, Naming.UniqueKey, keys[i]) == KeyDefOf(s', Naming.UniqueKey, keys[i])
    {
      assert keys[i] in keys;
      ColumnNamesAgree(s, s', keys[i]);
    }
  }

  lemma TableStatementAgrees(p: Persisted, q: Persisted, models: map<string, Model>, models': map<string, Model>)
    requires Emittable(p, models) && Emittable(q, models') && SameTable(p, q)
    ensures TableStatement(p, models) == TableStatement(q, models')
  {
    assert SortedColumns(p.storage) == SortedColumns(q.storage);
    assert SortedUniqueKeys(p.storage) == SortedUniqueKeys(q.storage);
    KeyDefsAgree(p.storage, q.storage, SortedUniqueKeys(p.storage));
  }

  /** Corresponding models are stored in the same table under the same column names. */
  ghost predicate SameTargets(models: map<string, Model>, models': map<string, Model>) {
    forall n | n in models && n in models' && models[n].storage.Some? && models'[n].storage.Some? ::
      TableOf(models[n].storage.value) == TableOf(models'[n].storage.value) &&
      ColumnMap(models[n].storage.value) == ColumnMap(models'[n].storage.value)
  }

  lemma ForeignDefAgrees(s: Storage, s': Storage, k: ForeignKey, t: Storage, t': Storage)
    requires TableOf(s) == TableOf(s') && ColumnMap(s) == ColumnMap(s')
    requires TableOf(t) == TableOf(t') && ColumnMap(t) == ColumnMap(t')
    requires KeyMapped(s, k.fields) && KeyMapped(t, k.targetFields)
    ensures KeyMapped(s', k.fields) && KeyMapped(t', k.targetFields)
    ensures ForeignDefOf(s, k, t) == ForeignDefOf(s', k, t')
  {
    ColumnNamesAgree(s, s', k.fields);
    ColumnNamesAgree(t, t', k.targetFields);
  }

  lemma ForeignDefsAgree(
      s: Storage, s': Storage, keys: seq<ForeignKey>, models: map<string, Model>, models': map<string, Model>)
    requires TableOf(s) == TableOf(s') && ColumnMap(s) == ColumnMap(s') && SameTargets(models, models')
    requires ForeignsMapped(s, keys, models) && ForeignsMapped(s', keys, models')
    ensures ForeignDefs(s, keys, models) == ForeignDefs(s', keys, models')
  {
    forall i | 0 <= i < |keys|
      ensures ForeignDefOf(s, keys[i], models[keys[i].model].storage.value)
           == ForeignDefOf(s', keys[i], models'[keys[i].model].storage.value)
    {
      var k := keys[i];
      assert ForeignMapped(s, k, models) && ForeignMapped(s', k, models');
      ForeignDefAgrees(s, s', k, models[k.model].storage.value, models'[k.model].storage.value);
    }
  }

  lemma ModelForeignsAgree(p: Persisted, q: Persisted, models: map<string, Model>, models': map<string, Model>)
    requires Emittable(p, models) && Emittable(q, models') && SameTable(p, q) && SameTargets(models, models')
    ensures ModelForeigns(p, models) == ModelForeigns(q, models')
  {
    var keys := SortedForeignKeys(p.storage);
    assert keys == SortedForeignKeys(q.storage);
    ForeignDefsAgree(p.storage, q.storage, keys, models, models');
  }

  ghost predicate SameTables(ps: seq<Persisted>, qs: seq<Persisted>) {
    |ps| == |qs| && forall i | 0 <= i < |ps| :: SameTable(ps[i], qs[i])
  }

  lemma TableStatementsAgree(
      ps: seq<Persisted>, qs: seq<Persisted>, models: map<string, Model>, models': map<string, Model>)
    requires EachEmittable(ps, models) && EachEmittable(qs, models') && SameTables(ps, qs)
    ensures TableStatements(ps, models) == TableStatements(qs, models')
  {
    forall i | 0 <= i < |ps| ensures TableStatement(ps[i], models) == TableStatement(qs[i], models') {
      TableStatementAgrees(ps[i], qs[i], models, models');
    }
  }

  lemma {:induction false} ForeignStatementsAgree(
      ps: seq<Persisted>, qs: seq<Persisted>, models: map<string, Model>, models': map<string, Model>)
    requires EachEmittable(ps, models) && EachEmittable(qs, models')
    requires SameTables(ps, qs) && SameTargets(models, models')
    ensures ForeignStatements(ps, models) == ForeignStatements(qs, models')
  {
    if ps != [] {
      var n := |ps| - 1;
      ForeignStatementsAgree(ps[..n], qs[..n], models, models');
      ModelForeignsAgree(ps[n], qs[n], models, models');
    }
  }

  lemma StoredMapping(d: Document, m: Model)
    requires RelationsOk(d) && m in d && m.storage.Some?
    ensures NoDup(FieldNames(m)) && NoDup(Map(FieldOfColumn, m.storage.value.columns))
  {
    assert ModelResolved(m, ModelMap(d));
  }

  lemma TargetsAgree(a: Document, b: Document)
    requires Reordering(a, b) && RelationsOk(a)
    ensures SameTargets(ModelMap(a), ModelMap(b))
  {
    ModelMapsAgree(a, b);
    IndexByKeys(NameOfModel, a);
    forall n | n in ModelMap(a) && n in ModelMap(b) && ModelMap(a)[n].storage.Some? && ModelMap(b)[n].storage.Some?
      ensures TableOf(ModelMap(a)[n].storage.value) == TableOf(ModelMap(b)[n].storage.value)
      ensures ColumnMap(ModelMap(a)[n].storage.value) == ColumnMap(ModelMap(b)[n].storage.value)
    {
      StoredMapping(a, ModelMap(a)[n]);
      ColumnMapsAgree(ModelMap(a)[n].storage.value, ModelMap(b)[n].storage.value);
    }
  }

  lemma TableOfOrderings(d: Document, p: Persisted, q: Persisted)
    requires RelationsOk(d) && p in Stored(d) && q.model.storage == Some(q.storage)
    requires CanonPersisted(p) == CanonPersisted(q)
    ensures SameTable(p, q)
  {
    CanonTellsBag(p.model, q.model);
    StoredMapping(d, p.model);
    FieldMapsAgree(p.model, q.model);
    ColumnMapsAgree(p.storage, q.storage);
  }

  lemma SortedTablesAgree(a: Document, b: Document)
    requires Reordering(a, b) && WellFormed(a)
    ensures SameTables(SortedStored(a), SortedStored(b))
  {
    SortedStoredAgree(a, b);
    var ps, qs := SortedStored(a), SortedStored(b);
    forall i | 0 <= i < |ps| ensures SameTable(ps[i], qs[i]) {
      assert Map(CanonPersisted, ps)[i] == Map(CanonPersisted, qs)[i];
      assert ps[i] in ps && qs[i] in qs;
      TableOfOrderings(a, ps[i], qs[i]);
    }
  }

  lemma SchemasAgree(a: Document, b: Document)
    requires Map(CanonPersisted, SortedStored(a)) == Map(CanonPersisted, SortedStored(b))
    ensures NewSchemas(a) == NewSchemas(b)
  {
    var ps, qs := SortedStored(a), SortedStored(b);
    forall i | 0 <= i < |ps| ensures SchemaOf(ps[i]) == SchemaOf(qs[i]) {
      assert Map(CanonPersisted, ps)[i] == Map(CanonPersisted, qs)[i];
    }
    assert Map(SchemaOf, ps) == Map(SchemaOf, qs);
  }

  /** The SQL statements, in order, do not depend on declaration order. */
  lemma PostgresIsOrderBlind(a: Document, b: Document)
    requires Reordering(a, b) && WellFormed(a)
    ensures AllEmittable(a) && AllEmittable(b)
    ensures PostgresStatements(a) == PostgresStatements(b)
  {
    AcceptanceIsOrderBlind(a, b);
    Ddl.EmittersTotal(a);
    Ddl.EmittersTotal(b);
    SortedStoredAgree(a, b);
    SchemasAgree(a, b);
    SortedTablesAgree(a, b);
    TargetsAgree(a, b);
    TableStatementsAgree(SortedStored(a), SortedStored(b), ModelMap(a), ModelMap(b));
    ForeignStatementsAgree(SortedStored(a), SortedStored(b), ModelMap(a), ModelMap(b));
  }
}
