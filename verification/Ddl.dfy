/** Running the emitted statements in a catalog that holds only `public`. */
module Ddl {
  import opened Seqs
  import opened Strings
  import opened Json
  import opened Document
  import opened Emit
  import opened Catalog
  import JsonText
  import Naming

  // ----- what a well-formed document guarantees the emitter -----

  lemma ModelFacts(d: Document, m: Model)
    requires WellFormed(d) && m in d
    ensures ModelOk(m) && ModelResolved(m, ModelMap(d))
  {
  }

  lemma ModelFound(d: Document, n: string)
    requires WellFormed(d) && n in ModelMap(d)
    ensures ModelMap(d)[n] in d && ModelMap(d)[n].name == n
  {
    IndexByKeys(NameOfModel, d);
  }

  /** Key fields of a stored model have columns. */
  lemma KeyIsMapped(m: Model, s: Storage, key: seq<string>)
    requires MappingOk(m, s) && Resolves(m, key)
    ensures KeyMapped(s, key)
  {
  }

  lemma ForeignIsMapped(d: Document, p: Persisted, k: ForeignKey)
    requires WellFormed(d) && p in Stored(d) && k in p.storage.foreignKeys
    ensures ForeignMapped(p.storage, k, ModelMap(d))
  {
    ModelFacts(d, p.model);
    assert ReferenceOk(p.model, k, ModelMap(d));
    KeyIsMapped(p.model, p.storage, k.fields);
    var target := ModelMap(d)[k.model];
    ModelFound(d, k.model);
    ModelFacts(d, target);
    KeyIsMapped(target, target.storage.value, k.targetFields);
  }

  /** Every look-up of the emitters is defined. */
  lemma EmitterTotal(d: Document, p: Persisted)
    requires WellFormed(d) && p in Stored(d)
    ensures Emittable(p, ModelMap(d))
  {
    var m, s := p.model, p.storage;
    ModelFacts(d, m);
    forall c | c in s.columns ensures c.field in FieldMap(m) {
      IndexByKeys(FieldOfColumn, s.columns);
      MapIn(FieldOfColumn, s.columns, c);
    }
    assert s.primaryKey in Keys(s);
    KeyIsMapped(m, s, s.primaryKey);
    forall k | k in s.uniqueKeys ensures KeyMapped(s, k) {
      assert k in Keys(s);
      KeyIsMapped(m, s, k);
    }
    forall k | k in s.foreignKeys ensures ForeignMapped(s, k, ModelMap(d)) {
      ForeignIsMapped(d, p, k);
    }
  }

  lemma EmittersTotal(d: Document)
    requires WellFormed(d)
    ensures AllEmittable(d)
  {
    forall p | p in Stored(d) ensures Emittable(p, ModelMap(d)) {
      EmitterTotal(d, p);
    }
  }

  // ----- relation names as bags -----

  /** Models with the same tables and the same bags of index names have the same relations. */
  lemma RelationsPerm(a: seq<Persisted>, b: seq<Persisted>)
    requires Perm(Map(TableId, a), Map(TableId, b))
    requires Perm(Map(Bagged(ModelIndexIds), a), Map(Bagged(ModelIndexIds), b))
    ensures Perm(RelationIds(a), RelationIds(b))
  {
    FlatMapPerm(ModelIndexIds, a, b);
  }

  ghost predicate SameRelations(a: seq<Persisted>, b: seq<Persisted>) {
    && ToSet(RelationIds(a)) == ToSet(RelationIds(b))
    && ToSet(Map(TableId, a)) == ToSet(Map(TableId, b))
  }

  /** Reordering the stored models keeps every relation name, so names stay distinct. */
  lemma ReorderedRelations(a: seq<Persisted>, b: seq<Persisted>)
    requires Perm(a, b) && NoDup(RelationIds(a))
    ensures NoDup(RelationIds(b)) && SameRelations(a, b)
  {
    assert Perm(Map(TableId, a), Map(TableId, b)) && Perm(RelationIds(a), RelationIds(b)) by {
      MapPerm(TableId, a, b);
      MapPerm(Bagged(ModelIndexIds), a, b);
      RelationsPerm(a, b);
    }
    PermNoDup(RelationIds(a), RelationIds(b));
    PermToSet(RelationIds(a), RelationIds(b));
    PermToSet(Map(TableId, a), Map(TableId, b));
  }

  lemma PermToSet<T>(a: seq<T>, b: seq<T>)
    requires Perm(a, b)
    ensures ToSet(a) == ToSet(b)
  {
    PermMembers(a, b);
  }

  lemma SortedRelations(d: Document)
    requires NamesOk(d)
    ensures NoDup(RelationIds(SortedStored(d))) && SameRelations(Stored(d), SortedStored(d))
  {
    SortByCorrect(QualifiedName, Stored(d));
    ReorderedRelations(Stored(d), SortedStored(d));
  }

  // ----- one CREATE TABLE -----

  predicate KeysFit(p: Persisted) {
    forall k | k in Keys(p.storage) :: |k| <= INDEX_MAX_KEYS
  }

  ghost predicate AllKeysFit(d: Document) {
    forall p | p in Stored(d) :: KeysFit(p)
  }

  function TableColumns(p: Persisted): seq<ColumnDef>
    requires ColumnsMapped(p)
  {
    ColumnDefs(FieldMap(p.model), SortedColumns(p.storage))
  }

  function TableKeys(p: Persisted): seq<KeyDef>
    requires KeyMapped(p.storage, p.storage.primaryKey)
    requires forall k | k in p.storage.uniqueKeys :: KeyMapped(p.storage, k)
  {
    KeyDefs(p.storage, SortedUniqueKeys(p.storage))
  }

  lemma DefNames(fields: map<string, Field>, columns: seq<Column>)
    requires forall c | c in columns :: c.field in fields
    ensures Map(NameOfColumnDef, ColumnDefs(fields, columns)) == Map(NameOfColumn, columns)
  {
  }

  /** Columns by name: each column of the mapping, typed by its field. */
  lemma DefsByName(fields: map<string, Field>, columns: seq<Column>)
    requires forall c | c in columns :: c.field in fields
    requires NoDup(Map(NameOfColumn, columns))
    ensures IndexBy(NameOfColumnDef, ColumnDefs(fields, columns)).Keys == ToSet(Map(NameOfColumn, columns))
    ensures forall c | c in columns ::
              c.name in IndexBy(NameOfColumnDef, ColumnDefs(fields, columns)) &&
              IndexBy(NameOfColumnDef, ColumnDefs(fields, columns))[c.name] == ColumnDefOf(c, fields[c.field])
  {
    var defs := ColumnDefs(fields, columns);
    DefNames(fields, columns);
    IndexByKeys(NameOfColumnDef, defs);
    forall c | c in columns
      ensures c.name in IndexBy(NameOfColumnDef, defs)
      ensures IndexBy(NameOfColumnDef, defs)[c.name] == ColumnDefOf(c, fields[c.field])
    {
      var i :| 0 <= i < |columns| && columns[i] == c;
      assert defs[i] == ColumnDefOf(c, fields[c.field]);
      IndexByFinds(NameOfColumnDef, defs, defs[i]);
    }
  }

  lemma SortedColumnNames(s: Storage)
    requires NoDup(Map(NameOfColumn, s.columns))
    ensures NoDup(Map(NameOfColumn, SortedColumns(s)))
    ensures ToSet(Map(NameOfColumn, SortedColumns(s))) == ToSet(Map(NameOfColumn, s.columns))
  {
    var sorted := SortedColumns(s);
    SortByCorrect(NameOfColumn, s.columns);
    MapPerm(NameOfColumn, s.columns, sorted);
    PermNoDup(Map(NameOfColumn, s.columns), Map(NameOfColumn, sorted));
    PermMembers(Map(NameOfColumn, s.columns), Map(NameOfColumn, sorted));
  }

  predicate ColumnsMapped(p: Persisted) {
    forall c | c in p.storage.columns :: c.field in FieldMap(p.model)
  }

  ghost predicate ColumnIs(p: Persisted, columns: map<string, ColumnDef>, c: Column)
    requires c.field in FieldMap(p.model)
  {
    c.name in columns && columns[c.name] == ColumnDefOf(c, FieldMap(p.model)[c.field])
  }

  lemma ColumnsByName(p: Persisted)
    requires MappingOk(p.model, p.storage) && ColumnsMapped(p)
    ensures NoDup(Map(NameOfColumnDef, TableColumns(p)))
    ensures IndexBy(NameOfColumnDef, TableColumns(p)).Keys == ToSet(Map(NameOfColumn, p.storage.columns))
    ensures forall c | c in p.storage.columns :: ColumnIs(p, IndexBy(NameOfColumnDef, TableColumns(p)), c)
  {
    SortedColumnNames(p.storage);
    DefNames(FieldMap(p.model), SortedColumns(p.storage));
    DefsByName(FieldMap(p.model), SortedColumns(p.storage));
  }

  lemma ColumnBecomesLegal(c: Column, f: Field)
    requires ColumnOk(c) && FieldOk(f) && c.name !in SYSTEM_COLUMNS
    ensures ColumnLegal(ColumnDefOf(c, f))
  {
  }

  lemma ColumnsLegal(p: Persisted)
    requires ModelOk(p.model) && p.model.storage == Some(p.storage)
    requires MappingOk(p.model, p.storage) && ColumnsMapped(p)
    ensures forall x | x in TableColumns(p) :: ColumnLegal(x)
  {
    var defs, sorted := TableColumns(p), SortedColumns(p.storage);
    IndexByKeys(NameOfField, p.model.fields);
    forall x | x in defs ensures ColumnLegal(x) {
      var i :| 0 <= i < |defs| && defs[i] == x;
      assert sorted[i] in p.storage.columns;
      ColumnBecomesLegal(sorted[i], FieldMap(p.model)[sorted[i].field]);
    }
  }

  lemma ColumnFor(s: Storage, n: string)
    requires n in ColumnMap(s)
    ensures ColumnMap(s)[n] in s.columns && ColumnMap(s)[n].field == n
  {
    IndexByKeys(FieldOfColumn, s.columns);
  }

  /** Distinct fields have distinct columns. */
  lemma KeyColumnsDistinct(s: Storage, key: seq<string>)
    requires NoDup(Map(NameOfColumn, s.columns)) && KeyMapped(s, key) && NoDup(key)
    ensures NoDup(ColumnNames(s, key))
  {
    var names := ColumnNames(s, key);
    forall i, j | 0 <= i < j < |names| ensures names[i] != names[j] {
      ColumnFor(s, key[i]);
      ColumnFor(s, key[j]);
      if names[i] == names[j] {
        KeyInjective(NameOfColumn, s.columns, ColumnMap(s)[key[i]], ColumnMap(s)[key[j]]);
      }
    }
  }

  lemma KeyColumnsExist(s: Storage, key: seq<string>)
    requires KeyMapped(s, key)
    ensures forall n | n in ColumnNames(s, key) :: n in Map(NameOfColumn, s.columns)
  {
    var names := ColumnNames(s, key);
    forall n | n in names ensures n in Map(NameOfColumn, s.columns) {
      var i :| 0 <= i < |names| && names[i] == n;
      ColumnFor(s, key[i]);
      MapIn(NameOfColumn, s.columns, ColumnMap(s)[key[i]]);
    }
  }

  lemma NameLength(schema: string, table: string, kind: Naming.Kind, identity: JsonText.Term)
    ensures |Naming.ConstraintName(schema, table, kind, identity)| == 27
  {
    var h := Naming.Hash(Naming.OFFSET, Naming.NameSource(schema, table, kind, identity));
    Naming.NameFaithful(kind, h, kind, h);
  }

  /** The facts about one stored model that make its table legal. */
  ghost predicate TableReady(p: Persisted) {
    && ModelOk(p.model) && p.model.storage == Some(p.storage)
    && MappingOk(p.model, p.storage) && KeysOk(p.model, p.storage)
    && ColumnsMapped(p)
    && KeyMapped(p.storage, p.storage.primaryKey)
    && (forall k | k in p.storage.uniqueKeys :: KeyMapped(p.storage, k))
  }

  lemma Ready(d: Document, p: Persisted)
    requires WellFormed(d) && p in Stored(d)
    ensures TableReady(p)
  {
    ModelFacts(d, p.model);
    EmitterTotal(d, p);
  }

  /** A key becomes a legal constraint exactly when it has at most 32 columns. */
  lemma KeyBecomesLegal(p: Persisted, kind: Naming.Kind, key: seq<string>, columns: map<string, ColumnDef>)
    requires FieldListOk(key) && KeyMapped(p.storage, key)
    requires NoDup(Map(NameOfColumn, p.storage.columns))
    requires columns.Keys == ToSet(Map(NameOfColumn, p.storage.columns))
    ensures KeyLegal(KeyDefOf(p.storage, kind, key), columns) <==> |key| <= INDEX_MAX_KEYS
  {
    KeyColumnsDistinct(p.storage, key);
    KeyColumnsExist(p.storage, key);
    NameLength(p.storage.schema, p.storage.table, kind, JsonText.List(JsonText.Texts(key)));
  }

  lemma KeysLegal(p: Persisted)
    requires TableReady(p)
    ensures (forall k | k in TableKeys(p) :: KeyLegal(k, IndexBy(NameOfColumnDef, TableColumns(p))))
       <==> KeysFit(p)
  {
    var s, columns := p.storage, IndexBy(NameOfColumnDef, TableColumns(p));
    KeysBecomeLegal(p, columns);
    EachKey(s, columns);
    EachKeyFits(p);
  }

  lemma EachKeyFits(p: Persisted)
    ensures KeysFit(p) <==> |p.storage.primaryKey| <= INDEX_MAX_KEYS && forall k | k in p.storage.uniqueKeys :: |k| <= INDEX_MAX_KEYS
  {
  }

  lemma KeysBecomeLegal(p: Persisted, columns: map<string, ColumnDef>)
    requires TableReady(p) && columns == IndexBy(NameOfColumnDef, TableColumns(p))
    ensures KeyLegal(KeyDefOf(p.storage, Naming.PrimaryKey, p.storage.primaryKey), columns) <==>
              |p.storage.primaryKey| <= INDEX_MAX_KEYS
    ensures forall k | k in p.storage.uniqueKeys ::
              KeyLegal(KeyDefOf(p.storage, Naming.UniqueKey, k), columns) <==> |k| <= INDEX_MAX_KEYS
  {
    var s := p.storage;
    ColumnsByName(p);
    KeyBecomesLegal(p, Naming.PrimaryKey, s.primaryKey, columns);
    forall k | k in s.uniqueKeys
      ensures KeyLegal(KeyDefOf(s, Naming.UniqueKey, k), columns) <==> |k| <= INDEX_MAX_KEYS
    {
      KeyBecomesLegal(p, Naming.UniqueKey, k, columns);
    }
  }

  lemma EachKey(s: Storage, columns: map<string, ColumnDef>)
    requires KeyMapped(s, s.primaryKey) && forall k | k in s.uniqueKeys :: KeyMapped(s, k)
    ensures (forall k | k in KeyDefs(s, SortedUniqueKeys(s)) :: KeyLegal(k, columns)) <==>
            KeyLegal(KeyDefOf(s, Naming.PrimaryKey, s.primaryKey), columns) &&
            forall k | k in s.uniqueKeys :: KeyLegal(KeyDefOf(s, Naming.UniqueKey, k), columns)
  {
    var defs := KeyDefs(s, SortedUniqueKeys(s));
    assert defs[0] in defs;
    forall k | k in s.uniqueKeys ensures KeyDefOf(s, Naming.UniqueKey, k) in defs {
      UniqueDefPresent(s, k);
    }
    forall x | x in defs && !KeyLegal(x, columns)
      ensures x == defs[0] || exists k :: k in s.uniqueKeys && !KeyLegal(KeyDefOf(s, Naming.UniqueKey, k), columns)
    {
      if x != defs[0] {
        var k := UniqueDefOrigin(s, x);
      }
    }
  }

  lemma UniqueDefPresent(s: Storage, k: seq<string>)
    requires KeyMapped(s, s.primaryKey) && forall k | k in s.uniqueKeys :: KeyMapped(s, k)
    requires k in s.uniqueKeys
    ensures KeyDefOf(s, Naming.UniqueKey, k) in KeyDefs(s, SortedUniqueKeys(s))
  {
    var sorted, defs := SortedUniqueKeys(s), KeyDefs(s, SortedUniqueKeys(s));
    var i :| 0 <= i < |sorted| && sorted[i] == k;
    assert defs[i + 1] in defs;
  }

  lemma UniqueDefOrigin(s: Storage, x: KeyDef) returns (k: seq<string>)
    requires KeyMapped(s, s.primaryKey) && forall k | k in s.uniqueKeys :: KeyMapped(s, k)
    requires x in KeyDefs(s, SortedUniqueKeys(s)) && x != KeyDefs(s, SortedUniqueKeys(s))[0]
    ensures k in s.uniqueKeys && x == KeyDefOf(s, Naming.UniqueKey, k)
  {
    var sorted, defs := SortedUniqueKeys(s), KeyDefs(s, SortedUniqueKeys(s));
    var i :| 0 <= i < |defs| && defs[i] == x;
    k := sorted[i - 1];
  }

  /** The emitted key names are the generated index names, in another order. */
  lemma EmittedNames(s: Storage)
    requires KeyMapped(s, s.primaryKey) && forall k | k in s.uniqueKeys :: KeyMapped(s, k)
    ensures Perm(IndexNames(s), Map(NameOfKeyDef, KeyDefs(s, SortedUniqueKeys(s))))
    ensures Perm(InSchema(s.schema, IndexNames(s)),
                 InSchema(s.schema, Map(NameOfKeyDef, KeyDefs(s, SortedUniqueKeys(s)))))
  {
    EmittedNamesPerm(s);
    InSchemaPerm(s.schema, IndexNames(s), Map(NameOfKeyDef, KeyDefs(s, SortedUniqueKeys(s))));
  }

  lemma EmittedNamesPerm(s: Storage)
    requires KeyMapped(s, s.primaryKey) && forall k | k in s.uniqueKeys :: KeyMapped(s, k)
    ensures Perm(IndexNames(s), Map(NameOfKeyDef, KeyDefs(s, SortedUniqueKeys(s))))
  {
    var sorted := SortedUniqueKeys(s);
    SortByCorrect(NulJoin, s.uniqueKeys);
    MapPerm(NamerOf(s), s.uniqueKeys, sorted);
    NamedKeys(s, s.uniqueKeys);
    NamedKeyDefs(s, sorted);
    ConsPerm(KeyName(s, Naming.PrimaryKey, s.primaryKey), UniqueNames(s, s.uniqueKeys), Map(NamerOf(s), sorted));
  }

  function NamerOf(s: Storage): seq<string> -> string { (k: seq<string>) => KeyName(s, Naming.UniqueKey, k) }

  lemma NamedKeys(s: Storage, keys: seq<seq<string>>)
    ensures UniqueNames(s, keys) == Map(NamerOf(s), keys)
  {
  }

  lemma NamedKeyDefs(s: Storage, keys: seq<seq<string>>)
    requires KeyMapped(s, s.primaryKey) && forall k | k in keys :: KeyMapped(s, k)
    ensures Map(NameOfKeyDef, KeyDefs(s, keys)) == [KeyName(s, Naming.PrimaryKey, s.primaryKey)] + Map(NamerOf(s), keys)
  {
    var defs := UniqueDefs(s, keys);
    MapCons(NameOfKeyDef, [KeyDefOf(s, Naming.PrimaryKey, s.primaryKey)] + defs);
    assert Map(NameOfKeyDef, defs) == Map(NamerOf(s), keys);
  }

  lemma ConsPerm<T>(x: T, a: seq<T>, b: seq<T>)
    requires Perm(a, b)
    ensures Perm([x] + a, [x] + b)
  {
  }

  lemma InSchemaPerm(schema: string, a: seq<string>, b: seq<string>)
    requires Perm(a, b)
    ensures Perm(InSchema(schema, a), InSchema(schema, b))
  {
    var g := (n: string) => (schema, n);
    MapPerm(g, a, b);
    assert Map(g, a) == InSchema(schema, a) && Map(g, b) == InSchema(schema, b);
  }

  // ----- CREATE TABLE, one after another -----

  function BaseTable(p: Persisted): Table
    requires ColumnsMapped(p) && KeyMapped(p.storage, p.storage.primaryKey)
    requires forall k | k in p.storage.uniqueKeys :: KeyMapped(p.storage, k)
  {
    Table(IndexBy(NameOfColumnDef, TableColumns(p)), IndexBy(NameOfKeyDef, TableKeys(p)), map[])
  }

  /** The primary key adds no NOT NULL that the document did not declare. */
  lemma NothingSilentlyNotNull(p: Persisted)
    requires TableReady(p)
    ensures Effective(IndexBy(NameOfColumnDef, TableColumns(p)), TableKeys(p))
         == IndexBy(NameOfColumnDef, TableColumns(p))
  {
    var columns, keys := IndexBy(NameOfColumnDef, TableColumns(p)), TableKeys(p);
    forall n, k | n in columns && k in keys && k.primary && n in k.columns
      ensures columns[n].notNull
    {
      PrimaryColumnsNotNull(p, k, n);
    }
    EffectiveUnchanged(columns, keys);
  }

  lemma EffectiveUnchanged(columns: map<string, ColumnDef>, keys: seq<KeyDef>)
    requires forall n, k | n in columns && k in keys && k.primary && n in k.columns :: columns[n].notNull
    ensures Effective(columns, keys) == columns
  {
  }

  lemma PrimaryColumnsNotNull(p: Persisted, k: KeyDef, n: string)
    requires TableReady(p) && k in TableKeys(p) && k.primary && n in k.columns
    ensures n in IndexBy(NameOfColumnDef, TableColumns(p))
    ensures IndexBy(NameOfColumnDef, TableColumns(p))[n].notNull
  {
    var s := p.storage;
    if k != TableKeys(p)[0] {
      var u := UniqueDefOrigin(s, k);
      assert false;
    }
    var i :| 0 <= i < |k.columns| && k.columns[i] == n;
    var f := s.primaryKey[i];
    ColumnFor(s, f);
    ColumnsByName(p);
    assert ColumnIs(p, IndexBy(NameOfColumnDef, TableColumns(p)), ColumnMap(s)[f]);
    assert !FieldMap(p.model)[f].nullable;
  }

  function OwnRelations(p: Persisted): seq<Relation> {
    [TableId(p)] + ModelIndexIds(p)
  }

  lemma CreatedRelations(p: Persisted)
    requires TableReady(p)
    ensures Perm(OwnRelations(p), Created(p))
  {
    EmittedNames(p.storage);
  }

  function Created(p: Persisted): seq<Relation>
    requires KeyMapped(p.storage, p.storage.primaryKey)
    requires forall k | k in p.storage.uniqueKeys :: KeyMapped(p.storage, k)
  {
    [TableId(p)] + InSchema(p.storage.schema, Map(NameOfKeyDef, TableKeys(p)))
  }

  lemma CreatedFresh(p: Persisted)
    requires TableReady(p) && NoDup(OwnRelations(p))
    ensures NoDup(Created(p)) && ToSet(Created(p)) == ToSet(OwnRelations(p))
  {
    CreatedRelations(p);
    PermNoDup(OwnRelations(p), Created(p));
    PermMembers(OwnRelations(p), Created(p));
  }

  lemma OnePrimaryKey(p: Persisted)
    requires TableReady(p)
    ensures forall i, j | 0 <= i < j < |TableKeys(p)| :: !(TableKeys(p)[i].primary && TableKeys(p)[j].primary)
  {
  }

  lemma TableBecomesLegal(p: Persisted, c: Catalog)
    requires TableReady(p) && p.storage.schema in c.schemas
    requires NoDup(OwnRelations(p)) && ToSet(OwnRelations(p)) !! c.relations
    ensures TableLegal(c, TableId(p), TableColumns(p), TableKeys(p)) <==> KeysFit(p)
  {
    CreatedFresh(p);
    OnePrimaryKey(p);
    ColumnsLegal(p);
    KeysLegal(p);
    assert NoDup(Map(NameOfColumnDef, TableColumns(p))) by {
      ColumnsByName(p);
    }
  }

  /** A table is created exactly when its keys fit, and then it is the table the model describes. */
  lemma CreateTableRuns(p: Persisted, c: Catalog)
    requires TableReady(p) && p.storage.schema in c.schemas
    requires NoDup(OwnRelations(p)) && ToSet(OwnRelations(p)) !! c.relations
    ensures Exec(c, CreateTable(TableId(p), TableColumns(p), TableKeys(p))) ==
            if KeysFit(p) then
              Some(Catalog(c.schemas, c.relations + ToSet(OwnRelations(p)), c.tables[TableId(p) := BaseTable(p)]))
            else None
  {
    TableBecomesLegal(p, c);
    NothingSilentlyNotNull(p);
    CreatedFresh(p);
  }

  // ----- a list of CREATE TABLE statements -----

  /** One table to create, the relations it brings, and whether it can be created at all. */
  datatype Plan = Plan(create: Statement, relations: seq<Relation>, table: Relation, result: Table, fits: bool)

  function After(c: Catalog, x: Plan): Catalog {
    c.(relations := c.relations + ToSet(x.relations), tables := c.tables[x.table := x.result])
  }

  ghost predicate PlanRuns(x: Plan) {
    forall c: Catalog | x.table.0 in c.schemas && ToSet(x.relations) !! c.relations ::
      Exec(c, x.create) == if x.fits then Some(After(c, x)) else None
  }

  function CreateOf(x: Plan): Statement { x.create }

  function RelationsOfPlan(x: Plan): seq<Relation> { x.relations }

  function PlannedRelations(xs: seq<Plan>): seq<Relation> {
    FlatMap(RelationsOfPlan, xs)
  }

  function AfterAll(c: Catalog, xs: seq<Plan>): Catalog {
    if xs == [] then c else After(AfterAll(c, xs[..|xs| - 1]), xs[|xs| - 1])
  }

  lemma {:induction false} AfterAllRelations(c: Catalog, xs: seq<Plan>)
    ensures AfterAll(c, xs).schemas == c.schemas
    ensures AfterAll(c, xs).relations == c.relations + ToSet(PlannedRelations(xs))
  {
    if xs == [] {
      assert ToSet(PlannedRelations(xs)) == {};
    } else {
      AfterAllRelations(c, xs[..|xs| - 1]);
    }
  }

  /** All tables are created exactly when every plan fits. */
  lemma {:induction false} PlansRun(c: Catalog, xs: seq<Plan>)
    requires forall x | x in xs :: PlanRuns(x) && x.table.0 in c.schemas
    requires NoDup(PlannedRelations(xs)) && ToSet(PlannedRelations(xs)) !! c.relations
    ensures Run(c, Map(CreateOf, xs)) ==
            if forall x | x in xs :: x.fits then Some(AfterAll(c, xs)) else None
  {
    if xs != [] {
      var rest, x := xs[..|xs| - 1], xs[|xs| - 1];
      assert xs == rest + [x];
      CreateSnoc(rest, x);
      NoDupAppend(PlannedRelations(rest), x.relations);
      PlansRun(c, rest);
      RunSnoc(c, Map(CreateOf, rest), x.create);
      AfterAllRelations(c, rest);
      assert PlanRuns(x);
    }
  }

  lemma CreateSnoc(rest: seq<Plan>, x: Plan)
    ensures Map(CreateOf, rest + [x]) == Map(CreateOf, rest) + [x.create]
  {
    MapAppend(CreateOf, rest, [x]);
  }

  ghost function PlanOf(p: Persisted): Plan
    requires TableReady(p)
  {
    Plan(CreateTable(TableId(p), TableColumns(p), TableKeys(p)), OwnRelations(p), TableId(p), BaseTable(p), KeysFit(p))
  }

  lemma PlanOfRuns(p: Persisted)
    requires TableReady(p) && NoDup(OwnRelations(p))
    ensures PlanRuns(PlanOf(p))
  {
    var x := PlanOf(p);
    forall c: Catalog | x.table.0 in c.schemas && ToSet(x.relations) !! c.relations
      ensures Exec(c, x.create) == if x.fits then Some(After(c, x)) else None
    {
      CreateTableRuns(p, c);
    }
  }

  /** The relations listed table by table. */
  function OwnAll(ps: seq<Persisted>): seq<Relation> {
    FlatMap(OwnRelations, ps)
  }

  lemma OwnIsGenerated(ps: seq<Persisted>)
    ensures Perm(RelationIds(ps), OwnAll(ps))
  {
    FlatMapRegroup(TableId, ModelIndexIds, OwnRelations, ps);
  }

  // ----- a list of ALTER TABLE ... ADD CONSTRAINT statements -----

  /** The foreign keys of one table. */
  datatype Batch = Batch(owner: Relation, defs: seq<ForeignDef>)

  function OwnerOf(b: Batch): Relation { b.owner }

  function WithForeigns(c: Catalog, owner: Relation, defs: seq<ForeignDef>): Catalog {
    if owner !in c.tables then c
    else c.(tables := c.tables[owner := c.tables[owner].(foreigns := IndexBy(NameOfForeignDef, defs))])
  }

  lemma ReferenceKept(c: Catalog, owner: Relation, defs: seq<ForeignDef>, at: Relation, f: ForeignDef)
    requires ReferenceLegal(c, at, f)
    ensures ReferenceLegal(WithForeigns(c, owner, defs), at, f)
  {
    var c' := WithForeigns(c, owner, defs);
    assert c'.tables[at].columns == c.tables[at].columns && c'.tables[at].keys == c.tables[at].keys;
    assert c'.tables[f.target].columns == c.tables[f.target].columns;
    assert c'.tables[f.target].keys == c.tables[f.target].keys;
  }

  lemma AddSnoc(owner: Relation, rest: seq<ForeignDef>, f: ForeignDef)
    ensures AddAll(owner, rest + [f]) == AddAll(owner, rest) + [AddForeignKey(owner, f)]
  {
  }

  lemma NewName(rest: seq<ForeignDef>, f: ForeignDef)
    requires NoDup(Map(NameOfForeignDef, rest + [f]))
    ensures NoDup(Map(NameOfForeignDef, rest)) && f.name !in Map(NameOfForeignDef, rest)
  {
    MapAppend(NameOfForeignDef, rest, [f]);
    assert Map(NameOfForeignDef, [f]) == [f.name];
    NoDupSnoc(Map(NameOfForeignDef, rest), f.name);
  }

  lemma {:induction false} BatchRuns(c: Catalog, owner: Relation, defs: seq<ForeignDef>)
    requires owner in c.tables && c.tables[owner].foreigns == map[]
    requires NoDup(Map(NameOfForeignDef, defs))
    requires forall f | f in defs :: ReferenceLegal(c, owner, f)
    ensures Run(c, AddAll(owner, defs)) == Some(WithForeigns(c, owner, defs))
  {
    if defs == [] {
      assert WithForeigns(c, owner, defs) == c;
    } else {
      var rest, f := defs[..|defs| - 1], defs[|defs| - 1];
      assert defs == rest + [f];
      NewName(rest, f);
      BatchRuns(c, owner, rest);
      AddSnoc(owner, rest, f);
      RunSnoc(c, AddAll(owner, rest), AddForeignKey(owner, f));
      NextForeign(c, owner, rest, f);
    }
  }

  lemma NextForeign(c: Catalog, owner: Relation, rest: seq<ForeignDef>, f: ForeignDef)
    requires ReferenceLegal(c, owner, f) && f.name !in Map(NameOfForeignDef, rest)
    ensures Exec(WithForeigns(c, owner, rest), AddForeignKey(owner, f)) == Some(WithForeigns(c, owner, rest + [f]))
  {
    var c', old' := WithForeigns(c, owner, rest), IndexBy(NameOfForeignDef, rest);
    assert ForeignLegal(c', owner, f) by {
      ReferenceKept(c, owner, rest, owner, f);
      IndexByKeys(NameOfForeignDef, rest);
    }
    assert IndexBy(NameOfForeignDef, rest + [f]) == old'[f.name := f] by {
      assert (rest + [f])[..|rest|] == rest;
    }
    TwiceUpdated(c, owner, old', old'[f.name := f]);
  }

  lemma TwiceUpdated(c: Catalog, owner: Relation, a: map<string, ForeignDef>, b: map<string, ForeignDef>)
    requires owner in c.tables
    ensures var c' := c.(tables := c.tables[owner := c.tables[owner].(foreigns := a)]);
            c'.(tables := c'.tables[owner := c'.tables[owner].(foreigns := b)]) ==
            c.(tables := c.tables[owner := c.tables[owner].(foreigns := b)])
  {
    assert c.tables[owner := c.tables[owner].(foreigns := a)][owner := c.tables[owner].(foreigns := b)] ==
           c.tables[owner := c.tables[owner].(foreigns := b)];
  }

  function AddBatches(bs: seq<Batch>): seq<Statement> {
    if bs == [] then [] else AddBatches(bs[..|bs| - 1]) + AddAll(bs[|bs| - 1].owner, bs[|bs| - 1].defs)
  }

  function AfterBatches(c: Catalog, bs: seq<Batch>): Catalog {
    if bs == [] then c
    else WithForeigns(AfterBatches(c, bs[..|bs| - 1]), bs[|bs| - 1].owner, bs[|bs| - 1].defs)
  }

  ghost predicate BatchLegal(c: Catalog, b: Batch) {
    && b.owner in c.tables && c.tables[b.owner].foreigns == map[]
    && NoDup(Map(NameOfForeignDef, b.defs))
    && forall f | f in b.defs :: ReferenceLegal(c, b.owner, f)
  }

  lemma BatchKept(c: Catalog, other: Batch, b: Batch)
    requires BatchLegal(c, b) && other.owner != b.owner
    ensures BatchLegal(WithForeigns(c, other.owner, other.defs), b)
  {
    forall f | f in b.defs ensures ReferenceLegal(WithForeigns(c, other.owner, other.defs), b.owner, f) {
      ReferenceKept(c, other.owner, other.defs, b.owner, f);
    }
  }

  lemma {:induction false} BatchesKeep(c: Catalog, bs: seq<Batch>, b: Batch)
    requires BatchLegal(c, b) && b.owner !in Map(OwnerOf, bs)
    ensures BatchLegal(AfterBatches(c, bs), b)
  {
    if bs != [] {
      var rest, last := bs[..|bs| - 1], bs[|bs| - 1];
      assert bs == rest + [last];
      OtherOwners(rest, last, b.owner);
      BatchesKeep(c, rest, b);
      BatchKept(AfterBatches(c, rest), last, b);
    }
  }

  lemma OtherOwners(rest: seq<Batch>, last: Batch, owner: Relation)
    requires owner !in Map(OwnerOf, rest + [last])
    ensures owner !in Map(OwnerOf, rest) && owner != last.owner
  {
    MapAppend(OwnerOf, rest, [last]);
    assert Map(OwnerOf, [last]) == [last.owner];
  }

  /** Foreign keys whose references were legal before the first one are all added. */
  lemma {:induction false} BatchesRun(c: Catalog, bs: seq<Batch>)
    requires NoDup(Map(OwnerOf, bs))
    requires forall b | b in bs :: BatchLegal(c, b)
    ensures Run(c, AddBatches(bs)) == Some(AfterBatches(c, bs))
  {
    if bs != [] {
      var rest, b := bs[..|bs| - 1], bs[|bs| - 1];
      assert bs == rest + [b];
      MapAppend(OwnerOf, rest, [b]);
      assert Map(OwnerOf, [b]) == [b.owner];
      NoDupSnoc(Map(OwnerOf, rest), b.owner);
      BatchesRun(c, rest);
      BatchesKeep(c, rest, b);
      BatchRuns(AfterBatches(c, rest), b.owner, b.defs);
      RunAppend(c, AddBatches(rest), AddAll(b.owner, b.defs));
    }
  }

  // ----- the foreign keys of a well-formed document -----

  lemma KeyNamesDistinct(p: Persisted)
    requires TableReady(p) && NoDup(OwnRelations(p))
    ensures NoDup(Map(NameOfKeyDef, TableKeys(p)))
    ensures ToSet(Map(NameOfKeyDef, TableKeys(p))) == ToSet(IndexNames(p.storage))
  {
    CreatedFresh(p);
    var names := Map(NameOfKeyDef, TableKeys(p));
    var rels := InSchema(p.storage.schema, names);
    NoDupAppend([TableId(p)], rels);
    forall i, j | 0 <= i < j < |names| ensures names[i] != names[j] {
      assert rels[i] != rels[j];
    }
    EmittedNames(p.storage);
    PermMembers(IndexNames(p.storage), names);
  }

  /** Every declared key is a key of the created table, with its columns in order. */
  lemma KeyDefFor(p: Persisted, key: seq<string>) returns (n: string)
    requires TableReady(p) && NoDup(OwnRelations(p)) && key in Keys(p.storage)
    ensures KeyMapped(p.storage, key)
    ensures n in BaseTable(p).keys && BaseTable(p).keys[n].columns == ColumnNames(p.storage, key)
  {
    var defs := TableKeys(p);
    var x := defs[0];
    if key != p.storage.primaryKey {
      x := KeyDefOf(p.storage, Naming.UniqueKey, key);
      UniqueDefPresent(p.storage, key);
    }
    assert x in defs;
    KeyNamesDistinct(p);
    IndexByFinds(NameOfKeyDef, defs, x);
    n := x.name;
  }

  lemma ColumnOfField(p: Persisted, n: string)
    requires MappingOk(p.model, p.storage) && ColumnsMapped(p)
    requires KeyMapped(p.storage, p.storage.primaryKey)
    requires forall k | k in p.storage.uniqueKeys :: KeyMapped(p.storage, k)
    requires n in ColumnMap(p.storage)
    ensures n in FieldMap(p.model) && ColumnMap(p.storage)[n].name in BaseTable(p).columns
    ensures BaseTable(p).columns[ColumnMap(p.storage)[n].name].scalar == FieldMap(p.model)[n].scalar
  {
    ColumnFor(p.storage, n);
    ColumnsByName(p);
    assert ColumnIs(p, IndexBy(NameOfColumnDef, TableColumns(p)), ColumnMap(p.storage)[n]);
  }

  /** Field `i` of the key is stored in a column of its type. */
  ghost predicate Placed(p: Persisted, key: seq<string>, i: nat)
    requires ColumnsMapped(p) && KeyMapped(p.storage, p.storage.primaryKey)
    requires forall k | k in p.storage.uniqueKeys :: KeyMapped(p.storage, k)
    requires KeyMapped(p.storage, key) && i < |key|
  {
    && key[i] in FieldMap(p.model)
    && ColumnNames(p.storage, key)[i] in BaseTable(p).columns
    && BaseTable(p).columns[ColumnNames(p.storage, key)[i]].scalar == FieldMap(p.model)[key[i]].scalar
  }

  lemma ColumnsOfFields(p: Persisted, key: seq<string>)
    requires TableReady(p) && KeyMapped(p.storage, key)
    ensures forall i | 0 <= i < |key| :: Placed(p, key, i)
  {
    forall i | 0 <= i < |key| ensures Placed(p, key, i) {
      ColumnAt(p, key, i);
    }
  }

  lemma ColumnAt(p: Persisted, key: seq<string>, i: nat)
    requires MappingOk(p.model, p.storage) && ColumnsMapped(p)
    requires KeyMapped(p.storage, p.storage.primaryKey)
    requires forall k | k in p.storage.uniqueKeys :: KeyMapped(p.storage, k)
    requires KeyMapped(p.storage, key) && i < |key|
    ensures Placed(p, key, i)
  {
    ColumnOfField(p, key[i]);
  }

  /** The checked reference of a document is a legal reference between the created tables. */
  lemma ReferenceBecomesLegal(c: Catalog, p: Persisted, k: ForeignKey, q: Persisted)
    requires TableReady(p) && TableReady(q) && NoDup(OwnRelations(p)) && NoDup(OwnRelations(q)) && KeysFit(q)
    requires ForeignKeyOk(k) && KeyMapped(p.storage, k.fields) && KeyMapped(q.storage, k.targetFields)
    requires Aligned(p.model, k, q)
    requires ForeignName(p.storage, k, q.storage) !in IndexNames(p.storage)
    requires TableId(p) in c.tables && c.tables[TableId(p)] == BaseTable(p)
    requires TableId(q) in c.tables && c.tables[TableId(q)] == BaseTable(q)
    ensures ReferenceLegal(c, TableId(p), ForeignDefOf(p.storage, k, q.storage))
  {
    var f := ForeignDefOf(p.storage, k, q.storage);
    assert |f.name| == 27 by {
      NameLength(p.storage.schema, p.storage.table, Naming.Foreign, ForeignIdentity(k, q.storage));
    }
    assert f.name !in BaseTable(p).keys by {
      KeyNamesDistinct(p);
      IndexByKeys(NameOfKeyDef, TableKeys(p));
    }
    ColumnsExistAndAgree(p, k, q);
    assert NoDup(f.targetColumns) by {
      KeyColumnsDistinct(q.storage, k.targetFields);
    }
    var n := KeyDefFor(q, k.targetFields);
    ReferencePieces(c, TableId(p), f, n);
  }

  lemma ColumnsExistAndAgree(p: Persisted, k: ForeignKey, q: Persisted)
    requires TableReady(p) && TableReady(q)
    requires KeyMapped(p.storage, k.fields) && KeyMapped(q.storage, k.targetFields)
    requires Aligned(p.model, k, q)
    ensures var f := ForeignDefOf(p.storage, k, q.storage);
            forall i | 0 <= i < |k.fields| ::
              f.columns[i] in BaseTable(p).columns && f.targetColumns[i] in BaseTable(q).columns &&
              BaseTable(p).columns[f.columns[i]].scalar == BaseTable(q).columns[f.targetColumns[i]].scalar
  {
    ColumnsOfFields(p, k.fields);
    ColumnsOfFields(q, k.targetFields);
    forall i | 0 <= i < |k.fields|
      ensures ColumnNames(p.storage, k.fields)[i] in BaseTable(p).columns
      ensures ColumnNames(q.storage, k.targetFields)[i] in BaseTable(q).columns
      ensures BaseTable(p).columns[ColumnNames(p.storage, k.fields)[i]].scalar ==
                BaseTable(q).columns[ColumnNames(q.storage, k.targetFields)[i]].scalar
    {
      assert Placed(p, k.fields, i) && Placed(q, k.targetFields, i);
    }
  }

  lemma ReferencePieces(c: Catalog, owner: Relation, f: ForeignDef, n: string)
    requires owner in c.tables && f.target in c.tables
    requires |f.name| == 27 && f.name !in c.tables[owner].keys
    requires 1 <= |f.columns| == |f.targetColumns| <= INDEX_MAX_KEYS && NoDup(f.targetColumns)
    requires forall i | 0 <= i < |f.columns| ::
               f.columns[i] in c.tables[owner].columns && f.targetColumns[i] in c.tables[f.target].columns &&
               c.tables[owner].columns[f.columns[i]].scalar == c.tables[f.target].columns[f.targetColumns[i]].scalar
    requires n in c.tables[f.target].keys && c.tables[f.target].keys[n].columns == f.targetColumns
    ensures ReferenceLegal(c, owner, f)
  {
  }

  // ----- the whole document -----

  predicate SchemaLegal(s: string) {
    !ReservedSchema(s) && 1 <= |s| <= NAME_MAX
  }

  /** New, legal schemas are all created. */
  function WithSchemas(c: Catalog, schemas: set<string>): Catalog { c.(schemas := c.schemas + schemas) }

  lemma {:induction false} SchemasRun(c: Catalog, schemas: seq<string>)
    requires NoDup(schemas)
    requires forall s | s in schemas :: s !in c.schemas && SchemaLegal(s)
    ensures Run(c, Map(SchemaStatement, schemas)) == Some(WithSchemas(c, ToSet(schemas)))
  {
    if schemas == [] {
      NoSchemas(c);
      assert ToSet(schemas) == {} && Map(SchemaStatement, schemas) == [];
    } else {
      var rest, s := schemas[..|schemas| - 1], schemas[|schemas| - 1];
      assert schemas == rest + [s] && s in schemas;
      NoDupSnoc(rest, s);
      SchemasRun(c, rest);
      SchemaSnoc(rest, s);
      RunSnoc(c, Map(SchemaStatement, rest), CreateSchema(s));
      NextSchema(c, ToSet(rest), s);
    }
  }

  lemma NoSchemas(c: Catalog)
    ensures WithSchemas(c, {}) == c
  {
    assert c.schemas + {} == c.schemas;
  }

  lemma SchemaSnoc(rest: seq<string>, s: string)
    ensures Map(SchemaStatement, rest + [s]) == Map(SchemaStatement, rest) + [CreateSchema(s)]
    ensures ToSet(rest + [s]) == ToSet(rest) + {s}
  {
    MapAppend(SchemaStatement, rest, [s]);
  }

  lemma NextSchema(c: Catalog, before: set<string>, s: string)
    requires s !in c.schemas && s !in before && SchemaLegal(s)
    ensures Exec(WithSchemas(c, before), CreateSchema(s)) == Some(WithSchemas(c, before + {s}))
  {
    assert c.schemas + before + {s} == c.schemas + (before + {s});
  }

  ghost function SchemaNames(d: Document): set<string> {
    set p | p in Stored(d) :: SchemaOf(p)
  }

  lemma NewSchemasAre(d: Document)
    ensures NoDup(NewSchemas(d))
    ensures forall s :: s in NewSchemas(d) <==> s in SchemaNames(d) && NotPublic(s)
  {
    var names := Distinct(Map(SchemaOf, SortedStored(d)));
    var sorted := SortBy(Self, names);
    SortByCorrect(Self, names);
    PermNoDup(names, sorted);
    PermMembers(names, sorted);
    forall s ensures s in names <==> s in SchemaNames(d) {
      if s in names {
        var p := MapInInverse(SchemaOf, SortedStored(d), s);
      }
      if s in SchemaNames(d) {
        var p :| p in Stored(d) && SchemaOf(p) == s;
        MapIn(SchemaOf, SortedStored(d), p);
      }
    }
  }

  lemma SchemaPhase(d: Document)
    requires WellFormed(d)
    ensures Run(INITIAL, Map(SchemaStatement, NewSchemas(d))) ==
            Some(Catalog({"public"} + SchemaNames(d), {}, map[]))
  {
    NewSchemasAre(d);
    var names := NewSchemas(d);
    forall s | s in names ensures NotPublic(s) && SchemaLegal(s) {
      var p :| p in Stored(d) && SchemaOf(p) == s;
      ReadySchema(d, p);
    }
    SchemasRun(INITIAL, names);
    PublicOnce(names, SchemaNames(d));
  }

  lemma ReadySchema(d: Document, p: Persisted)
    requires WellFormed(d) && p in Stored(d)
    ensures SchemaLegal(p.storage.schema)
  {
    ModelFacts(d, p.model);
  }

  lemma PublicOnce(names: seq<string>, all: set<string>)
    requires forall s :: s in names <==> s in all && NotPublic(s)
    ensures {"public"} + ToSet(names) == {"public"} + all
  {
  }

  function TableOfPlan(x: Plan): Relation { x.table }

  lemma {:induction false} AfterAllKeys(c: Catalog, xs: seq<Plan>)
    ensures AfterAll(c, xs).tables.Keys == c.tables.Keys + ToSet(Map(TableOfPlan, xs))
  {
    if xs == [] {
      assert ToSet(Map(TableOfPlan, xs)) == {};
    } else {
      var rest, y := xs[..|xs| - 1], xs[|xs| - 1];
      assert xs == rest + [y];
      MapAppend(TableOfPlan, rest, [y]);
      assert Map(TableOfPlan, [y]) == [y.table];
      AfterAllKeys(c, rest);
    }
  }

  lemma {:induction false} AfterAllTable(c: Catalog, xs: seq<Plan>, x: Plan)
    requires NoDup(Map(TableOfPlan, xs)) && x in xs
    ensures x.table in AfterAll(c, xs).tables && AfterAll(c, xs).tables[x.table] == x.result
  {
    var rest, y := xs[..|xs| - 1], xs[|xs| - 1];
    if x != y {
      assert xs == rest + [y];
      MapAppend(TableOfPlan, rest, [y]);
      assert Map(TableOfPlan, [y]) == [y.table];
      NoDupSnoc(Map(TableOfPlan, rest), y.table);
      MapIn(TableOfPlan, rest, x);
      AfterAllTable(c, rest, x);
    }
  }

  lemma OwnDistinctTables(ps: seq<Persisted>)
    requires NoDup(RelationIds(ps))
    ensures NoDup(Map(TableId, ps)) && NoDup(OwnAll(ps))
  {
    NoDupAppend(Map(TableId, ps), IndexIds(ps));
    OwnIsGenerated(ps);
    PermNoDup(RelationIds(ps), OwnAll(ps));
  }

  ghost predicate SameNames(ps: seq<Persisted>, xs: seq<Plan>) {
    |xs| == |ps| && forall i | 0 <= i < |ps| ::
      xs[i].relations == OwnRelations(ps[i]) && xs[i].table == TableId(ps[i])
  }

  ghost predicate Sound(x: Plan) {
    NoDup(x.relations) ==> PlanRuns(x)
  }

  lemma PlannedNames(ps: seq<Persisted>, xs: seq<Plan>)
    requires SameNames(ps, xs) && NoDup(RelationIds(ps))
    ensures NoDup(PlannedRelations(xs)) && ToSet(PlannedRelations(xs)) == ToSet(RelationIds(ps))
    ensures Map(TableOfPlan, xs) == Map(TableId, ps) && NoDup(Map(TableOfPlan, xs))
  {
    OwnDistinctTables(ps);
    FlatMapSame(RelationsOfPlan, xs, OwnRelations, ps);
    assert ToSet(OwnAll(ps)) == ToSet(RelationIds(ps)) by {
      OwnIsGenerated(ps);
      PermMembers(RelationIds(ps), OwnAll(ps));
    }
  }

  lemma PlansReady(xs: seq<Plan>)
    requires NoDup(PlannedRelations(xs)) && forall x | x in xs :: Sound(x)
    ensures forall x | x in xs :: PlanRuns(x)
  {
    forall x | x in xs ensures PlanRuns(x) {
      FlatMapNoDup(RelationsOfPlan, xs, x);
      assert Sound(x);
    }
  }

  lemma SchemasPresent(c: Catalog, ps: seq<Persisted>, xs: seq<Plan>)
    requires SameNames(ps, xs) && forall p | p in ps :: TableId(p).0 in c.schemas
    ensures forall x | x in xs :: x.table.0 in c.schemas
  {
    forall x | x in xs ensures x.table.0 in c.schemas {
      var i :| 0 <= i < |xs| && xs[i] == x;
      assert ps[i] in ps;
    }
  }

  /** The second phase: every table is created exactly when all plans fit. */
  lemma TablePhase(c: Catalog, ps: seq<Persisted>, xs: seq<Plan>)
    requires SameNames(ps, xs) && NoDup(RelationIds(ps)) && c.relations == {}
    requires forall x | x in xs :: Sound(x)
    requires forall p | p in ps :: TableId(p).0 in c.schemas
    ensures Run(c, Map(CreateOf, xs)) == if forall x | x in xs :: x.fits then Some(AfterAll(c, xs)) else None
  {
    PlannedNames(ps, xs);
    PlansReady(xs);
    SchemasPresent(c, ps, xs);
    PlansRun(c, xs);
  }

  lemma TablePhaseResult(c: Catalog, ps: seq<Persisted>, xs: seq<Plan>)
    requires SameNames(ps, xs) && NoDup(RelationIds(ps)) && c.relations == {} && c.tables == map[]
    ensures AfterAll(c, xs).schemas == c.schemas && AfterAll(c, xs).relations == ToSet(RelationIds(ps))
    ensures AfterAll(c, xs).tables.Keys == ToSet(Map(TableId, ps))
    ensures forall x | x in xs :: x.table in AfterAll(c, xs).tables && AfterAll(c, xs).tables[x.table] == x.result
  {
    PlannedNames(ps, xs);
    AfterAllRelations(c, xs);
    AfterAllKeys(c, xs);
    forall x | x in xs
      ensures x.table in AfterAll(c, xs).tables && AfterAll(c, xs).tables[x.table] == x.result
    {
      AfterAllTable(c, xs, x);
    }
  }

  lemma PlanOfIs(p: Persisted)
    requires TableReady(p)
    ensures Sound(PlanOf(p))
  {
    if NoDup(OwnRelations(p)) {
      PlanOfRuns(p);
    }
  }

  lemma {:induction false} AfterBatchesOther(c: Catalog, bs: seq<Batch>, r: Relation)
    requires r !in Map(OwnerOf, bs)
    ensures AfterBatches(c, bs).schemas == c.schemas && AfterBatches(c, bs).relations == c.relations
    ensures AfterBatches(c, bs).tables.Keys == c.tables.Keys
    ensures r in c.tables ==> AfterBatches(c, bs).tables[r] == c.tables[r]
  {
    if bs != [] {
      var rest, b := bs[..|bs| - 1], bs[|bs| - 1];
      assert bs == rest + [b];
      MapAppend(OwnerOf, rest, [b]);
      assert Map(OwnerOf, [b]) == [b.owner];
      AfterBatchesOther(c, rest, r);
      OtherBatch(AfterBatches(c, rest), b, r);
    }
  }

  lemma OtherBatch(c: Catalog, b: Batch, r: Relation)
    requires r != b.owner
    ensures var c' := WithForeigns(c, b.owner, b.defs);
            && c'.schemas == c.schemas && c'.relations == c.relations && c'.tables.Keys == c.tables.Keys
            && (r in c.tables ==> c'.tables[r] == c.tables[r])
  {
  }

  /** Each table ends up with exactly its own foreign keys. */
  lemma {:induction false} AfterBatchesOwn(c: Catalog, bs: seq<Batch>, b: Batch)
    requires NoDup(Map(OwnerOf, bs)) && b in bs && b.owner in c.tables
    ensures AfterBatches(c, bs).schemas == c.schemas && AfterBatches(c, bs).relations == c.relations
    ensures AfterBatches(c, bs).tables.Keys == c.tables.Keys
    ensures AfterBatches(c, bs).tables[b.owner] == c.tables[b.owner].(foreigns := IndexBy(NameOfForeignDef, b.defs))
  {
    var rest, last := bs[..|bs| - 1], bs[|bs| - 1];
    assert bs == rest + [last];
    OwnersSplit(rest, last);
    if b == last {
      AfterBatchesOther(c, rest, b.owner);
      OneBatch(AfterBatches(c, rest), b, b.owner);
    } else {
      MapIn(OwnerOf, rest, b);
      AfterBatchesOwn(c, rest, b);
      OneBatch(AfterBatches(c, rest), last, b.owner);
    }
  }

  lemma OwnersSplit(rest: seq<Batch>, last: Batch)
    requires NoDup(Map(OwnerOf, rest + [last]))
    ensures NoDup(Map(OwnerOf, rest)) && last.owner !in Map(OwnerOf, rest)
  {
    MapAppend(OwnerOf, rest, [last]);
    assert Map(OwnerOf, [last]) == [last.owner];
    NoDupSnoc(Map(OwnerOf, rest), last.owner);
  }

  lemma OneBatch(c: Catalog, b: Batch, r: Relation)
    requires r in c.tables
    ensures var c' := WithForeigns(c, b.owner, b.defs);
            && c'.schemas == c.schemas && c'.relations == c.relations && c'.tables.Keys == c.tables.Keys
            && c'.tables[r] == if r == b.owner then c.tables[r].(foreigns := IndexBy(NameOfForeignDef, b.defs)) else c.tables[r]
  {
  }

  ghost function BatchOf(p: Persisted, models: map<string, Model>): Batch
    requires Emittable(p, models)
  {
    Batch(TableId(p), ForeignDefs(p.storage, SortedForeignKeys(p.storage), models))
  }

  function NameFor(s: Storage, models: map<string, Model>): ForeignKey -> string {
    (k: ForeignKey) =>
      if k.model in models && models[k.model].storage.Some?
      then ForeignName(s, k, models[k.model].storage.value) else ""
  }

  lemma ForeignNamesMapped(s: Storage, keys: seq<ForeignKey>, models: map<string, Model>)
    requires Targets(keys, models)
    ensures Map(NameFor(s, models), keys) == ForeignNames(s, keys, models)
  {
  }

  lemma ForeignDefsNamed(s: Storage, keys: seq<ForeignKey>, models: map<string, Model>)
    requires ForeignsMapped(s, keys, models)
    ensures Map(NameOfForeignDef, ForeignDefs(s, keys, models)) == Map(NameFor(s, models), keys)
  {
  }

  lemma ForeignNamesSorted(p: Persisted, models: map<string, Model>)
    requires Emittable(p, models) && Targets(p.storage.foreignKeys, models)
    ensures Perm(ForeignNames(p.storage, p.storage.foreignKeys, models),
                 Map(NameOfForeignDef, BatchOf(p, models).defs))
  {
    var s, keys := p.storage, p.storage.foreignKeys;
    SortByCorrect(ForeignSortKey, keys);
    MapPerm(NameFor(s, models), keys, SortedForeignKeys(s));
    ForeignNamesMapped(s, keys, models);
    ForeignDefsNamed(s, SortedForeignKeys(s), models);
  }

  lemma ForeignNamesFresh(p: Persisted, models: map<string, Model>)
    requires Emittable(p, models) && ConstraintNamesOk(p, models)
    ensures NoDup(Map(NameOfForeignDef, BatchOf(p, models).defs))
    ensures forall n | n in Map(NameOfForeignDef, BatchOf(p, models).defs) :: n !in IndexNames(p.storage)
  {
    assert Targets(p.storage.foreignKeys, models);
    ForeignNamesSorted(p, models);
    var a, b := ForeignNames(p.storage, p.storage.foreignKeys, models), Map(NameOfForeignDef, BatchOf(p, models).defs);
    NoDupAppend(IndexNames(p.storage), a);
    PermNoDup(a, b);
    PermMembers(a, b);
  }

  lemma {:induction false} AfterBatchesFrame(c: Catalog, bs: seq<Batch>)
    ensures AfterBatches(c, bs).schemas == c.schemas && AfterBatches(c, bs).relations == c.relations
    ensures AfterBatches(c, bs).tables.Keys == c.tables.Keys
  {
    if bs != [] {
      AfterBatchesFrame(c, bs[..|bs| - 1]);
    }
  }

  ghost predicate Created'(c: Catalog, p: Persisted) {
    TableReady(p) && TableId(p) in c.tables && c.tables[TableId(p)] == BaseTable(p)
  }

  /** What resolving a foreign key means, position by position. */
  ghost predicate Aligned(m: Model, k: ForeignKey, q: Persisted) {
    && |k.fields| == |k.targetFields| && k.targetFields in Keys(q.storage)
    && forall i | 0 <= i < |k.fields| ::
         k.fields[i] in FieldMap(m) && k.targetFields[i] in FieldMap(q.model) &&
         FieldMap(m)[k.fields[i]].scalar == FieldMap(q.model)[k.targetFields[i]].scalar
  }

  lemma ResolvedAligned(m: Model, k: ForeignKey, q: Persisted, models: map<string, Model>)
    requires ReferenceOk(m, k, models) && models[k.model] == q.model && q.model.storage == Some(q.storage)
    ensures Aligned(m, k, q)
  {
    forall i | 0 <= i < |k.fields| ensures k.fields[i] in FieldMap(m) && k.targetFields[i] in FieldMap(q.model) {
      assert k.fields[i] in k.fields && k.targetFields[i] in k.targetFields;
    }
  }

  /** The stored model a foreign key of a well-formed document points at. */
  lemma TargetOf(d: Document, p: Persisted, k: ForeignKey) returns (q: Persisted)
    requires WellFormed(d) && p in Stored(d) && k in p.storage.foreignKeys
    ensures q in Stored(d)
    ensures k.model in ModelMap(d) && ModelMap(d)[k.model] == q.model && q.model.storage == Some(q.storage)
    ensures ForeignKeyOk(k) && Aligned(p.model, k, q)
    ensures KeyMapped(p.storage, k.fields) && KeyMapped(q.storage, k.targetFields)
  {
    ForeignIsMapped(d, p, k);
    var target := ModelMap(d)[k.model];
    q := Persisted(target, target.storage.value);
    ModelFound(d, k.model);
    ResolvedReference(d, p, k);
    ResolvedAligned(p.model, k, q, ModelMap(d));
  }

  lemma ResolvedReference(d: Document, p: Persisted, k: ForeignKey)
    requires WellFormed(d) && p in Stored(d) && k in p.storage.foreignKeys
    ensures ForeignKeyOk(k) && ReferenceOk(p.model, k, ModelMap(d))
  {
    ModelFacts(d, p.model);
  }

  lemma StoredDistinct(d: Document, p: Persisted)
    requires WellFormed(d) && p in Stored(d)
    ensures NoDup(OwnRelations(p))
  {
    OwnDistinctTables(Stored(d));
    FlatMapNoDup(OwnRelations, Stored(d), p);
  }

  ghost predicate TablesCreated(c: Catalog, d: Document) {
    forall p | p in Stored(d) :: Created'(c, p)
  }

  lemma DefIsLegal(d: Document, c: Catalog, p: Persisted, k: ForeignKey)
    requires WellFormed(d) && AllKeysFit(d) && TablesCreated(c, d) && p in Stored(d) && k in p.storage.foreignKeys
    requires ForeignMapped(p.storage, k, ModelMap(d))
    requires ForeignName(p.storage, k, ModelMap(d)[k.model].storage.value) !in IndexNames(p.storage)
    ensures ReferenceLegal(c, TableId(p), ForeignDefOf(p.storage, k, ModelMap(d)[k.model].storage.value))
  {
    var q := TargetOf(d, p, k);
    StoredDistinct(d, p);
    StoredDistinct(d, q);
    assert Created'(c, p) && Created'(c, q);
    ReferenceBecomesLegal(c, p, k, q);
  }

  lemma BatchIsLegal(d: Document, c: Catalog, p: Persisted)
    requires WellFormed(d) && AllKeysFit(d) && TablesCreated(c, d) && p in Stored(d)
    requires Emittable(p, ModelMap(d))
    ensures BatchLegal(c, BatchOf(p, ModelMap(d)))
  {
    var models, s := ModelMap(d), p.storage;
    var keys, b := SortedForeignKeys(s), BatchOf(p, models);
    ForeignNamesFresh(p, models);
    forall f | f in b.defs ensures ReferenceLegal(c, b.owner, f) {
      var i :| 0 <= i < |b.defs| && b.defs[i] == f;
      MapIn(NameOfForeignDef, b.defs, f);
      assert keys[i] in s.foreignKeys;
      DefIsLegal(d, c, p, keys[i]);
    }
  }

  ghost function PlansOf(ps: seq<Persisted>): (r: seq<Plan>)
    requires forall i | 0 <= i < |ps| :: TableReady(ps[i])
    ensures |r| == |ps| && forall i | 0 <= i < |ps| :: r[i] == PlanOf(ps[i])
  {
    seq(|ps|, i requires 0 <= i < |ps| && TableReady(ps[i]) => PlanOf(ps[i]))
  }

  ghost function BatchesOf(ps: seq<Persisted>, models: map<string, Model>): (r: seq<Batch>)
    requires EachEmittable(ps, models)
    ensures |r| == |ps| && forall i | 0 <= i < |ps| :: r[i] == BatchOf(ps[i], models)
  {
    seq(|ps|, i requires 0 <= i < |ps| && Emittable(ps[i], models) => BatchOf(ps[i], models))
  }

  lemma TableStatementsAre(ps: seq<Persisted>, models: map<string, Model>)
    requires EachEmittable(ps, models) && forall i | 0 <= i < |ps| :: TableReady(ps[i])
    ensures TableStatements(ps, models) == Map(CreateOf, PlansOf(ps))
  {
  }

  lemma {:induction false} ForeignStatementsAre(ps: seq<Persisted>, models: map<string, Model>)
    requires EachEmittable(ps, models)
    ensures ForeignStatements(ps, models) == AddBatches(BatchesOf(ps, models))
  {
    if ps != [] {
      var n := |ps| - 1;
      ForeignStatementsAre(ps[..n], models);
      assert BatchesOf(ps, models)[..n] == BatchesOf(ps[..n], models);
    }
  }

  /** What the second phase needs of the plans of a list of models. */
  lemma PlansAreSound(ps: seq<Persisted>)
    requires forall i | 0 <= i < |ps| :: TableReady(ps[i])
    ensures SameNames(ps, PlansOf(ps))
    ensures forall x | x in PlansOf(ps) :: Sound(x)
  {
    var xs := PlansOf(ps);
    forall x | x in xs ensures Sound(x) {
      var i :| 0 <= i < |xs| && xs[i] == x;
      PlanOfIs(ps[i]);
    }
  }

  lemma PlansFit(ps: seq<Persisted>)
    requires forall i | 0 <= i < |ps| :: TableReady(ps[i])
    ensures (forall x | x in PlansOf(ps) :: x.fits) <==> (forall p | p in ps :: KeysFit(p))
  {
    var xs := PlansOf(ps);
    forall i | 0 <= i < |ps| ensures xs[i].fits == KeysFit(ps[i]) && xs[i] in xs && ps[i] in ps {}
    if forall x | x in xs :: x.fits {
      forall p | p in ps ensures KeysFit(p) {
        var i :| 0 <= i < |ps| && ps[i] == p;
      }
    }
  }

  // ----- the catalog a document describes -----

  /** The table a stored model declares, read off the document in any order. */
  ghost function DeclaredTable(p: Persisted, models: map<string, Model>): Table
    requires Emittable(p, models)
  {
    Table(
      IndexBy(NameOfColumnDef, ColumnDefs(FieldMap(p.model), p.storage.columns)),
      IndexBy(NameOfKeyDef, KeyDefs(p.storage, p.storage.uniqueKeys)),
      IndexBy(NameOfForeignDef, ForeignDefs(p.storage, p.storage.foreignKeys, models)))
  }

  /** Exactly the declared schemas, relations and tables, and nothing else. */
  ghost predicate Describes(c: Catalog, d: Document)
    requires AllEmittable(d)
  {
    && c.schemas == {"public"} + SchemaNames(d)
    && c.relations == ToSet(RelationIds(Stored(d)))
    && c.tables.Keys == ToSet(Map(TableId, Stored(d)))
    && forall p | p in Stored(d) :: TableId(p) in c.tables && c.tables[TableId(p)] == DeclaredTable(p, ModelMap(d))
  }

  lemma DeclaredColumns(p: Persisted)
    requires MappingOk(p.model, p.storage) && ColumnsMapped(p)
    ensures IndexBy(NameOfColumnDef, TableColumns(p)) == IndexBy(NameOfColumnDef, ColumnDefs(FieldMap(p.model), p.storage.columns))
  {
    var fields, columns, sorted := FieldMap(p.model), p.storage.columns, SortedColumns(p.storage);
    SortByCorrect(NameOfColumn, columns);
    MapPerm(DefFor(fields), columns, sorted);
    DefsMapped(fields, columns);
    DefsMapped(fields, sorted);
    DefNames(fields, columns);
    IndexByOrderBlind(NameOfColumnDef, ColumnDefs(fields, columns), ColumnDefs(fields, sorted));
  }

  function DefFor(fields: map<string, Field>): Column -> ColumnDef {
    (c: Column) => if c.field in fields then ColumnDefOf(c, fields[c.field]) else ColumnDef("", StringType, false, [])
  }

  lemma DefsMapped(fields: map<string, Field>, columns: seq<Column>)
    requires forall c | c in columns :: c.field in fields
    ensures Map(DefFor(fields), columns) == ColumnDefs(fields, columns)
  {
  }

  lemma DeclaredKeys(p: Persisted)
    requires TableReady(p) && NoDup(OwnRelations(p))
    ensures IndexBy(NameOfKeyDef, TableKeys(p)) == IndexBy(NameOfKeyDef, KeyDefs(p.storage, p.storage.uniqueKeys))
  {
    KeyNamesDistinct(p);
    KeyDefsPerm(p.storage);
    IndexByOrderBlind(NameOfKeyDef, TableKeys(p), KeyDefs(p.storage, p.storage.uniqueKeys));
  }

  lemma KeyDefsPerm(s: Storage)
    requires KeyMapped(s, s.primaryKey) && forall k | k in s.uniqueKeys :: KeyMapped(s, k)
    ensures Perm(KeyDefs(s, SortedUniqueKeys(s)), KeyDefs(s, s.uniqueKeys))
  {
    var sorted := SortedUniqueKeys(s);
    var f := (k: seq<string>) => if KeyMapped(s, k) then KeyDefOf(s, Naming.UniqueKey, k) else KeyDef("", false, []);
    SortByCorrect(NulJoin, s.uniqueKeys);
    MapPerm(f, s.uniqueKeys, sorted);
    assert Map(f, s.uniqueKeys) == UniqueDefs(s, s.uniqueKeys);
    assert Map(f, sorted) == UniqueDefs(s, sorted);
  }

  lemma DeclaredForeigns(p: Persisted, models: map<string, Model>)
    requires Emittable(p, models) && ConstraintNamesOk(p, models)
    ensures IndexBy(NameOfForeignDef, BatchOf(p, models).defs)
         == IndexBy(NameOfForeignDef, ForeignDefs(p.storage, p.storage.foreignKeys, models))
  {
    ForeignNamesFresh(p, models);
    ForeignDefsPerm(p, models);
    IndexByOrderBlind(NameOfForeignDef, BatchOf(p, models).defs, ForeignDefs(p.storage, p.storage.foreignKeys, models));
  }

  lemma ForeignDefsPerm(p: Persisted, models: map<string, Model>)
    requires Emittable(p, models)
    ensures Perm(BatchOf(p, models).defs, ForeignDefs(p.storage, p.storage.foreignKeys, models))
  {
    var s, keys, sorted := p.storage, p.storage.foreignKeys, SortedForeignKeys(p.storage);
    SortByCorrect(ForeignSortKey, keys);
    MapPerm(ForeignFor(s, models), keys, sorted);
    ForeignsMappedTo(s, keys, models);
    ForeignsMappedTo(s, sorted, models);
  }

  function ForeignFor(s: Storage, models: map<string, Model>): ForeignKey -> ForeignDef {
    (k: ForeignKey) =>
      if ForeignMapped(s, k, models) then ForeignDefOf(s, k, models[k.model].storage.value)
      else ForeignDef("", [], ("", ""), [], Restrict)
  }

  lemma ForeignsMappedTo(s: Storage, keys: seq<ForeignKey>, models: map<string, Model>)
    requires ForeignsMapped(s, keys, models)
    ensures Map(ForeignFor(s, models), keys) == ForeignDefs(s, keys, models)
  {
  }

  // ----- the main result -----

  lemma SortedReady(d: Document)
    requires WellFormed(d)
    ensures EachEmittable(SortedStored(d), ModelMap(d))
    ensures forall i | 0 <= i < |SortedStored(d)| :: TableReady(SortedStored(d)[i])
  {
    var ps := SortedStored(d);
    forall i | 0 <= i < |ps| ensures Emittable(ps[i], ModelMap(d)) && TableReady(ps[i]) {
      assert ps[i] in ps;
      EmitterTotal(d, ps[i]);
      Ready(d, ps[i]);
    }
  }

  lemma PhasesRun(a: seq<Statement>, b: seq<Statement>, c: seq<Statement>, c0: Catalog)
    requires Run(INITIAL, a) == Some(c0)
    ensures Run(INITIAL, a + b + c) == if Run(c0, b).None? then None else Run(Run(c0, b).value, c)
  {
    RunAppend(INITIAL, a + b, c);
    RunAppend(INITIAL, a, b);
  }

  ghost function Base(d: Document): Catalog {
    Catalog({"public"} + SchemaNames(d), {}, map[])
  }

  lemma SchemasKnown(d: Document, ps: seq<Persisted>)
    requires forall p | p in ps :: p in Stored(d)
    ensures forall p | p in ps :: TableId(p).0 in Base(d).schemas
  {
    forall p | p in ps ensures TableId(p).0 in Base(d).schemas {
      assert SchemaOf(p) in SchemaNames(d);
    }
  }

  lemma TablesRun(d: Document, ps: seq<Persisted>, xs: seq<Plan>)
    requires NoDup(RelationIds(ps)) && forall p :: p in ps <==> p in Stored(d)
    requires SameNames(ps, xs) && forall x | x in xs :: Sound(x)
    requires (forall x | x in xs :: x.fits) <==> (forall p | p in ps :: KeysFit(p))
    ensures Run(Base(d), Map(CreateOf, xs)) == if AllKeysFit(d) then Some(AfterAll(Base(d), xs)) else None
  {
    SchemasKnown(d, ps);
    TablePhase(Base(d), ps, xs);
  }

  lemma CreatedOne(c: Catalog, p: Persisted, x: Plan)
    requires TableReady(p) && x == PlanOf(p) && x.table in c.tables && c.tables[x.table] == x.result
    ensures Created'(c, p)
  {
  }

  lemma TablesResult(d: Document, c: Catalog, ps: seq<Persisted>, xs: seq<Plan>)
    requires WellFormed(d) && |xs| == |ps|
    requires forall p :: p in ps <==> p in Stored(d)
    requires forall i | 0 <= i < |ps| :: TableReady(ps[i]) && xs[i] == PlanOf(ps[i])
    requires forall x | x in xs :: x.table in c.tables && c.tables[x.table] == x.result
    ensures TablesCreated(c, d)
  {
    forall p | p in Stored(d) ensures Created'(c, p) {
      var i :| 0 <= i < |ps| && ps[i] == p;
      assert xs[i] in xs;
      CreatedOne(c, p, xs[i]);
    }
  }

  lemma BatchOwners(ps: seq<Persisted>, models: map<string, Model>)
    requires EachEmittable(ps, models) && NoDup(RelationIds(ps))
    ensures NoDup(Map(OwnerOf, BatchesOf(ps, models)))
  {
    assert Map(OwnerOf, BatchesOf(ps, models)) == Map(TableId, ps);
    OwnDistinctTables(ps);
  }

  lemma BatchesLegal(d: Document, c: Catalog, ps: seq<Persisted>)
    requires WellFormed(d) && AllKeysFit(d) && TablesCreated(c, d)
    requires EachEmittable(ps, ModelMap(d)) && forall p :: p in ps <==> p in Stored(d)
    ensures forall b | b in BatchesOf(ps, ModelMap(d)) :: BatchLegal(c, b)
  {
    var bs := BatchesOf(ps, ModelMap(d));
    forall i | 0 <= i < |bs| ensures BatchLegal(c, bs[i]) {
      assert ps[i] in ps;
      BatchIsLegal(d, c, ps[i]);
    }
  }

  lemma TableIsDeclared(d: Document, c: Catalog, p: Persisted, bs: seq<Batch>)
    requires WellFormed(d) && p in Stored(d) && Created'(c, p)
    requires Emittable(p, ModelMap(d)) && BatchOf(p, ModelMap(d)) in bs && NoDup(Map(OwnerOf, bs))
    ensures TableId(p) in AfterBatches(c, bs).tables
    ensures AfterBatches(c, bs).tables[TableId(p)] == DeclaredTable(p, ModelMap(d))
  {
    AfterBatchesOwn(c, bs, BatchOf(p, ModelMap(d)));
    DeclaredColumns(p);
    StoredDistinct(d, p);
    DeclaredKeys(p);
    DeclaredForeigns(p, ModelMap(d));
  }

  lemma TablesAreDeclared(d: Document, c: Catalog, ps: seq<Persisted>)
    requires WellFormed(d) && TablesCreated(c, d) && AllEmittable(d)
    requires EachEmittable(ps, ModelMap(d)) && NoDup(RelationIds(ps))
    requires forall p :: p in ps <==> p in Stored(d)
    ensures var c' := AfterBatches(c, BatchesOf(ps, ModelMap(d)));
            forall p | p in Stored(d) ::
              TableId(p) in c'.tables && c'.tables[TableId(p)] == DeclaredTable(p, ModelMap(d))
  {
    var bs := BatchesOf(ps, ModelMap(d));
    BatchOwners(ps, ModelMap(d));
    forall p | p in Stored(d)
      ensures TableId(p) in AfterBatches(c, bs).tables
      ensures AfterBatches(c, bs).tables[TableId(p)] == DeclaredTable(p, ModelMap(d))
    {
      var i :| 0 <= i < |ps| && ps[i] == p;
      assert bs[i] in bs;
      TableIsDeclared(d, c, p, bs);
    }
  }

  /** The statements of a well-formed document, phase by phase. */
  lemma StatementsOf(d: Document)
    requires WellFormed(d) && AllEmittable(d)
    requires EachEmittable(SortedStored(d), ModelMap(d))
    requires forall i | 0 <= i < |SortedStored(d)| :: TableReady(SortedStored(d)[i])
    ensures PostgresStatements(d) ==
            Map(SchemaStatement, NewSchemas(d)) + Map(CreateOf, PlansOf(SortedStored(d))) +
            AddBatches(BatchesOf(SortedStored(d), ModelMap(d)))
  {
    TableStatementsAre(SortedStored(d), ModelMap(d));
    ForeignStatementsAre(SortedStored(d), ModelMap(d));
  }

  lemma PhaseResults(d: Document, ps: seq<Persisted>, xs: seq<Plan>) returns (c: Catalog)
    requires WellFormed(d) && AllEmittable(d) && AllKeysFit(d)
    requires SameNames(ps, xs) && NoDup(RelationIds(ps)) && SameRelations(Stored(d), ps)
    requires forall p :: p in ps <==> p in Stored(d)
    requires EachEmittable(ps, ModelMap(d))
    requires forall i | 0 <= i < |ps| :: TableReady(ps[i]) && xs[i] == PlanOf(ps[i])
    ensures Run(AfterAll(Base(d), xs), AddBatches(BatchesOf(ps, ModelMap(d)))) == Some(c)
    ensures Describes(c, d)
  {
    var c1, bs := AfterAll(Base(d), xs), BatchesOf(ps, ModelMap(d));
    TablePhaseResult(Base(d), ps, xs);
    TablesResult(d, c1, ps, xs);
    BatchesLegal(d, c1, ps);
    BatchOwners(ps, ModelMap(d));
    BatchesRun(c1, bs);
    c := AfterBatches(c1, bs);
    AfterBatchesFrame(c1, bs);
    TablesAreDeclared(d, c1, ps);
  }

  /**
   * The emitted statements run without failure, in emission order, exactly when no key has more
   * than 32 columns, and then the catalog is the one the document describes.
   */
  lemma DdlSound(d: Document)
    requires WellFormed(d)
    ensures AllEmittable(d)
    ensures Run(INITIAL, PostgresStatements(d)).Some? <==> AllKeysFit(d)
    ensures AllKeysFit(d) ==> Describes(Run(INITIAL, PostgresStatements(d)).value, d)
  {
    EmittersTotal(d);
    SortedReady(d);
    SortedRelations(d);
    var ps := SortedStored(d);
    var xs := PlansOf(ps);
    PlansAreSound(ps);
    PlansFit(ps);
    SchemaPhase(d);
    StatementsOf(d);
    PhasesRun(Map(SchemaStatement, NewSchemas(d)), Map(CreateOf, xs), AddBatches(BatchesOf(ps, ModelMap(d))), Base(d));
    TablesRun(d, ps, xs);
    if AllKeysFit(d) {
      var c := PhaseResults(d, ps, xs);
    }
  }
}
