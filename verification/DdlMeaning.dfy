/** The catalog the emitted statements leave behind, read off the declarations of the document one by one. */
module DdlMeaning {
  import opened Seqs
  import opened Json
  import opened Document
  import opened Emit
  import opened Catalog
  import opened Ddl
  import Naming

  // ----- one declaration and what stands for it -----

  /** The mapping stores this field in this column. */
  predicate StoredIn(s: Storage, field: string, column: string) {
    exists c | c in s.columns :: c.field == field && c.name == column
  }

  /** The columns of these fields, in the order of the fields. */
  predicate Spans(s: Storage, fields: seq<string>, columns: seq<string>) {
    |columns| == |fields| && forall i | 0 <= i < |fields| :: StoredIn(s, fields[i], columns[i])
  }

  /** A check of this column that is one of the declared bounds. */
  predicate Bounds(f: Field, column: string, k: Check) {
    match k
    case LengthAtLeast(n, bound) => n == column && f.minLength == Some(bound)
    case LengthAtMost(n, bound) => n == column && f.maxLength == Some(bound)
  }

  ghost predicate ColumnStands(f: Field, c: Column, x: ColumnDef) {
    && f.name == c.field
    && x.name == c.name && x.scalar == f.scalar && (x.notNull <==> !f.nullable)
    && forall k :: k in x.checks <==> Bounds(f, c.name, k)
  }

  predicate KeyStands(s: Storage, primary: bool, key: seq<string>, x: KeyDef) {
    x.primary == primary && Spans(s, key, x.columns)
  }

  /** The constraint of a foreign key to the table of a stored model. */
  predicate TargetStands(s: Storage, k: ForeignKey, target: Storage, x: ForeignDef) {
    && Spans(s, k.fields, x.columns)
    && x.target == (target.schema, target.table) && Spans(target, k.targetFields, x.targetColumns)
    && match k.onDelete {
         case Restrict => x.onDelete == Restrict
         case Cascade => x.onDelete == Cascade
         case SetNull => x.onDelete == SetNull
       }
  }

  ghost predicate ForeignStands(d: Document, s: Storage, k: ForeignKey, x: ForeignDef) {
    exists m | m in d && m.name == k.model && m.storage.Some? :: TargetStands(s, k, m.storage.value, x)
  }

  // ----- one table, constraint by constraint -----

  ghost predicate ColumnsStand(m: Model, s: Storage, columns: map<string, ColumnDef>) {
    && (forall c | c in s.columns :: c.name in columns && exists f | f in m.fields :: ColumnStands(f, c, columns[c.name]))
    && (forall n | n in columns :: exists c | c in s.columns :: c.name == n)
  }

  /** One primary key and every unique key, each once, and no others. */
  ghost predicate KeysStand(s: Storage, keys: map<string, KeyDef>) {
    && KeyOnce(s, true, s.primaryKey, keys)
    && (forall u | u in s.uniqueKeys :: KeyOnce(s, false, u, keys))
    && (forall n | n in keys :: keys[n].name == n && KeyDeclared(s, keys[n]))
  }

  ghost predicate KeyOnce(s: Storage, primary: bool, key: seq<string>, keys: map<string, KeyDef>) {
    exists n | n in keys ::
      KeyStands(s, primary, key, keys[n]) && forall n' | n' in keys && KeyStands(s, primary, key, keys[n']) :: n' == n
  }

  predicate KeyDeclared(s: Storage, x: KeyDef) {
    KeyStands(s, true, s.primaryKey, x) || exists u | u in s.uniqueKeys :: KeyStands(s, false, u, x)
  }

  /** Every foreign key once, and no others. */
  ghost predicate ForeignsStand(d: Document, s: Storage, foreigns: map<string, ForeignDef>) {
    && (forall k | k in s.foreignKeys :: ForeignOnce(d, s, k, foreigns))
    && (forall n | n in foreigns :: foreigns[n].name == n && exists k | k in s.foreignKeys :: ForeignStands(d, s, k, foreigns[n]))
  }

  ghost predicate ForeignOnce(d: Document, s: Storage, k: ForeignKey, foreigns: map<string, ForeignDef>) {
    exists n | n in foreigns ::
      ForeignStands(d, s, k, foreigns[n]) && forall n' | n' in foreigns && ForeignStands(d, s, k, foreigns[n']) :: n' == n
  }

  ghost predicate TableStands(d: Document, m: Model, s: Storage, t: Table) {
    ColumnsStand(m, s, t.columns) && KeysStand(s, t.keys) && ForeignsStand(d, s, t.foreigns)
  }

  // ----- the whole catalog -----

  predicate StoresIn(d: Document, schema: string) { exists m | m in d :: m.storage.Some? && m.storage.value.schema == schema }

  predicate StoresAt(m: Model, table: Relation) { m.storage.Some? && (m.storage.value.schema, m.storage.value.table) == table }

  /** The schemas and the table of every stored model, and nothing else. */
  ghost predicate Stands(d: Document, c: Catalog) {
    && (forall x :: x in c.schemas <==> x == "public" || StoresIn(d, x))
    && (forall m | m in d && m.storage.Some? ::
         var s := m.storage.value;
         (s.schema, s.table) in c.tables && TableStands(d, m, s, c.tables[(s.schema, s.table)]))
    && (forall r | r in c.tables :: exists m | m in d :: StoresAt(m, r))
  }

  // ----- columns -----

  lemma NamesSpan(s: Storage, key: seq<string>)
    requires KeyMapped(s, key)
    ensures Spans(s, key, ColumnNames(s, key))
  {
    IndexByKeys(FieldOfColumn, s.columns);
    forall i | 0 <= i < |key| ensures StoredIn(s, key[i], ColumnNames(s, key)[i]) {
      assert key[i] in key;
      assert ColumnMap(s)[key[i]] in s.columns;
    }
  }

  lemma ColumnIsDeclared(c: Column, f: Field)
    requires f.name == c.field
    ensures ColumnStands(f, c, ColumnDefOf(c, f))
  {
  }

  lemma ColumnsAreDeclared(m: Model, s: Storage)
    requires MappingOk(m, s) && forall c | c in s.columns :: c.field in FieldMap(m)
    ensures ColumnsStand(m, s, IndexBy(NameOfColumnDef, ColumnDefs(FieldMap(m), s.columns)))
  {
    var defs := ColumnDefs(FieldMap(m), s.columns);
    DefNames(FieldMap(m), s.columns);
    IndexByKeys(NameOfColumnDef, defs);
    IndexByKeys(NameOfField, m.fields);
    forall c | c in s.columns
      ensures c.name in IndexBy(NameOfColumnDef, defs)
      ensures exists f | f in m.fields :: ColumnStands(f, c, IndexBy(NameOfColumnDef, defs)[c.name])
    {
      var i :| 0 <= i < |s.columns| && s.columns[i] == c;
      IndexByFinds(NameOfColumnDef, defs, defs[i]);
      ColumnIsDeclared(c, FieldMap(m)[c.field]);
    }
    forall n | n in IndexBy(NameOfColumnDef, defs) ensures exists c | c in s.columns :: c.name == n {
      var c := MapInInverse(NameOfColumn, s.columns, n);
    }
  }

  // ----- a column belongs to one field, so a constraint to one declaration -----

  lemma FieldOfOneColumn(m: Model, s: Storage, a: string, b: string, column: string)
    requires MappingOk(m, s) && StoredIn(s, a, column) && StoredIn(s, b, column)
    ensures a == b
  {
    var c :| c in s.columns && c.field == a && c.name == column;
    var c' :| c' in s.columns && c'.field == b && c'.name == column;
    KeyInjective(NameOfColumn, s.columns, c, c');
  }

  lemma SpansOnce(m: Model, s: Storage, a: seq<string>, b: seq<string>, columns: seq<string>)
    requires MappingOk(m, s) && Spans(s, a, columns) && Spans(s, b, columns)
    ensures a == b
  {
    forall i | 0 <= i < |a| ensures a[i] == b[i] {
      FieldOfOneColumn(m, s, a[i], b[i], columns[i]);
    }
  }

  // ----- keys -----

  lemma {:induction false} KeyIsDeclared(s: Storage, kind: Naming.Kind, key: seq<string>)
    requires KeyMapped(s, key)
    ensures KeyStands(s, kind == Naming.PrimaryKey, key, KeyDefOf(s, kind, key))
  {
    NamesSpan(s, key);
  }

  /** Key `i` of the table, the primary key first. */
  ghost predicate KeyAt(s: Storage, defs: seq<KeyDef>, i: nat) {
    i < |defs| == |Keys(s)| ==> KeyStands(s, i == 0, Keys(s)[i], defs[i])
  }

  lemma {:induction false} KeyNamed(s: Storage, defs: seq<KeyDef>, n: string) returns (i: nat)
    requires |defs| == |Keys(s)| && n in IndexBy(NameOfKeyDef, defs) && forall i: nat :: KeyAt(s, defs, i)
    ensures i < |defs| && defs[i] == IndexBy(NameOfKeyDef, defs)[n] && defs[i].name == n
    ensures KeyStands(s, i == 0, Keys(s)[i], defs[i])
  {
    IndexByKeys(NameOfKeyDef, defs);
    i :| i < |defs| && defs[i] == IndexBy(NameOfKeyDef, defs)[n];
    assert KeyAt(s, defs, i);
  }

  /** Another constraint of the same columns would be another declaration of the same fields. */
  lemma {:induction false} KeyNamedOnce(m: Model, s: Storage, defs: seq<KeyDef>, i: nat, n: string)
    requires MappingOk(m, s) && KeysOk(m, s)
    requires |defs| == |Keys(s)| && i < |defs| && forall i: nat :: KeyAt(s, defs, i)
    requires n in IndexBy(NameOfKeyDef, defs) && KeyStands(s, i == 0, Keys(s)[i], IndexBy(NameOfKeyDef, defs)[n])
    ensures n == defs[i].name
  {
    var j := KeyNamed(s, defs, n);
    SpansOnce(m, s, Keys(s)[i], Keys(s)[j], defs[j].columns);
    assert Map(FieldSet, Keys(s))[i] == Map(FieldSet, Keys(s))[j];
  }

  lemma {:induction false} KeyIsOnce(m: Model, s: Storage, defs: seq<KeyDef>, i: nat, key: seq<string>)
    requires MappingOk(m, s) && KeysOk(m, s)
    requires |defs| == |Keys(s)| && NoDup(Map(NameOfKeyDef, defs)) && forall i: nat :: KeyAt(s, defs, i)
    requires i < |defs| && key == Keys(s)[i]
    ensures KeyOnce(s, i == 0, key, IndexBy(NameOfKeyDef, defs))
  {
    var keys := IndexBy(NameOfKeyDef, defs);
    IndexByFinds(NameOfKeyDef, defs, defs[i]);
    assert KeyAt(s, defs, i);
    forall n | n in keys && KeyStands(s, i == 0, key, keys[n]) ensures n == defs[i].name {
      KeyNamedOnce(m, s, defs, i, n);
    }
  }

  lemma {:induction false} KeyIsSome(s: Storage, defs: seq<KeyDef>, n: string)
    requires |defs| == |Keys(s)| && n in IndexBy(NameOfKeyDef, defs) && forall i: nat :: KeyAt(s, defs, i)
    ensures IndexBy(NameOfKeyDef, defs)[n].name == n && KeyDeclared(s, IndexBy(NameOfKeyDef, defs)[n])
  {
    var i := KeyNamed(s, defs, n);
    if i > 0 {
      assert Keys(s)[i] == s.uniqueKeys[i - 1] && s.uniqueKeys[i - 1] in s.uniqueKeys;
    }
  }

  lemma {:induction false} KeysByName(m: Model, s: Storage, defs: seq<KeyDef>)
    requires MappingOk(m, s) && KeysOk(m, s)
    requires |defs| == |Keys(s)| && NoDup(Map(NameOfKeyDef, defs)) && forall i: nat :: KeyAt(s, defs, i)
    ensures KeysStand(s, IndexBy(NameOfKeyDef, defs))
  {
    var keys := IndexBy(NameOfKeyDef, defs);
    KeyIsOnce(m, s, defs, 0, s.primaryKey);
    forall u | u in s.uniqueKeys ensures KeyOnce(s, false, u, keys) {
      var i: nat :| i < |s.uniqueKeys| && s.uniqueKeys[i] == u;
      KeyIsOnce(m, s, defs, i + 1, u);
    }
    forall n | n in keys ensures keys[n].name == n && KeyDeclared(s, keys[n]) {
      KeyIsSome(s, defs, n);
    }
  }

  lemma {:induction false} KeysAreDeclared(m: Model, s: Storage)
    requires MappingOk(m, s) && KeysOk(m, s)
    requires KeyMapped(s, s.primaryKey) && forall k | k in s.uniqueKeys :: KeyMapped(s, k)
    requires NoDup(Map(NameOfKeyDef, KeyDefs(s, s.uniqueKeys)))
    ensures KeysStand(s, IndexBy(NameOfKeyDef, KeyDefs(s, s.uniqueKeys)))
  {
    var defs := KeyDefs(s, s.uniqueKeys);
    forall i: nat ensures KeyAt(s, defs, i) {
      if 0 < i < |defs| {
        assert s.uniqueKeys[i - 1] in s.uniqueKeys;
        KeyIsDeclared(s, Naming.UniqueKey, s.uniqueKeys[i - 1]);
      } else {
        KeyIsDeclared(s, Naming.PrimaryKey, s.primaryKey);
      }
    }
    KeysByName(m, s, defs);
  }

  // ----- foreign keys -----

  lemma {:induction false} ForeignIsDeclared(d: Document, s: Storage, k: ForeignKey)
    requires ForeignMapped(s, k, ModelMap(d))
    ensures ForeignStands(d, s, k, ForeignDefOf(s, k, ModelMap(d)[k.model].storage.value))
  {
    var m := ModelMap(d)[k.model];
    IndexByKeys(NameOfModel, d);
    NamesSpan(s, k.fields);
    NamesSpan(m.storage.value, k.targetFields);
    assert TargetStands(s, k, m.storage.value, ForeignDefOf(s, k, m.storage.value));
  }

  /** One constraint stands for one relationship. */
  lemma {:induction false} ForeignStandsOnce(d: Document, m: Model, s: Storage, a: ForeignKey, b: ForeignKey, x: ForeignDef)
    requires WellFormed(d) && MappingOk(m, s) && ForeignStands(d, s, a, x) && ForeignStands(d, s, b, x)
    ensures Relationship(a) == Relationship(b)
  {
    var t :| t in d && t.name == a.model && t.storage.Some? && TargetStands(s, a, t.storage.value, x);
    var u :| u in d && u.name == b.model && u.storage.Some? && TargetStands(s, b, u.storage.value, x);
    SpansOnce(m, s, a.fields, b.fields, x.columns);
    SameTable(d, t, u);
    Ready(d, Persisted(t, t.storage.value));
    SpansOnce(t, t.storage.value, a.targetFields, b.targetFields, x.targetColumns);
  }

  lemma {:induction false} SameTable(d: Document, t: Model, u: Model)
    requires WellFormed(d) && t in d && u in d && t.storage.Some? && u.storage.Some?
    requires TableOf(t.storage.value) == TableOf(u.storage.value)
    ensures t == u && Persisted(t, t.storage.value) in Stored(d)
  {
    KeyInjective(TableId, Stored(d), Persisted(t, t.storage.value), Persisted(u, u.storage.value));
  }

  /** Constraint `i` stands for foreign key `i`. */
  ghost predicate ForeignAt(d: Document, s: Storage, defs: seq<ForeignDef>, i: nat) {
    i < |defs| == |s.foreignKeys| ==> ForeignStands(d, s, s.foreignKeys[i], defs[i])
  }

  lemma {:induction false} ForeignNamed(d: Document, s: Storage, defs: seq<ForeignDef>, n: string) returns (i: nat)
    requires |defs| == |s.foreignKeys| && n in IndexBy(NameOfForeignDef, defs) && forall i: nat :: ForeignAt(d, s, defs, i)
    ensures i < |defs| && defs[i] == IndexBy(NameOfForeignDef, defs)[n] && defs[i].name == n
    ensures ForeignStands(d, s, s.foreignKeys[i], defs[i])
  {
    IndexByKeys(NameOfForeignDef, defs);
    i :| i < |defs| && defs[i] == IndexBy(NameOfForeignDef, defs)[n];
    assert ForeignAt(d, s, defs, i);
  }

  lemma {:induction false} RelationshipOnce(keys: seq<ForeignKey>, i: nat, j: nat)
    requires NoDup(Map(Relationship, keys)) && i < |keys| && j < |keys| && Relationship(keys[i]) == Relationship(keys[j])
    ensures i == j
  {
    assert Map(Relationship, keys)[i] == Map(Relationship, keys)[j];
  }

  lemma {:induction false} ForeignNamedOnce(d: Document, m: Model, s: Storage, defs: seq<ForeignDef>, i: nat, n: string)
    requires WellFormed(d) && MappingOk(m, s) && NoDup(Map(Relationship, s.foreignKeys))
    requires |defs| == |s.foreignKeys| && i < |defs| && forall i: nat :: ForeignAt(d, s, defs, i)
    requires n in IndexBy(NameOfForeignDef, defs) && ForeignStands(d, s, s.foreignKeys[i], IndexBy(NameOfForeignDef, defs)[n])
    ensures n == defs[i].name
  {
    var j := ForeignNamed(d, s, defs, n);
    ForeignStandsOnce(d, m, s, s.foreignKeys[i], s.foreignKeys[j], defs[j]);
    RelationshipOnce(s.foreignKeys, i, j);
  }

  lemma {:induction false} ForeignIsOnce(d: Document, m: Model, s: Storage, defs: seq<ForeignDef>, i: nat)
    requires WellFormed(d) && MappingOk(m, s) && NoDup(Map(Relationship, s.foreignKeys))
    requires |defs| == |s.foreignKeys| && NoDup(Map(NameOfForeignDef, defs)) && i < |defs| && forall i: nat :: ForeignAt(d, s, defs, i)
    ensures ForeignOnce(d, s, s.foreignKeys[i], IndexBy(NameOfForeignDef, defs))
  {
    var foreigns := IndexBy(NameOfForeignDef, defs);
    IndexByFinds(NameOfForeignDef, defs, defs[i]);
    assert ForeignAt(d, s, defs, i);
    forall n | n in foreigns && ForeignStands(d, s, s.foreignKeys[i], foreigns[n]) ensures n == defs[i].name {
      ForeignNamedOnce(d, m, s, defs, i, n);
    }
  }

  lemma {:induction false} ForeignsByName(d: Document, m: Model, s: Storage, defs: seq<ForeignDef>)
    requires WellFormed(d) && MappingOk(m, s) && NoDup(Map(Relationship, s.foreignKeys))
    requires |defs| == |s.foreignKeys| && NoDup(Map(NameOfForeignDef, defs)) && forall i: nat :: ForeignAt(d, s, defs, i)
    ensures ForeignsStand(d, s, IndexBy(NameOfForeignDef, defs))
  {
    var foreigns := IndexBy(NameOfForeignDef, defs);
    forall k | k in s.foreignKeys ensures ForeignOnce(d, s, k, foreigns) {
      var i: nat :| i < |s.foreignKeys| && s.foreignKeys[i] == k;
      ForeignIsOnce(d, m, s, defs, i);
    }
    forall n | n in foreigns
      ensures foreigns[n].name == n && exists k | k in s.foreignKeys :: ForeignStands(d, s, k, foreigns[n])
    {
      var i := ForeignNamed(d, s, defs, n);
      assert s.foreignKeys[i] in s.foreignKeys;
    }
  }

  lemma {:induction false} ForeignsAreDeclared(d: Document, m: Model, s: Storage)
    requires WellFormed(d) && MappingOk(m, s) && NoDup(Map(Relationship, s.foreignKeys))
    requires ForeignsMapped(s, s.foreignKeys, ModelMap(d))
    requires NoDup(Map(NameOfForeignDef, ForeignDefs(s, s.foreignKeys, ModelMap(d))))
    ensures ForeignsStand(d, s, IndexBy(NameOfForeignDef, ForeignDefs(s, s.foreignKeys, ModelMap(d))))
  {
    var defs := ForeignDefs(s, s.foreignKeys, ModelMap(d));
    forall i: nat ensures ForeignAt(d, s, defs, i) {
      if i < |defs| {
        assert ForeignMapped(s, s.foreignKeys[i], ModelMap(d));
        ForeignIsDeclared(d, s, s.foreignKeys[i]);
      }
    }
    ForeignsByName(d, m, s, defs);
  }

  // ----- the main result -----

  lemma TableIsMeant(d: Document, p: Persisted)
    requires WellFormed(d) && p in Stored(d) && Emittable(p, ModelMap(d))
    ensures TableStands(d, p.model, p.storage, DeclaredTable(p, ModelMap(d)))
  {
    var s := p.storage;
    Ready(d, p);
    StoredDistinct(d, p);
    ColumnsAreDeclared(p.model, s);
    KeysApart(p);
    KeysAreDeclared(p.model, s);
    ForeignsApart(p, ModelMap(d));
    ModelFacts(d, p.model);
    ForeignsAreDeclared(d, p.model, s);
  }

  lemma KeysApart(p: Persisted)
    requires TableReady(p) && NoDup(OwnRelations(p))
    ensures NoDup(Map(NameOfKeyDef, KeyDefs(p.storage, p.storage.uniqueKeys)))
  {
    KeyNamesDistinct(p);
    KeyDefsPerm(p.storage);
    MapPerm(NameOfKeyDef, TableKeys(p), KeyDefs(p.storage, p.storage.uniqueKeys));
    PermNoDup(Map(NameOfKeyDef, TableKeys(p)), Map(NameOfKeyDef, KeyDefs(p.storage, p.storage.uniqueKeys)));
  }

  lemma ForeignsApart(p: Persisted, models: map<string, Model>)
    requires Emittable(p, models) && ConstraintNamesOk(p, models)
    ensures NoDup(Map(NameOfForeignDef, ForeignDefs(p.storage, p.storage.foreignKeys, models)))
  {
    ForeignNamesFresh(p, models);
    ForeignDefsPerm(p, models);
    MapPerm(NameOfForeignDef, BatchOf(p, models).defs, ForeignDefs(p.storage, p.storage.foreignKeys, models));
    PermNoDup(Map(NameOfForeignDef, BatchOf(p, models).defs), Map(NameOfForeignDef, ForeignDefs(p.storage, p.storage.foreignKeys, models)));
  }

  lemma SchemasStand(d: Document, x: string)
    ensures x in SchemaNames(d) <==> StoresIn(d, x)
  {
    if x in SchemaNames(d) {
      var p :| p in Stored(d) && SchemaOf(p) == x;
      assert p.model in d;
    }
    if StoresIn(d, x) {
      var m :| m in d && m.storage.Some? && m.storage.value.schema == x;
      assert Persisted(m, m.storage.value) in Stored(d);
    }
  }

  lemma DescribedStands(d: Document, c: Catalog)
    requires WellFormed(d) && AllEmittable(d) && Describes(c, d)
    ensures Stands(d, c)
  {
    forall x ensures x in c.schemas <==> x == "public" || StoresIn(d, x) {
      SchemasStand(d, x);
    }
    forall m | m in d && m.storage.Some?
      ensures var s := m.storage.value;
              (s.schema, s.table) in c.tables && TableStands(d, m, s, c.tables[(s.schema, s.table)])
    {
      var p := Persisted(m, m.storage.value);
      assert p in Stored(d) && TableId(p) == (p.storage.schema, p.storage.table);
      TableIsMeant(d, p);
    }
    forall r | r in c.tables ensures exists m | m in d :: StoresAt(m, r) {
      var p := MapInInverse(TableId, Stored(d), r);
      assert StoresAt(p.model, r);
    }
  }

  /**
   * The emitted statements of a well-formed document without a key of more than 32 columns leave
   * exactly what it declares: each schema, table, column, key and foreign key, with its type,
   * nullability, bounds, mapped columns in order, target and action, and nothing else.
   */
  lemma CatalogStands(d: Document)
    requires WellFormed(d) && forall m, k | m in d && m.storage.Some? && k in Keys(m.storage.value) :: |k| <= 32
    ensures AllEmittable(d) && Run(INITIAL, PostgresStatements(d)).Some?
    ensures Stands(d, Run(INITIAL, PostgresStatements(d)).value)
  {
    DdlSound(d);
    forall p | p in Stored(d) ensures KeysFit(p) {
      assert p.model in d;
    }
    DescribedStands(d, Run(INITIAL, PostgresStatements(d)).value);
  }
}
