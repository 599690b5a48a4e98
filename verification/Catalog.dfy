/** A small PostgreSQL catalog and what each emitted statement does to it, or why it fails. */
module Catalog {
  import opened Seqs
  import opened Json
  import opened Document
  import opened Emit

  datatype Table = Table(
    columns: map<string, ColumnDef>, keys: map<string, KeyDef>, foreigns: map<string, ForeignDef>)
  datatype Catalog = Catalog(schemas: set<string>, relations: set<Relation>, tables: map<Relation, Table>)

  const INDEX_MAX_KEYS := 32
  const NAME_MAX := 63
  const INITIAL := Catalog({"public"}, {}, map[])

  function CheckColumn(c: Check): string { c.column }

  /** A length check is well-typed on a text column of the same table only. */
  ghost predicate ColumnLegal(c: ColumnDef) {
    && 1 <= |c.name| <= NAME_MAX
    && c.name !in SYSTEM_COLUMNS
    && forall k | k in c.checks :: CheckColumn(k) == c.name && c.scalar == StringType
  }

  ghost predicate KeyLegal(k: KeyDef, columns: map<string, ColumnDef>) {
    && 1 <= |k.name| <= NAME_MAX
    && 1 <= |k.columns| <= INDEX_MAX_KEYS
    && NoDup(k.columns)
    && forall n | n in k.columns :: n in columns
  }

  /** A primary key makes its columns NOT NULL. */
  function Effective(columns: map<string, ColumnDef>, keys: seq<KeyDef>): map<string, ColumnDef> {
    map n | n in columns ::
      columns[n].(notNull := columns[n].notNull || exists k | k in keys :: k.primary && n in k.columns)
  }

  ghost predicate TableLegal(c: Catalog, table: Relation, columns: seq<ColumnDef>, keys: seq<KeyDef>) {
    && table.0 in c.schemas
    && 1 <= |table.1| <= NAME_MAX
    && (forall x | x in columns :: ColumnLegal(x))
    && NoDup(Map(NameOfColumnDef, columns))
    && (forall k | k in keys :: KeyLegal(k, IndexBy(NameOfColumnDef, columns)))
    && (forall i, j | 0 <= i < j < |keys| :: !(keys[i].primary && keys[j].primary))
    && NoDup([table] + InSchema(table.0, Map(NameOfKeyDef, keys)))
    && ToSet([table] + InSchema(table.0, Map(NameOfKeyDef, keys))) !! c.relations
  }

  /** The referenced columns carry a unique or primary key of the target, of the same arity and types. */
  ghost predicate ReferenceLegal(c: Catalog, owner: Relation, f: ForeignDef) {
    && owner in c.tables && f.target in c.tables
    && var here, there := c.tables[owner], c.tables[f.target];
    && 1 <= |f.name| <= NAME_MAX
    && f.name !in here.keys
    && 1 <= |f.columns| == |f.targetColumns| <= INDEX_MAX_KEYS
    && (forall n | n in f.columns :: n in here.columns)
    && (forall n | n in f.targetColumns :: n in there.columns)
    && NoDup(f.targetColumns)
    && (forall i | 0 <= i < |f.columns| ::
         here.columns[f.columns[i]].scalar == there.columns[f.targetColumns[i]].scalar)
    && exists k | k in there.keys ::
         |there.keys[k].columns| == |f.targetColumns| && ToSet(there.keys[k].columns) == ToSet(f.targetColumns)
  }

  ghost predicate ForeignLegal(c: Catalog, owner: Relation, f: ForeignDef) {
    ReferenceLegal(c, owner, f) && f.name !in c.tables[owner].foreigns
  }

  ghost function Exec(c: Catalog, s: Statement): Option<Catalog> {
    match s
    case CreateSchema(schema) =>
      if schema in c.schemas || ReservedSchema(schema) || !(1 <= |schema| <= NAME_MAX) then None
      else Some(c.(schemas := c.schemas + {schema}))
    case CreateTable(table, columns, keys) =>
      if !TableLegal(c, table, columns, keys) then None
      else
        var t := Table(Effective(IndexBy(NameOfColumnDef, columns), keys), IndexBy(NameOfKeyDef, keys), map[]);
        Some(c.(relations := c.relations + ToSet([table] + InSchema(table.0, Map(NameOfKeyDef, keys))),
                tables := c.tables[table := t]))
    case AddForeignKey(owner, f) =>
      if !ForeignLegal(c, owner, f) then None
      else
        var t := c.tables[owner];
        Some(c.(tables := c.tables[owner := t.(foreigns := t.foreigns[f.name := f])]))
  }

  /** Running statements in order; the first failure is final. */
  ghost function Run(c: Catalog, statements: seq<Statement>): Option<Catalog> {
    if statements == [] then Some(c)
    else
      var n := |statements| - 1;
      match Run(c, statements[..n])
      case None => None
      case Some(c') => Exec(c', statements[n])
  }

  lemma {:induction false} RunAppend(c: Catalog, a: seq<Statement>, b: seq<Statement>)
    ensures Run(c, a + b) == if Run(c, a).None? then None else Run(Run(c, a).value, b)
    decreases |b|
  {
    if b == [] {
      assert a + b == a;
    } else {
      var n := |b| - 1;
      RunAppend(c, a, b[..n]);
      assert (a + b)[..|a + b| - 1] == a + b[..n];
    }
  }

  lemma RunSnoc(c: Catalog, a: seq<Statement>, s: Statement)
    ensures Run(c, a + [s]) == if Run(c, a).None? then None else Exec(Run(c, a).value, s)
  {
    assert (a + [s])[..|a|] == a;
  }
}
