/** A document the compiler accepts although one of its keys has more columns than an index may have. */
module DdlLimit {
  import opened Seqs
  import opened Json
  import opened Document
  import opened Emit
  import Catalog
  import Ddl
  import JsonText
  import Naming
  import Samples

  const WIDTH := 33

  function Name(k: int): string
    requires 0 <= k < WIDTH
  {
    Samples.NameAt('f', k)
  }

  function Names(): (r: seq<string>)
    ensures |r| == WIDTH && forall k | 0 <= k < WIDTH :: r[k] == Name(k)
  {
    seq(WIDTH, k requires 0 <= k < WIDTH => Name(k))
  }

  // ----- one table whose primary key is all its columns -----

  function WideField(n: string): Field { Field(n, BooleanType, true, false, None, None) }
  function WideColumn(n: string): Column { Column(n, n) }

  function StorageFor(names: seq<string>): Storage { Storage("public", "t", Map(WideColumn, names), names, [], []) }
  function ModelFor(names: seq<string>): Model { Model("M", Map(WideField, names), Some(StorageFor(names))) }

  ghost predicate Usable(names: seq<string>) {
    1 <= |names| <= 128 && NoDup(names) && forall n | n in names :: FieldName(n) && SqlName(n) && n !in SYSTEM_COLUMNS
  }

  lemma NamesUsable()
    ensures Usable(Names())
  {
    forall n | n in Names() ensures FieldName(n) && SqlName(n) && n !in SYSTEM_COLUMNS {
      var k :| 0 <= k < WIDTH && Names()[k] == n;
      Samples.NamedLetters('f', k);
      if n in SYSTEM_COLUMNS {
        Samples.SystemColumnsAreShort(n);
      }
    }
    forall i, k | 0 <= i < k < WIDTH ensures Names()[i] != Names()[k] {
      if Names()[i] == Names()[k] {
        Samples.NamedInjective('f', i, k);
      }
    }
  }

  lemma MappedBack<T>(make: string -> T, key: T -> string, names: seq<string>)
    requires forall n | n in names :: key(make(n)) == n
    ensures Map(key, Map(make, names)) == names
  {
  }

  lemma FieldsOk(names: seq<string>)
    requires Usable(names)
    ensures forall f | f in Map(WideField, names) :: FieldOk(f) && f.required && !f.nullable
  {
    forall f | f in Map(WideField, names) ensures FieldOk(f) && f.required && !f.nullable {
      var n := MapInInverse(WideField, names, f);
    }
  }

  lemma ColumnsOk(names: seq<string>)
    requires Usable(names)
    ensures forall c | c in Map(WideColumn, names) :: ColumnOk(c) && c.name !in SYSTEM_COLUMNS
  {
    forall c | c in Map(WideColumn, names) ensures ColumnOk(c) && c.name !in SYSTEM_COLUMNS {
      var n := MapInInverse(WideColumn, names, c);
    }
  }

  lemma Identifiers()
    ensures ModelName("M") && SqlName("public") && SqlName("t") && !ReservedSchema("public")
  {
    assert "pg_"[1] == 'g' && "public"[1] == 'u';
    assert |"information_schema"| != |"public"|;
  }

  lemma StorageIsOk(names: seq<string>)
    requires Usable(names)
    ensures StorageOk(StorageFor(names))
  {
    Identifiers();
    ColumnsOk(names);
  }

  lemma Declared(names: seq<string>)
    requires Usable(names)
    ensures DeclarationsOk([ModelFor(names)])
  {
    Identifiers();
    FieldsOk(names);
    StorageIsOk(names);
    assert ModelOk(ModelFor(names));
  }

  lemma FieldNamesAre(names: seq<string>)
    ensures FieldNames(ModelFor(names)) == names
    ensures FieldMap(ModelFor(names)).Keys == ToSet(names)
  {
    MappedBack(WideField, NameOfField, names);
    IndexByKeys(NameOfField, Map(WideField, names));
  }

  lemma ColumnNamesAre(names: seq<string>)
    ensures Map(FieldOfColumn, Map(WideColumn, names)) == names && Map(NameOfColumn, Map(WideColumn, names)) == names
    ensures ColumnMap(StorageFor(names)).Keys == ToSet(names)
  {
    MappedBack(WideColumn, FieldOfColumn, names);
    MappedBack(WideColumn, NameOfColumn, names);
    IndexByKeys(FieldOfColumn, Map(WideColumn, names));
  }

  lemma Mapped(names: seq<string>)
    requires Usable(names)
    ensures MappingOk(ModelFor(names), StorageFor(names))
  {
    FieldNamesAre(names);
    ColumnNamesAre(names);
    ColumnsOk(names);
    FieldsOk(names);
  }

  lemma Keyed(names: seq<string>)
    requires Usable(names)
    ensures KeysOk(ModelFor(names), StorageFor(names))
  {
    FieldNamesAre(names);
    FieldsOk(names);
    IndexByKeys(NameOfField, Map(WideField, names));
    assert Keys(StorageFor(names)) == [names];
  }

  lemma OneStored(names: seq<string>)
    ensures Stored([ModelFor(names)]) == [Persisted(ModelFor(names), StorageFor(names))]
  {
    assert [ModelFor(names)][..0] == [];
  }

  lemma Resolved(names: seq<string>, models: map<string, Model>)
    requires Usable(names)
    ensures ModelResolved(ModelFor(names), models)
  {
    Identifiers();
    Mapped(names);
    Keyed(names);
    FieldNamesAre(names);
  }

  lemma Related(names: seq<string>)
    requires Usable(names)
    ensures RelationsOk([ModelFor(names)])
  {
    OneStored(names);
    Resolved(names, ModelMap([ModelFor(names)]));
  }

  lemma TableAndIndex(p: Persisted, name: string)
    requires IndexNames(p.storage) == [name] && name != p.storage.table
    ensures NoDup(RelationIds([p]))
  {
    assert [p][..0] == [] && [p][0] == p;
    assert FlatMap(ModelIndexIds, [p]) == FlatMap(ModelIndexIds, [p][..0]) + ModelIndexIds(p);
    assert ModelIndexIds(p) == [(p.storage.schema, name)];
    assert IndexIds([p]) == [] + ModelIndexIds(p);
    assert Map(TableId, [p]) == [(p.storage.schema, p.storage.table)];
  }

  lemma OneName(names: seq<string>)
    ensures var name := KeyName(StorageFor(names), Naming.PrimaryKey, names);
            IndexNames(StorageFor(names)) == [name] && name != "t"
  {
    Ddl.NameLength("public", "t", Naming.PrimaryKey, JsonText.List(JsonText.Texts(names)));
  }

  lemma NamesDistinct(names: seq<string>)
    ensures NamesOk([ModelFor(names)])
  {
    OneStored(names);
    OneName(names);
    TableAndIndex(Persisted(ModelFor(names), StorageFor(names)), KeyName(StorageFor(names), Naming.PrimaryKey, names));
  }

  lemma Accepted(names: seq<string>)
    requires Usable(names)
    ensures WellFormed([ModelFor(names)])
  {
    Declared(names);
    Related(names);
    NamesDistinct(names);
  }

  /** Accepted, and yet the emitted statements fail: the primary key has 33 columns. */
  lemma AcceptedButTooWide() returns (d: Document)
    ensures WellFormed(d) && AllEmittable(d)
    ensures Catalog.Run(Catalog.INITIAL, PostgresStatements(d)).None?
  {
    var names := Names();
    d := [ModelFor(names)];
    NamesUsable();
    Accepted(names);
    TooWide(names);
    Ddl.DdlSound(d);
  }

  lemma TooWide(names: seq<string>)
    requires |names| > Catalog.INDEX_MAX_KEYS
    ensures !Ddl.AllKeysFit([ModelFor(names)])
  {
    OneStored(names);
    var p := Persisted(ModelFor(names), StorageFor(names));
    assert p in Stored([ModelFor(names)]) && names in Keys(p.storage);
    assert !Ddl.KeysFit(p);
  }
}
