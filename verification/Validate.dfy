/** The validator: one list of at most 100 diagnostics, filled by three phases over a document. */
module Validate {
  import opened Seqs
  import opened Json
  import opened Diagnostics
  import opened Document
  import Shape
  import ShapeMeaning
  import Reading
  import Relational
  import RelationalMeaning
  import ReportOrder

  /** Every fault of a value: a phase runs only when the phases before it found nothing. */
  ghost function Faults(j: Json): seq<Diagnostic> {
    if Shape.ShapeFaults(j) != [] then Shape.ShapeFaults(j)
    else
      var d := Shape.Decode(j);
      if Relational.RelationalFaults(d) != [] then Relational.RelationalFaults(d) else Relational.NameFaults(d)
  }

  /** The document breaks a relational rule there or, if it breaks none, has clashing names there. */
  ghost predicate MeansOf(d: Document, x: Diagnostic) {
    RelationalMeaning.Misrelated(d, x) || ((forall y :: !RelationalMeaning.Misrelated(d, y)) && RelationalMeaning.Misnamed(d, x))
  }

  /** The document that the value spells does. */
  ghost predicate ReadMeaning(j: Json, x: Diagnostic) { exists d: Document :: Reading.Spells(j, d) && MeansOf(d, x) }

  /** The value departs from the grammar there or, if it departs from it nowhere, the document it spells is wrong there. */
  ghost predicate Means(j: Json, x: Diagnostic) {
    ShapeMeaning.Misshapen(j, x) || ((forall y :: !ShapeMeaning.Misshapen(j, y)) && ReadMeaning(j, x))
  }

  /** Departures from the grammar part by part, everything else rule by rule. */
  ghost predicate InReportOrder(j: Json, xs: seq<Diagnostic>) {
    forall i, k | 0 <= i < k < |xs| ::
      if exists y :: ShapeMeaning.Misshapen(j, y) then ReportOrder.ShapeBefore(xs[i], xs[k]) else ReportOrder.RuleBefore(xs[i], xs[k])
  }

  lemma {:induction false} SilentShape(j: Json)
    ensures Shape.ShapeFaults(j) == [] <==> forall y :: !ShapeMeaning.Misshapen(j, y)
  {
    forall y ensures y in Shape.ShapeFaults(j) <==> ShapeMeaning.Misshapen(j, y) {
      ShapeMeaning.ShapeFaultsMean(j, y);
    }
    if Shape.ShapeFaults(j) != [] {
      assert Shape.ShapeFaults(j)[0] in Shape.ShapeFaults(j);
    }
  }

  lemma {:induction false} SilentRelations(d: Document)
    requires DeclarationsOk(d)
    ensures Relational.RelationalFaults(d) == [] <==> forall y :: !RelationalMeaning.Misrelated(d, y)
  {
    forall y ensures y in Relational.RelationalFaults(d) <==> RelationalMeaning.Misrelated(d, y) {
      RelationalMeaning.RelationalFaultsMean(d, y);
    }
    if Relational.RelationalFaults(d) != [] {
      assert Relational.RelationalFaults(d)[0] in Relational.RelationalFaults(d);
    }
  }

  lemma {:induction false} LaterFaultsMean(d: Document, x: Diagnostic)
    requires DeclarationsOk(d)
    ensures x in (if Relational.RelationalFaults(d) != [] then Relational.RelationalFaults(d) else Relational.NameFaults(d)) <==> MeansOf(d, x)
  {
    SilentRelations(d);
    RelationalMeaning.RelationalFaultsMean(d, x);
    RelationalMeaning.NameFaultsMean(d, x);
  }

  lemma {:induction false} SpelledMeans(j: Json, x: Diagnostic)
    requires Shape.ShapeFaults(j) == []
    ensures DeclarationsOk(Shape.Decode(j))
    ensures ReadMeaning(j, x) <==> MeansOf(Shape.Decode(j), x)
  {
    Shape.DocumentDecodes(j);
    Reading.ReadingSpells(j, Shape.Decode(j));
    if d: Document :| Reading.Spells(j, d) && MeansOf(d, x) {
      Reading.ReadingSpells(j, d);
    }
  }

  /** Every fault is what its code and path say, and everything that they can say is a fault. */
  lemma {:induction false} FaultsMean(j: Json, x: Diagnostic)
    ensures x in Faults(j) <==> Means(j, x)
  {
    SilentShape(j);
    ShapeMeaning.ShapeFaultsMean(j, x);
    if Shape.ShapeFaults(j) == [] {
      SpelledMeans(j, x);
      LaterFaultsMean(Shape.Decode(j), x);
    }
  }

  lemma {:induction false} CappedInOrder(j: Json, xs: seq<Diagnostic>)
    requires InReportOrder(j, xs)
    ensures InReportOrder(j, Capped(xs))
  {
  }

  lemma {:induction false} LaterFaultsInOrder(d: Document)
    ensures ReportOrder.InOrder(if Relational.RelationalFaults(d) != [] then Relational.RelationalFaults(d) else Relational.NameFaults(d))
  {
    ReportOrder.RelationalFaultsOrdered(d);
    ReportOrder.NameFaultsOrdered(d);
  }

  lemma {:induction false} FaultsInOrder(j: Json)
    ensures InReportOrder(j, Capped(Faults(j)))
  {
    SilentShape(j);
    if Shape.ShapeFaults(j) != [] {
      ReportOrder.ShapeFaultsOrdered(j);
    } else {
      LaterFaultsInOrder(Shape.Decode(j));
    }
    CappedInOrder(j, Faults(j));
  }

  lemma {:induction false} AllFaultsMean(j: Json)
    ensures forall x | x in Capped(Faults(j)) :: Means(j, x)
    ensures |Capped(Faults(j))| < 100 ==> forall x :: Means(j, x) ==> x in Capped(Faults(j))
  {
    forall x ensures x in Faults(j) <==> Means(j, x) {
      FaultsMean(j, x);
    }
  }

  /** No fault is found exactly in the JSON forms of well-formed documents. */
  lemma FaultsDecide(j: Json)
    ensures Faults(j) == [] <==> exists d: Document :: WellFormed(d) && Shape.Encode(d) == j
  {
    if Shape.ShapeFaults(j) == [] {
      Shape.DocumentDecodes(j);
      AcceptedIsWellFormed(Shape.Decode(j));
    }
    if d: Document :| WellFormed(d) && Shape.Encode(d) == j {
      Shape.DocumentEncodes(d);
      AcceptedIsWellFormed(d);
    }
  }

  lemma AcceptedIsWellFormed(d: Document)
    requires DeclarationsOk(d)
    ensures WellFormed(d) <==> Relational.RelationalFaults(d) == [] && Relational.NameFaults(d) == []
  {
    Relational.RelationalFaultsDecide(d);
    if RelationsOk(d) {
      Relational.NameFaultsDecide(d);
    }
  }

  lemma IndexBySize<T>(key: T -> string, items: seq<T>)
    ensures |IndexBy(key, items)| == |items| <==> NoDup(Map(key, items))
  {
    IndexByKeys(key, items);
    SetSize(Map(key, items));
    assert |IndexBy(key, items)| == |IndexBy(key, items).Keys|;
  }

  /** Faults found one after the other are found together. */
  lemma Then(
    f0: seq<Diagnostic>, f1: seq<Diagnostic>, f2: seq<Diagnostic>, a: seq<Diagnostic>, b: seq<Diagnostic>)
    requires f1 == f0 + a && f2 == f1 + b
    ensures f2 == f0 + (a + b)
  {
  }

  lemma EachThen<T>(
    check: (T, int) -> seq<Diagnostic>, items: seq<T>, i: nat,
    f0: seq<Diagnostic>, f1: seq<Diagnostic>, f2: seq<Diagnostic>)
    requires i < |items|
    requires f1 == f0 + Each(check, items[..i]) && f2 == f1 + check(items[i], i)
    ensures f2 == f0 + Each(check, items[..i + 1])
  {
    EachSnoc(check, items, i);
  }

  class Validator {
    var diagnostics: seq<Diagnostic>
    /** Every fault reported so far, kept or not. */
    ghost var found: seq<Diagnostic>

    ghost predicate Valid()
      reads this
    {
      diagnostics == Capped(found)
    }

    constructor ()
      ensures Valid() && found == []
    {
      diagnostics, found := [], [];
    }

    method Error(code: Code, path: Path)
      requires Valid()
      modifies this
      ensures Valid() && found == old(found) + [Diagnostic(code, path)]
    {
      if |diagnostics| < CAP {
        diagnostics := diagnostics + [Diagnostic(code, path)];
      }
      found := found + [Diagnostic(code, path)];
    }

    /** Reports a fault unless the condition holds. */
    method Require(condition: bool, code: Code, path: Path)
      requires Valid()
      modifies this
      ensures Valid() && found == old(found) + Unless(condition, code, path)
    {
      if !condition {
        Error(code, path);
      }
    }

    // ----- shape phase -----

    method Record(j: Json, required: set<string>, optional: set<string>, path: Path) returns (ok: bool)
      requires Valid()
      modifies this
      ensures Valid() && found == old(found) + Shape.RecordFaults(j, required, optional, path)
      ensures ok <==> IsRecord(j, required, optional)
    {
      ok := false;
      if !j.Obj? {
        Error(INVALID_SHAPE, path);
        return;
      }
      if exists key | key in j.members.Keys :: key !in required + optional {
        Error(UNKNOWN_PROPERTY, path);
        return;
      }
      if exists key | key in required :: key !in j.members.Keys {
        Error(MISSING_PROPERTY, path);
        return;
      }
      ok := true;
    }

    method Array(j: Json, min: nat, max: nat, path: Path) returns (ok: bool)
      requires Valid()
      modifies this
      ensures Valid() && found == old(found) + Unless(Shape.IsArray(j, min, max), INVALID_ARRAY, path)
      ensures ok <==> Shape.IsArray(j, min, max)
    {
      ok := true;
      if !j.Arr? || |j.items| < min || |j.items| > max {
        Error(INVALID_ARRAY, path);
        ok := false;
      }
    }

    method Name(j: Json, pattern: string -> bool, path: Path)
      requires Valid()
      modifies this
      ensures Valid() && found == old(found) + Shape.NameFaults(j, pattern, path)
    {
      if !j.Str? || !pattern(j.s) {
        Error(INVALID_IDENTIFIER, path);
      }
    }

    method FieldList(j: Json, path: Path)
      requires Valid()
      modifies this
      ensures Valid() && found == old(found) + Shape.FieldListFaults(j, path)
    {
      var ok := Array(j, 1, 128, path);
      if !ok {
        return;
      }
      for i := 0 to |j.items|
        invariant Valid() && found == old(found) + Each(Shape.NameCheck(FieldName, path), j.items[..i])
      {
        ghost var before := found;
        Name(j.items[i], FieldName, Under(path, Item(i)));
        EachThen(Shape.NameCheck(FieldName, path), j.items, i, old(found), before, found);
      }
      assert j.items[..|j.items|] == j.items;
      ghost var before := found;
      Require(Shape.SetSizeOf(j.items) == |j.items|, DUPLICATE_KEY_FIELD, path);
      Then(old(found), before, found, Each(Shape.NameCheck(FieldName, path), j.items),
           Unless(!Shape.Repeats(j.items), DUPLICATE_KEY_FIELD, path));
    }

    method Field(j: Json, path: Path)
      requires Valid()
      modifies this
      ensures Valid() && found == old(found) + Shape.FieldFaults(j, path)
    {
      var ok := Record(j, Shape.FIELD_KEYS, Shape.LENGTH_KEYS, path);
      if ok {
        FieldMembers(j, path);
      }
    }

    method FieldMembers(j: Json, path: Path)
      requires Valid() && IsRecord(j, Shape.FIELD_KEYS, Shape.LENGTH_KEYS)
      modifies this
      ensures Valid() && found == old(found) + Shape.FieldFaults(j, path)
    {
      ghost var start := found;
      Name(Shape.Get(j, "name"), FieldName, Under(path, AtName));
      ghost var a := Shape.NameFaults(Shape.Get(j, "name"), FieldName, Under(path, AtName));
      ghost var f1 := found;
      Require(Shape.ScalarOf(Shape.Get(j, "type")).Some?, UNSUPPORTED_TYPE, Under(path, AtType));
      ghost var b := Unless(Shape.ScalarOf(Shape.Get(j, "type")).Some?, UNSUPPORTED_TYPE, Under(path, AtType));
      ghost var f2 := found;
      Then(start, f1, f2, a, b);
      Require(Shape.Get(j, "required").Bool?, INVALID_BOOLEAN, Under(path, AtRequired));
      ghost var c := Unless(Shape.Get(j, "required").Bool?, INVALID_BOOLEAN, Under(path, AtRequired));
      ghost var f3 := found;
      Then(start, f2, f3, a + b, c);
      Require(Shape.Get(j, "nullable").Bool?, INVALID_BOOLEAN, Under(path, AtNullable));
      ghost var d := Unless(Shape.Get(j, "nullable").Bool?, INVALID_BOOLEAN, Under(path, AtNullable));
      ghost var f4 := found;
      Then(start, f3, f4, a + b + c, d);
      Length(j, "minLength", Under(path, AtMinLength));
      ghost var e := Unless(Shape.LengthAllowed(j, "minLength"), INVALID_LENGTH, Under(path, AtMinLength));
      ghost var f5 := found;
      Then(start, f4, f5, a + b + c + d, e);
      Length(j, "maxLength", Under(path, AtMaxLength));
      ghost var f := Unless(Shape.LengthAllowed(j, "maxLength"), INVALID_LENGTH, Under(path, AtMaxLength));
      ghost var f6 := found;
      Then(start, f5, f6, a + b + c + d + e, f);
      Lengths(j, path);
      ghost var g := Unless(Shape.LengthsAgree(j), CONTRADICTORY_LENGTH, path);
      Then(start, f6, found, a + b + c + d + e + f, g);
    }

    method Length(j: Json, key: string, path: Path)
      requires Valid()
      modifies this
      ensures Valid() && found == old(found) + Unless(Shape.LengthAllowed(j, key), INVALID_LENGTH, path)
    {
      var length := Shape.Get(j, key);
      if Shape.Has(j, key) &&
         (Shape.Get(j, "type") != Str("string") || !IsInteger(length) || ToInt(length) < 0 || ToInt(length) > MAX_LENGTH)
      {
        Error(INVALID_LENGTH, path);
      }
    }

    method Lengths(j: Json, path: Path)
      requires Valid()
      modifies this
      ensures Valid() && found == old(found) + Unless(Shape.LengthsAgree(j), CONTRADICTORY_LENGTH, path)
    {
      var (min, max) := (Shape.Get(j, "minLength"), Shape.Get(j, "maxLength"));
      if IsInteger(min) && IsInteger(max) && ToInt(min) > ToInt(max) {
        Error(CONTRADICTORY_LENGTH, path);
      }
    }

    method Column(j: Json, path: Path)
      requires Valid()
      modifies this
      ensures Valid() && found == old(found) + Shape.ColumnFaults(j, path)
    {
      var ok := Record(j, Shape.COLUMN_KEYS, {}, path);
      if ok {
        ColumnMembers(j, path);
      }
    }

    method ColumnMembers(j: Json, path: Path)
      requires Valid() && IsRecord(j, Shape.COLUMN_KEYS, {})
      modifies this
      ensures Valid() && found == old(found) + Shape.ColumnFaults(j, path)
    {
      Name(Shape.Get(j, "field"), FieldName, Under(path, AtField));
      ghost var middle := found;
      Name(Shape.Get(j, "name"), SqlName, Under(path, AtName));
      Then(old(found), middle, found, Shape.NameFaults(Shape.Get(j, "field"), FieldName, Under(path, AtField)), Shape.NameFaults(Shape.Get(j, "name"), SqlName, Under(path, AtName)));
    }

    method Foreign(j: Json, path: Path)
      requires Valid()
      modifies this
      ensures Valid() && found == old(found) + Shape.ForeignFaults(j, path)
    {
      var ok := Record(j, Shape.FOREIGN_KEYS, {}, path);
      if ok {
        ForeignMembers(j, path);
      }
    }

    method ForeignMembers(j: Json, path: Path)
      requires Valid() && IsRecord(j, Shape.FOREIGN_KEYS, {})
      modifies this
      ensures Valid() && found == old(found) + Shape.ForeignFaults(j, path)
    {
      ghost var start := found;
      FieldList(Shape.Get(j, "fields"), Under(path, AtFields));
      ghost var a := Shape.FieldListFaults(Shape.Get(j, "fields"), Under(path, AtFields));
      ghost var f1 := found;
      Reference(Shape.Get(j, "references"), Under(path, AtReferences));
      ghost var b := Shape.ReferenceFaults(Shape.Get(j, "references"), Under(path, AtReferences));
      ghost var f2 := found;
      Then(start, f1, f2, a, b);
      Require(Shape.ActionOf(Shape.Get(j, "onDelete")).Some?, UNSUPPORTED_DELETE_ACTION, Under(path, AtOnDelete));
      ghost var c := Unless(Shape.ActionOf(Shape.Get(j, "onDelete")).Some?, UNSUPPORTED_DELETE_ACTION, Under(path, AtOnDelete));
      Then(start, f2, found, a + b, c);
    }

    method Reference(j: Json, path: Path)
      requires Valid()
      modifies this
      ensures Valid() && found == old(found) + Shape.ReferenceFaults(j, path)
    {
      var ok := Record(j, Shape.REFERENCE_KEYS, {}, path);
      if ok {
        ReferenceMembers(j, path);
      }
    }

    method ReferenceMembers(j: Json, path: Path)
      requires Valid() && IsRecord(j, Shape.REFERENCE_KEYS, {})
      modifies this
      ensures Valid() && found == old(found) + Shape.ReferenceFaults(j, path)
    {
      Name(Shape.Get(j, "model"), ModelName, Under(path, AtModel));
      ghost var middle := found;
      FieldList(Shape.Get(j, "fields"), Under(path, AtFields));
      Then(old(found), middle, found, Shape.NameFaults(Shape.Get(j, "model"), ModelName, Under(path, AtModel)), Shape.FieldListFaults(Shape.Get(j, "fields"), Under(path, AtFields)));
    }

    method Columns(j: Json, path: Path)
      requires Valid()
      modifies this
      ensures Valid() && found == old(found) + Shape.ListFaults(Shape.ColumnCheck(path), j, 1, 128, path)
    {
      var ok := Array(j, 1, 128, path);
      if ok {
        for i := 0 to |j.items|
          invariant Valid() && found == old(found) + Each(Shape.ColumnCheck(path), j.items[..i])
        {
          ghost var before := found;
          Column(j.items[i], Under(path, Item(i)));
          EachThen(Shape.ColumnCheck(path), j.items, i, old(found), before, found);
        }
        assert j.items[..|j.items|] == j.items;
      }
    }

    method UniqueKeys(j: Json, path: Path)
      requires Valid()
      modifies this
      ensures Valid() && found == old(found) + Shape.ListFaults(Shape.KeyCheck(path), j, 0, 64, path)
    {
      var ok := Array(j, 0, 64, path);
      if ok {
        for i := 0 to |j.items|
          invariant Valid() && found == old(found) + Each(Shape.KeyCheck(path), j.items[..i])
        {
          ghost var before := found;
          FieldList(j.items[i], Under(path, Item(i)));
          EachThen(Shape.KeyCheck(path), j.items, i, old(found), before, found);
        }
        assert j.items[..|j.items|] == j.items;
      }
    }

    method ForeignKeys(j: Json, path: Path)
      requires Valid()
      modifies this
      ensures Valid() && found == old(found) + Shape.ListFaults(Shape.ForeignCheck(path), j, 0, 64, path)
    {
      var ok := Array(j, 0, 64, path);
      if ok {
        for i := 0 to |j.items|
          invariant Valid() && found == old(found) + Each(Shape.ForeignCheck(path), j.items[..i])
        {
          ghost var before := found;
          Foreign(j.items[i], Under(path, Item(i)));
          EachThen(Shape.ForeignCheck(path), j.items, i, old(found), before, found);
        }
        assert j.items[..|j.items|] == j.items;
      }
    }

    method Fields(j: Json, path: Path)
      requires Valid()
      modifies this
      ensures Valid() && found == old(found) + Shape.ListFaults(Shape.FieldCheck(path), j, 1, 128, path)
    {
      var ok := Array(j, 1, 128, path);
      if ok {
        for i := 0 to |j.items|
          invariant Valid() && found == old(found) + Each(Shape.FieldCheck(path), j.items[..i])
        {
          ghost var before := found;
          Field(j.items[i], Under(path, Item(i)));
          EachThen(Shape.FieldCheck(path), j.items, i, old(found), before, found);
        }
        assert j.items[..|j.items|] == j.items;
      }
    }

    method StorageShape(j: Json, path: Path)
      requires Valid()
      modifies this
      ensures Valid() && found == old(found) + Shape.StorageFaults(j, path)
    {
      var ok := Record(j, Shape.STORAGE_KEYS, {}, path);
      if ok {
        StorageMembers(j, path);
      }
    }

    method StorageMembers(j: Json, path: Path)
      requires Valid() && IsRecord(j, Shape.STORAGE_KEYS, {})
      modifies this
      ensures Valid() && found == old(found) + Shape.StorageFaults(j, path)
    {
      ghost var start := found;
      Name(Shape.Get(j, "schema"), SqlName, Under(path, AtSchema));
      ghost var a := Shape.NameFaults(Shape.Get(j, "schema"), SqlName, Under(path, AtSchema));
      ghost var f1 := found;
      Name(Shape.Get(j, "table"), SqlName, Under(path, AtTable));
      ghost var b := Shape.NameFaults(Shape.Get(j, "table"), SqlName, Under(path, AtTable));
      ghost var f2 := found;
      Then(start, f1, f2, a, b);
      Columns(Shape.Get(j, "columns"), Under(path, AtColumns));
      ghost var c := Shape.ListFaults(Shape.ColumnCheck(Under(path, AtColumns)), Shape.Get(j, "columns"), 1, 128, Under(path, AtColumns));
      ghost var f3 := found;
      Then(start, f2, f3, a + b, c);
      FieldList(Shape.Get(j, "primaryKey"), Under(path, AtPrimaryKey));
      ghost var d := Shape.FieldListFaults(Shape.Get(j, "primaryKey"), Under(path, AtPrimaryKey));
      ghost var f4 := found;
      Then(start, f3, f4, a + b + c, d);
      UniqueKeys(Shape.Get(j, "uniqueKeys"), Under(path, AtUniqueKeys));
      ghost var e := Shape.ListFaults(Shape.KeyCheck(Under(path, AtUniqueKeys)), Shape.Get(j, "uniqueKeys"), 0, 64, Under(path, AtUniqueKeys));
      ghost var f5 := found;
      Then(start, f4, f5, a + b + c + d, e);
      ForeignKeys(Shape.Get(j, "foreignKeys"), Under(path, AtForeignKeys));
      ghost var f := Shape.ListFaults(Shape.ForeignCheck(Under(path, AtForeignKeys)), Shape.Get(j, "foreignKeys"), 0, 64, Under(path, AtForeignKeys));
      Then(start, f5, found, a + b + c + d + e, f);
    }

    method ModelShape(j: Json, path: Path)
      requires Valid()
      modifies this
      ensures Valid() && found == old(found) + Shape.ModelFaults(j, path)
    {
      var ok := Record(j, Shape.MODEL_KEYS, {"storage"}, path);
      if ok {
        ModelMembers(j, path);
      }
    }

    method ModelMembers(j: Json, path: Path)
      requires Valid() && IsRecord(j, Shape.MODEL_KEYS, {"storage"})
      modifies this
      ensures Valid() && found == old(found) + Shape.ModelFaults(j, path)
    {
      ghost var start := found;
      Name(Shape.Get(j, "name"), ModelName, Under(path, AtName));
      ghost var a := Shape.NameFaults(Shape.Get(j, "name"), ModelName, Under(path, AtName));
      ghost var f1 := found;
      Fields(Shape.Get(j, "fields"), Under(path, AtFields));
      ghost var b := Shape.ListFaults(Shape.FieldCheck(Under(path, AtFields)), Shape.Get(j, "fields"), 1, 128, Under(path, AtFields));
      ghost var f2 := found;
      Then(start, f1, f2, a, b);
      if Shape.Has(j, "storage") {
        StorageShape(Shape.Get(j, "storage"), Under(path, AtStorage));
      }
      ghost var c := if Shape.Has(j, "storage") then Shape.StorageFaults(Shape.Get(j, "storage"), Under(path, AtStorage)) else [];
      Then(start, f2, found, a + b, c);
    }

    method DocumentShape(j: Json)
      requires Valid()
      modifies this
      ensures Valid() && found == old(found) + Shape.ShapeFaults(j)
    {
      var ok := Record(j, Shape.DOCUMENT_KEYS, {}, Root);
      if !ok {
        return;
      }
      Require(Shape.Get(j, "version") == Str(VERSION), UNSUPPORTED_VERSION, Under(Root, AtVersion));
      var models := Shape.Get(j, "models");
      ok := Array(models, 1, 64, Under(Root, AtModels));
      if !ok {
        return;
      }
      ghost var start := found;
      for i := 0 to |models.items|
        invariant Valid() && found == start + Each(Shape.ModelCheck(Under(Root, AtModels)), models.items[..i])
      {
        ghost var before := found;
        ModelShape(models.items[i], Under(Under(Root, AtModels), Item(i)));
        EachThen(Shape.ModelCheck(Under(Root, AtModels)), models.items, i, start, before, found);
      }
      assert models.items[..|models.items|] == models.items;
    }

    // ----- relational phase -----

    method KeyFields(m: Model, keys: seq<seq<string>>, path: Path)
      requires Valid()
      modifies this
      ensures Valid() && found == old(found) + Each(Relational.KeyFieldCheck(m, path), keys)
    {
      var fields := FieldMap(m);
      for i := 0 to |keys|
        invariant Valid() && found == old(found) + Each(Relational.KeyFieldCheck(m, path), keys[..i])
      {
        ghost var before := found;
        Require(forall n | n in keys[i] :: n in fields, UNKNOWN_KEY_FIELD, path);
        EachThen(Relational.KeyFieldCheck(m, path), keys, i, old(found), before, found);
      }
      assert keys[..|keys|] == keys;
    }

    method Mapping(m: Model, s: Storage, path: Path)
      requires Valid()
      modifies this
      ensures Valid() && found == old(found) + Relational.MappingFaults(m, s, path)
    {
      var distinct, unreserved, complete, present := MappingConditions(m, s);
      ghost var start := found;
      Require(distinct, DUPLICATE_COLUMN, Under(path, AtColumns));
      ghost var (f1, a) := (found, Unless(Relational.ColumnsDistinct(s), DUPLICATE_COLUMN, Under(path, AtColumns)));
      Require(unreserved, RESERVED_COLUMN, Under(path, AtColumns));
      ghost var (f2, b) := (found, Unless(Relational.ColumnsUnreserved(s), RESERVED_COLUMN, Under(path, AtColumns)));
      Then(start, f1, f2, a, b);
      Require(complete, INCOMPLETE_MAPPING, Under(path, AtColumns));
      ghost var (f3, c) := (found, Unless(ColumnMap(s).Keys == FieldMap(m).Keys, INCOMPLETE_MAPPING, Under(path, AtColumns)));
      Then(start, f2, f3, a + b, c);
      Require(present, LOSSY_PRESENCE, path);
      Then(start, f3, found, a + b + c, Unless(Relational.AllRequired(m), LOSSY_PRESENCE, path));
    }

    static method MappingConditions(m: Model, s: Storage)
      returns (distinct: bool, unreserved: bool, complete: bool, present: bool)
      ensures distinct <==> Relational.ColumnsDistinct(s)
      ensures unreserved <==> Relational.ColumnsUnreserved(s)
      ensures complete <==> ColumnMap(s).Keys == FieldMap(m).Keys
      ensures present <==> Relational.AllRequired(m)
    {
      var (columns, fields) := (ColumnMap(s), FieldMap(m));
      distinct := |columns| == |s.columns| && |ToSet(Map(NameOfColumn, s.columns))| == |s.columns|;
      DistinctColumns(s);
      unreserved := forall c | c in s.columns :: c.name !in SYSTEM_COLUMNS;
      complete := |columns| == |fields| && (forall n | n in columns :: n in fields) && (forall n | n in fields :: n in columns);
      SameKeys(columns, fields);
      present := forall f | f in m.fields :: f.required;
    }

    method StoredKeys(m: Model, s: Storage, path: Path)
      requires Valid()
      modifies this
      ensures Valid() && found == old(found) + Relational.KeyFaults(m, s, path)
    {
      var (keys, fields) := (Keys(s), FieldMap(m));
      var signatures := Map(Relational.Signature, keys);
      SetSize(signatures);
      ghost var start := found;
      Require(|ToSet(signatures)| == |signatures|, DUPLICATE_KEY, path);
      ghost var (f1, a) := (found, Unless(NoDup(Map(Relational.Signature, Keys(s))), DUPLICATE_KEY, path));
      KeyFields(m, keys, path);
      ghost var (f2, b) := (found, Each(Relational.KeyFieldCheck(m, path), Keys(s)));
      Then(start, f1, f2, a, b);
      Require(forall n | n in s.primaryKey && n in fields :: !fields[n].nullable, NULLABLE_PRIMARY_KEY, Under(path, AtPrimaryKey));
      Then(start, f2, found, a + b,
           Unless(Relational.NotNullableFields(m, s.primaryKey), NULLABLE_PRIMARY_KEY, Under(path, AtPrimaryKey)));
    }

    /** One resolved foreign key: its target exists, is an ordered key, and agrees in types. */
    method Resolved(m: Model, k: ForeignKey, models: map<string, Model>, path: Path)
      requires Valid()
      modifies this
      ensures Valid() && found == old(found) + Relational.ReferenceFaults(m, k, models, path)
    {
      if k.model !in models || models[k.model].storage.None? {
        Error(UNKNOWN_REFERENCE, Under(path, AtReferences));
        return;
      }
      var target := models[k.model];
      var (fields, targets) := (FieldMap(m), FieldMap(target));
      if |k.fields| != |k.targetFields| || (exists n | n in k.fields :: n !in fields) ||
         (exists n | n in k.targetFields :: n !in targets)
      {
        Error(INVALID_FOREIGN_KEY, path);
        return;
      }
      Agreeing(m, k, target, path);
    }

    method Agreeing(m: Model, k: ForeignKey, target: Model, path: Path)
      requires Valid()
      requires target.storage.Some? && |k.fields| == |k.targetFields|
      requires Resolves(m, k.fields) && Resolves(target, k.targetFields)
      modifies this
      ensures Valid()
      ensures found == old(found) + (
                Unless(k.targetFields in Keys(target.storage.value), NON_UNIQUE_REFERENCE, Under(path, AtReferences)) +
                Unless(Relational.SameTypes(m, k, target), FOREIGN_KEY_TYPE_MISMATCH, path) +
                Unless(k.onDelete == SetNull ==> Relational.NullableFields(m, k.fields), INVALID_SET_NULL, path))
    {
      var (fields, targets) := (FieldMap(m), FieldMap(target));
      ghost var start := found;
      Require(exists candidate | candidate in Keys(target.storage.value) ::
                |candidate| == |k.targetFields| && forall i | 0 <= i < |candidate| :: candidate[i] == k.targetFields[i],
              NON_UNIQUE_REFERENCE, Under(path, AtReferences));
      CandidateFound(k.targetFields, Keys(target.storage.value));
      ghost var f1 := found;
      ghost var a := Unless(k.targetFields in Keys(target.storage.value), NON_UNIQUE_REFERENCE, Under(path, AtReferences));
      Require(forall i | 0 <= i < |k.fields| :: fields[k.fields[i]].scalar == targets[k.targetFields[i]].scalar,
              FOREIGN_KEY_TYPE_MISMATCH, path);
      ghost var (f2, b) := (found, Unless(Relational.SameTypes(m, k, target), FOREIGN_KEY_TYPE_MISMATCH, path));
      Then(start, f1, f2, a, b);
      Require(k.onDelete == SetNull ==> forall n | n in k.fields :: fields[n].nullable, INVALID_SET_NULL, path);
      Then(start, f2, found, a + b,
           Unless(k.onDelete == SetNull ==> Relational.NullableFields(m, k.fields), INVALID_SET_NULL, path));
    }

    method References(m: Model, keys: seq<ForeignKey>, models: map<string, Model>, path: Path)
      requires Valid()
      modifies this
      ensures Valid() && found == old(found) + Each(Relational.ForeignCheck(m, keys, models, path), keys)
    {
      var seen: set<string> := {};
      for i := 0 to |keys|
        invariant Valid() && found == old(found) + Each(Relational.ForeignCheck(m, keys, models, path), keys[..i])
        invariant seen == ToSet(Map(Relational.RelationshipText, keys[..i]))
      {
        ghost var before := found;
        Relationship(m, keys, i, models, seen, path);
        EachThen(Relational.ForeignCheck(m, keys, models, path), keys, i, old(found), before, found);
        SeenGrows(Relational.RelationshipText, keys, i);
        seen := seen + {Relational.RelationshipText(keys[i])};
      }
      assert keys[..|keys|] == keys;
    }

    method Relationship(
      m: Model, keys: seq<ForeignKey>, i: nat, models: map<string, Model>, seen: set<string>, path: Path)
      requires Valid() && i < |keys| && seen == ToSet(Map(Relational.RelationshipText, keys[..i]))
      modifies this
      ensures Valid() && found == old(found) + Relational.ForeignCheck(m, keys, models, path)(keys[i], i)
    {
      ghost var repeated := Relational.Repeated(Relational.RelationshipText, keys, i);
      Require(Relational.RelationshipText(keys[i]) !in seen, DUPLICATE_FOREIGN_KEY, Under(path, Item(i)));
      ghost var middle := found;
      Resolved(m, keys[i], models, Under(path, Item(i)));
      Then(old(found), middle, found, Unless(!repeated, DUPLICATE_FOREIGN_KEY, Under(path, Item(i))),
           Relational.ReferenceFaults(m, keys[i], models, Under(path, Item(i))));
    }

    /** The rules of one stored model; its table joins the tables seen so far. */
    method Stored(d: Document, i: nat, m: Model, s: Storage, tables: set<string>, path: Path) returns (tables': set<string>)
      requires Valid() && i <= |d| && tables == ToSet(FlatMap(Relational.TableTexts, d[..i]))
      modifies this
      ensures Valid() && found == old(found) + Relational.StoredFaults(d, i, m, s, path)
      ensures tables' == tables + {Relational.TableText(s)}
    {
      ghost var start := found;
      Require(!("pg_" <= s.schema) && s.schema != "information_schema", RESERVED_SCHEMA, Under(path, AtSchema));
      ghost var (f1, a) := (found, Unless(!ReservedSchema(s.schema), RESERVED_SCHEMA, Under(path, AtSchema)));
      var table := Relational.TableText(s);
      Require(table !in tables, DUPLICATE_TABLE, path);
      tables' := tables + {table};
      ghost var (f2, b) := (found, Unless(!Relational.TableTaken(d, i, s), DUPLICATE_TABLE, path));
      Then(start, f1, f2, a, b);
      Mapping(m, s, path);
      ghost var (f3, c) := (found, Relational.MappingFaults(m, s, path));
      Then(start, f2, f3, a + b, c);
      StoredKeys(m, s, path);
      ghost var (f4, e) := (found, Relational.KeyFaults(m, s, path));
      Then(start, f3, f4, a + b + c, e);
      References(m, s.foreignKeys, ModelMap(d), Under(path, AtForeignKeys));
      Then(start, f4, found, a + b + c + e,
           Each(Relational.ForeignCheck(m, s.foreignKeys, ModelMap(d), Under(path, AtForeignKeys)), s.foreignKeys));
    }

    method ModelRules(d: Document, i: nat, tables: set<string>, path: Path) returns (tables': set<string>)
      requires Valid() && i < |d| && tables == ToSet(FlatMap(Relational.TableTexts, d[..i]))
      modifies this
      ensures Valid() && found == old(found) + Relational.ModelFaults(d, i, d[i], path)
      ensures tables' == ToSet(FlatMap(Relational.TableTexts, d[..i + 1]))
    {
      var m := d[i];
      IndexBySize(NameOfField, m.fields);
      TablesGrow(d, i);
      ghost var start := found;
      Require(|FieldMap(m)| == |m.fields|, DUPLICATE_FIELD, Under(path, AtFields));
      ghost var (f1, a) := (found, Unless(NoDup(FieldNames(m)), DUPLICATE_FIELD, Under(path, AtFields)));
      tables' := tables;
      if m.storage.Some? {
        tables' := Stored(d, i, m, m.storage.value, tables, Under(path, AtStorage));
        Then(start, f1, found, a, Relational.StoredFaults(d, i, m, m.storage.value, Under(path, AtStorage)));
      }
    }

    method AllModels(d: Document)
      requires Valid()
      modifies this
      ensures Valid() && found == old(found) + Each(Relational.ModelCheck(d), d)
    {
      var tables: set<string> := {};
      for i := 0 to |d|
        invariant Valid() && found == old(found) + Each(Relational.ModelCheck(d), d[..i])
        invariant tables == ToSet(FlatMap(Relational.TableTexts, d[..i]))
      {
        ghost var before := found;
        tables := ModelRules(d, i, tables, Under(Under(Root, AtModels), Item(i)));
        EachThen(Relational.ModelCheck(d), d, i, old(found), before, found);
      }
      assert d[..|d|] == d;
    }

    method DocumentRules(d: Document)
      requires Valid()
      modifies this
      ensures Valid() && found == old(found) + Relational.RelationalFaults(d)
    {
      IndexBySize(NameOfModel, d);
      Require(|ModelMap(d)| == |d|, DUPLICATE_MODEL, Under(Root, AtModels));
      ghost var middle := found;
      AllModels(d);
      Then(old(found), middle, found, Unless(NoDup(Map(NameOfModel, d)), DUPLICATE_MODEL, Under(Root, AtModels)),
           Each(Relational.ModelCheck(d), d));
    }

    // ----- SQL-name phase -----

    method Indexes(own: seq<string>, relations: set<string>, ghost taken: seq<string>, path: Path)
      returns (relations': set<string>)
      requires Valid() && relations == ToSet(taken)
      modifies this
      ensures Valid() && found == old(found) + Each(Relational.TakenCheck(taken, own, path), own)
      ensures relations' == ToSet(taken + own)
    {
      relations' := relations;
      assert taken + own[..0] == taken;
      for i := 0 to |own|
        invariant Valid() && found == old(found) + Each(Relational.TakenCheck(taken, own, path), own[..i])
        invariant relations' == ToSet(taken + own[..i])
      {
        ghost var before := found;
        Require(own[i] !in relations', SQL_NAME_COLLISION, path);
        TakenCheckMeans(taken, own, path, i);
        EachThen(Relational.TakenCheck(taken, own, path), own, i, old(found), before, found);
        TakenGrows(taken, own, i);
        relations' := relations' + {own[i]};
      }
      assert own[..|own|] == own;
    }

    method ModelNames(d: Document, i: nat, relations: set<string>, path: Path) returns (relations': set<string>)
      requires Valid() && i < |d| && TargetsFound(d)
      requires relations == ToSet(Relational.RelationsBefore(d, i))
      modifies this
      ensures Valid() && found == old(found) + Relational.NameFaultsOf(d, i, d[i], path)
      ensures relations' == ToSet(Relational.RelationsBefore(d, i + 1))
    {
      var m := d[i];
      RelationsGrow(d, i);
      relations' := relations;
      if m.storage.None? {
        return;
      }
      var s := m.storage.value;
      var names := IndexNames(s) + ForeignNames(s, s.foreignKeys, ModelMap(d));
      SetSize(names);
      ghost var start := found;
      Require(|ToSet(names)| == |names|, SQL_NAME_COLLISION, path);
      ghost var f1 := found;
      ghost var a := Unless(ConstraintNamesOk(Persisted(m, s), ModelMap(d)), SQL_NAME_COLLISION, path);
      relations' := Indexes(Relational.IndexTexts(m), relations, Relational.RelationsBefore(d, i), path);
      Then(start, f1, found, a,
           Each(Relational.TakenCheck(Relational.RelationsBefore(d, i), Relational.IndexTexts(m), path), Relational.IndexTexts(m)));
    }

    method DocumentNames(d: Document)
      requires Valid() && TargetsFound(d)
      modifies this
      ensures Valid() && found == old(found) + Relational.NameFaults(d)
    {
      var relations := ToSet(FlatMap(Relational.TableTexts, d));
      RelationsAtStart(d);
      for i := 0 to |d|
        invariant Valid() && found == old(found) + Each(Relational.NameCheck(d), d[..i])
        invariant relations == ToSet(Relational.RelationsBefore(d, i))
      {
        ghost var before := found;
        relations := ModelNames(d, i, relations, Under(Under(Under(Root, AtModels), Item(i)), AtStorage));
        EachThen(Relational.NameCheck(d), d, i, old(found), before, found);
      }
      assert d[..|d|] == d;
    }
  }

  lemma DistinctColumns(s: Storage)
    ensures Relational.ColumnsDistinct(s) <==>
              |ColumnMap(s)| == |s.columns| && |ToSet(Map(NameOfColumn, s.columns))| == |s.columns|
  {
    IndexBySize(FieldOfColumn, s.columns);
    SetSize(Map(NameOfColumn, s.columns));
  }

  lemma SameKeys<A, B>(a: map<string, A>, b: map<string, B>)
    ensures a.Keys == b.Keys <==> |a| == |b| && (forall n | n in a :: n in b) && (forall n | n in b :: n in a)
  {
    if a.Keys == b.Keys {
      assert |a| == |a.Keys| && |b| == |b.Keys|;
    }
  }

  lemma CandidateFound(key: seq<string>, keys: seq<seq<string>>)
    ensures key in keys <==>
              exists candidate | candidate in keys ::
                |candidate| == |key| && forall i | 0 <= i < |candidate| :: candidate[i] == key[i]
  {
    if candidate :| candidate in keys && |candidate| == |key| && forall i | 0 <= i < |candidate| :: candidate[i] == key[i] {
      assert candidate == key;
    }
  }

  lemma SeenGrows<T>(key: T -> string, items: seq<T>, i: nat)
    requires i < |items|
    ensures Map(key, items[..i + 1]) == Map(key, items[..i]) + [key(items[i])]
  {
  }

  lemma TakenCheckMeans(taken: seq<string>, own: seq<string>, path: Path, i: nat)
    requires i < |own|
    ensures Relational.TakenCheck(taken, own, path)(own[i], i) ==
              Unless(own[i] !in ToSet(taken + own[..i]), SQL_NAME_COLLISION, path)
  {
  }

  lemma TakenGrows(taken: seq<string>, own: seq<string>, i: nat)
    requires i < |own|
    ensures ToSet(taken + own[..i + 1]) == ToSet(taken + own[..i]) + {own[i]}
  {
    assert taken + own[..i + 1] == taken + own[..i] + [own[i]];
  }

  lemma TablesGrow(d: Document, i: nat)
    requires i < |d|
    ensures FlatMap(Relational.TableTexts, d[..i + 1]) == FlatMap(Relational.TableTexts, d[..i]) + Relational.TableTexts(d[i])
  {
    assert d[..i + 1] == d[..i] + [d[i]];
    FlatMapSnoc(Relational.TableTexts, d[..i], d[i]);
  }

  lemma RelationsGrow(d: Document, i: nat)
    requires i < |d|
    ensures Relational.RelationsBefore(d, i + 1) == Relational.RelationsBefore(d, i) + Relational.IndexTexts(d[i])
  {
    assert d[..i + 1] == d[..i] + [d[i]];
    FlatMapSnoc(Relational.IndexTexts, d[..i], d[i]);
  }

  lemma RelationsAtStart(d: Document)
    ensures Relational.RelationsBefore(d, 0) == FlatMap(Relational.TableTexts, d)
  {
  }

  /** Every foreign key of every stored model finds a stored target. */
  ghost predicate TargetsFound(d: Document) {
    forall m | m in d && m.storage.Some? :: Targets(m.storage.value.foreignKeys, ModelMap(d))
  }

  lemma TargetsResolve(d: Document)
    requires RelationsOk(d)
    ensures TargetsFound(d)
  {
    forall m | m in d && m.storage.Some? ensures Targets(m.storage.value.foreignKeys, ModelMap(d)) {
      assert ModelResolved(m, ModelMap(d));
    }
  }

  /**
   * Accepts exactly the JSON forms of well-formed documents; otherwise reports the first
   * hundred faults, so the cap on diagnostics never turns a rejection into an acceptance.
   */
  method Validate(value: Json) returns (document: Option<Document>, diagnostics: seq<Diagnostic>)
    ensures diagnostics == Capped(Faults(value))
    ensures document.Some? <==> diagnostics == []
    ensures forall x | x in diagnostics :: Means(value, x)
    ensures |diagnostics| < 100 ==> forall x :: Means(value, x) ==> x in diagnostics
    ensures InReportOrder(value, diagnostics)
    ensures document.Some? ==> WellFormed(document.value) && Reading.Spells(value, document.value) && Shape.Encode(document.value) == value
    ensures forall d: Document :: WellFormed(d) && Shape.Encode(d) == value ==> document == Some(d)
  {
    var validator := new Validator();
    validator.DocumentShape(value);
    document := None;
    if validator.diagnostics == [] {
      Shape.DocumentDecodes(value);
      var d := Shape.Decode(value);
      var accepted := AcceptDocument(validator, d);
      document := if accepted then Some(d) else None;
    }
    diagnostics := validator.diagnostics;
    OnlyDocument(value);
    AllFaultsMean(value);
    FaultsInOrder(value);
    if document.Some? {
      Reading.ReadingSpells(value, document.value);
    }
  }

  /** The phases after the shape phase, on the document they read. */
  method AcceptDocument(validator: Validator, d: Document) returns (accepted: bool)
    requires validator.Valid() && validator.found == [] && DeclarationsOk(d)
    modifies validator
    ensures validator.Valid()
    ensures validator.found == if Relational.RelationalFaults(d) != [] then Relational.RelationalFaults(d) else Relational.NameFaults(d)
    ensures accepted <==> validator.diagnostics == []
    ensures accepted <==> WellFormed(d)
  {
    validator.DocumentRules(d);
    if validator.diagnostics == [] {
      TargetsAfterRules(d);
      validator.DocumentNames(d);
    }
    accepted := validator.diagnostics == [];
    AcceptedIsWellFormed(d);
  }

  lemma TargetsAfterRules(d: Document)
    requires DeclarationsOk(d) && Relational.RelationalFaults(d) == []
    ensures TargetsFound(d)
  {
    Relational.RelationalFaultsDecide(d);
    TargetsResolve(d);
  }

  lemma OnlyDocument(value: Json)
    ensures forall d: Document | WellFormed(d) && Shape.Encode(d) == value ::
              Shape.ShapeFaults(value) == [] && Shape.Decode(value) == d
  {
    forall d: Document | WellFormed(d) && Shape.Encode(d) == value
      ensures Shape.ShapeFaults(value) == [] && Shape.Decode(value) == d
    {
      Shape.DocumentEncodes(d);
    }
  }
}
