/** The order in which the faults of a document are reported. */
module ReportOrder {
  import opened Seqs
  import opened Json
  import opened Diagnostics
  import opened ShapeMeaning
  import Document
  import Relational
  import RelationalMeaning
  import Shape

  // ----- the shape phase: parts in their order, a part after what is below it -----

  /** The order of the parts of every record; items come by their index. */
  function Rank(s: Step): int {
    match s
    case Item(i) => i
    case AtVersion => 0
    case AtModels => 1
    case AtField => 2
    case AtName => 3
    case AtType => 4
    case AtRequired => 5
    case AtNullable => 6
    case AtMinLength => 7
    case AtMaxLength => 8
    case AtSchema => 9
    case AtTable => 10
    case AtColumns => 11
    case AtPrimaryKey => 12
    case AtUniqueKeys => 13
    case AtForeignKeys => 14
    case AtModel => 15
    case AtFields => 16
    case AtReferences => 17
    case AtOnDelete => 18
    case AtStorage => 19
  }

  predicate Earlier(a: seq<Step>, b: seq<Step>)
    decreases |a|
  {
    if a == [] then false
    else if b == [] then true
    else if a[0] != b[0] then Rank(a[0]) < Rank(b[0])
    else Earlier(a[1..], b[1..])
  }

  predicate ShapeBefore(x: Diagnostic, y: Diagnostic) { Earlier(StepsOf(x.path), StepsOf(y.path)) }

  // ----- lists of faults at or below a part -----

  predicate Beneath(base: Path, x: Diagnostic) { StepsOf(base) <= StepsOf(x.path) }

  ghost predicate Ordered(base: Path, xs: seq<Diagnostic>) {
    && (forall x | x in xs :: Beneath(base, x))
    && forall i, k | 0 <= i < k < |xs| :: ShapeBefore(xs[i], xs[k])
  }

  /** Below the part, under a step of at most this rank. */
  predicate Deeper(base: Path, rank: int, x: Diagnostic) {
    Beneath(base, x) && |StepsOf(base)| < |StepsOf(x.path)| && Rank(StepsOf(x.path)[|StepsOf(base)|]) <= rank
  }

  ghost predicate OrderedUpto(base: Path, rank: int, xs: seq<Diagnostic>) {
    && (forall x | x in xs :: Deeper(base, rank, x))
    && forall i, k | 0 <= i < k < |xs| :: ShapeBefore(xs[i], xs[k])
  }

  lemma {:induction false} EarlierAfter(p: seq<Step>, a: seq<Step>, b: seq<Step>)
    ensures Earlier(p + a, p + b) == Earlier(a, b)
    decreases |p|
  {
    if p == [] {
      assert p + a == a && p + b == b;
    } else {
      assert (p + a)[1..] == p[1..] + a && (p + b)[1..] == p[1..] + b;
      EarlierAfter(p[1..], a, b);
    }
  }

  lemma {:induction false} StepUnder(base: Path, s: Step, x: Diagnostic)
    requires Beneath(Under(base, s), x)
    ensures Beneath(base, x) && |StepsOf(base)| < |StepsOf(x.path)| && StepsOf(x.path)[|StepsOf(base)|] == s
  {
    var (p, q) := (StepsOf(base), StepsOf(x.path));
    assert StepsOf(Under(base, s)) == p + [s];
    assert q[..|p| + 1] == p + [s];
    assert q[..|p|] == p;
  }

  /** Faults under steps of smaller rank come before those under this step. */
  lemma {:induction false} SmallerFirst(base: Path, rank: int, s: Step, x: Diagnostic, y: Diagnostic)
    requires rank < Rank(s) && Deeper(base, rank, x) && Beneath(Under(base, s), y)
    ensures ShapeBefore(x, y) && Deeper(base, Rank(s), x) && Deeper(base, Rank(s), y)
  {
    StepUnder(base, s, y);
    var (p, a, b) := (StepsOf(base), StepsOf(x.path), StepsOf(y.path));
    assert a == p + a[|p|..] && b == p + b[|p|..];
    EarlierAfter(p, a[|p|..], b[|p|..]);
  }

  lemma {:induction false} Joined(base: Path, rank: int, s: Step, a: seq<Diagnostic>, b: seq<Diagnostic>)
    requires OrderedUpto(base, rank, a) && rank < Rank(s) && Ordered(Under(base, s), b)
    ensures OrderedUpto(base, Rank(s), a + b)
  {
    var all := a + b;
    forall x | x in all ensures Deeper(base, Rank(s), x) {
      if x in b {
        StepUnder(base, s, x);
      }
    }
    forall i, k | 0 <= i < k < |all| ensures ShapeBefore(all[i], all[k]) {
      if i < |a| <= k {
        assert a[i] in a && b[k - |a|] in b;
        SmallerFirst(base, rank, s, a[i], b[k - |a|]);
      }
    }
  }

  lemma {:induction false} WithOwn(base: Path, rank: int, xs: seq<Diagnostic>, condition: bool, code: Code)
    requires OrderedUpto(base, rank, xs)
    ensures Ordered(base, xs + Unless(condition, code, base))
  {
    var all := xs + Unless(condition, code, base);
    forall i, k | 0 <= i < k < |all| ensures ShapeBefore(all[i], all[k]) {
      if k == |xs| {
        assert xs[i] in xs;
        var (p, q) := (StepsOf(base), StepsOf(xs[i].path));
        assert q == p + q[|p|..] && p == p + [];
        EarlierAfter(p, q[|p|..], []);
      }
    }
  }

  lemma {:induction false} Whole(base: Path, rank: int, xs: seq<Diagnostic>)
    requires OrderedUpto(base, rank, xs)
    ensures Ordered(base, xs)
  {
  }

  lemma {:induction false} One(condition: bool, code: Code, path: Path)
    ensures Ordered(path, Unless(condition, code, path))
  {
  }

  lemma {:induction false} EachOrdered<T>(check: (T, int) -> seq<Diagnostic>, items: seq<T>, base: Path)
    requires forall i | 0 <= i < |items| :: Ordered(Under(base, Item(i)), check(items[i], i))
    ensures OrderedUpto(base, |items| - 1, Each(check, items))
  {
    if items != [] {
      var n := |items| - 1;
      forall i | 0 <= i < n ensures Ordered(Under(base, Item(i)), check(items[..n][i], i)) {
        assert items[..n][i] == items[i];
      }
      EachOrdered(check, items[..n], base);
      Joined(base, n - 1, Item(n), Each(check, items[..n]), check(items[n], n));
    }
  }

  lemma {:induction false} Start(base: Path)
    ensures OrderedUpto(base, -1, [])
  {
  }

  /** The first part. */
  lemma {:induction false} First(base: Path, s: Step, xs: seq<Diagnostic>)
    requires Rank(s) >= 0 && Ordered(Under(base, s), xs)
    ensures OrderedUpto(base, Rank(s), xs)
  {
    Start(base);
    Joined(base, -1, s, [], xs);
    assert [] + xs == xs;
  }

  lemma {:induction false} ListOrdered(check: (Json, int) -> seq<Diagnostic>, j: Json, min: nat, max: nat, base: Path)
    requires j.Arr? ==> forall i | 0 <= i < |j.items| :: Ordered(Under(base, Item(i)), check(j.items[i], i))
    ensures Ordered(base, Shape.ListFaults(check, j, min, max, base))
  {
    if Shape.IsArray(j, min, max) {
      EachOrdered(check, j.items, base);
      Whole(base, |j.items| - 1, Each(check, j.items));
    }
  }

  lemma {:induction false} RecordOrdered(j: Json, required: set<string>, optional: set<string>, path: Path)
    ensures Ordered(path, Shape.RecordFaults(j, required, optional, path))
  {
  }

  // ----- part by part -----

  lemma {:induction false} NamesOrdered(j: Json, path: Path)
    ensures Ordered(path, Shape.FieldListFaults(j, path))
  {
    if Shape.IsArray(j, 1, 128) {
      var check := Shape.NameCheck(Document.FieldName, path);
      EachOrdered(check, j.items, path);
      WithOwn(path, |j.items| - 1, Each(check, j.items), !Shape.Repeats(j.items), DUPLICATE_KEY_FIELD);
    }
  }

  lemma {:induction false} ColumnOrdered(j: Json, path: Path)
    ensures Ordered(path, Shape.ColumnFaults(j, path))
  {
    RecordOrdered(j, Shape.COLUMN_KEYS, {}, path);
    if Shape.RecordFaults(j, Shape.COLUMN_KEYS, {}, path) == [] {
      var a := Shape.NameFaults(Shape.Get(j, "field"), Document.FieldName, Under(path, AtField));
      var b := Shape.NameFaults(Shape.Get(j, "name"), Document.SqlName, Under(path, AtName));
      First(path, AtField, a);
      Joined(path, Rank(AtField), AtName, a, b);
      Whole(path, Rank(AtName), a + b);
    }
  }

  lemma {:induction false} ReferenceOrdered(j: Json, path: Path)
    ensures Ordered(path, Shape.ReferenceFaults(j, path))
  {
    RecordOrdered(j, Shape.REFERENCE_KEYS, {}, path);
    if Shape.RecordFaults(j, Shape.REFERENCE_KEYS, {}, path) == [] {
      var a := Shape.NameFaults(Shape.Get(j, "model"), Document.ModelName, Under(path, AtModel));
      var b := Shape.FieldListFaults(Shape.Get(j, "fields"), Under(path, AtFields));
      NamesOrdered(Shape.Get(j, "fields"), Under(path, AtFields));
      First(path, AtModel, a);
      Joined(path, Rank(AtModel), AtFields, a, b);
      Whole(path, Rank(AtFields), a + b);
    }
  }

  lemma {:induction false} ForeignOrdered(j: Json, path: Path)
    ensures Ordered(path, Shape.ForeignFaults(j, path))
  {
    RecordOrdered(j, Shape.FOREIGN_KEYS, {}, path);
    if Shape.RecordFaults(j, Shape.FOREIGN_KEYS, {}, path) == [] {
      var a := Shape.FieldListFaults(Shape.Get(j, "fields"), Under(path, AtFields));
      var b := Shape.ReferenceFaults(Shape.Get(j, "references"), Under(path, AtReferences));
      var c := Unless(Shape.ActionOf(Shape.Get(j, "onDelete")).Some?, UNSUPPORTED_DELETE_ACTION, Under(path, AtOnDelete));
      NamesOrdered(Shape.Get(j, "fields"), Under(path, AtFields));
      ReferenceOrdered(Shape.Get(j, "references"), Under(path, AtReferences));
      First(path, AtFields, a);
      Joined(path, Rank(AtFields), AtReferences, a, b);
      Joined(path, Rank(AtReferences), AtOnDelete, a + b, c);
      Whole(path, Rank(AtOnDelete), a + b + c);
    }
  }

  lemma {:induction false} FieldOrdered(j: Json, path: Path)
    ensures Ordered(path, Shape.FieldFaults(j, path))
  {
    RecordOrdered(j, Shape.FIELD_KEYS, Shape.LENGTH_KEYS, path);
    if Shape.RecordFaults(j, Shape.FIELD_KEYS, Shape.LENGTH_KEYS, path) == [] {
      var a := Shape.NameFaults(Shape.Get(j, "name"), Document.FieldName, Under(path, AtName));
      var b := Unless(Shape.ScalarOf(Shape.Get(j, "type")).Some?, UNSUPPORTED_TYPE, Under(path, AtType));
      var c := Unless(Shape.Get(j, "required").Bool?, INVALID_BOOLEAN, Under(path, AtRequired));
      var d := Unless(Shape.Get(j, "nullable").Bool?, INVALID_BOOLEAN, Under(path, AtNullable));
      var e := Unless(Shape.LengthAllowed(j, "minLength"), INVALID_LENGTH, Under(path, AtMinLength));
      var f := Unless(Shape.LengthAllowed(j, "maxLength"), INVALID_LENGTH, Under(path, AtMaxLength));
      First(path, AtName, a);
      Joined(path, Rank(AtName), AtType, a, b);
      Joined(path, Rank(AtType), AtRequired, a + b, c);
      Joined(path, Rank(AtRequired), AtNullable, a + b + c, d);
      Joined(path, Rank(AtNullable), AtMinLength, a + b + c + d, e);
      Joined(path, Rank(AtMinLength), AtMaxLength, a + b + c + d + e, f);
      WithOwn(path, Rank(AtMaxLength), a + b + c + d + e + f, Shape.LengthsAgree(j), CONTRADICTORY_LENGTH);
    }
  }

  lemma {:induction false} ListsOrdered(j: Json, path: Path)
    ensures Ordered(Under(path, AtColumns), Shape.ListFaults(Shape.ColumnCheck(Under(path, AtColumns)), Shape.Get(j, "columns"), 1, 128, Under(path, AtColumns)))
    ensures Ordered(Under(path, AtUniqueKeys), Shape.ListFaults(Shape.KeyCheck(Under(path, AtUniqueKeys)), Shape.Get(j, "uniqueKeys"), 0, 64, Under(path, AtUniqueKeys)))
    ensures Ordered(Under(path, AtForeignKeys), Shape.ListFaults(Shape.ForeignCheck(Under(path, AtForeignKeys)), Shape.Get(j, "foreignKeys"), 0, 64, Under(path, AtForeignKeys)))
  {
    forall x: Json, i | true ensures Ordered(Under(Under(path, AtColumns), Item(i)), Shape.ColumnCheck(Under(path, AtColumns))(x, i)) {
      ColumnOrdered(x, Under(Under(path, AtColumns), Item(i)));
    }
    forall x: Json, i | true ensures Ordered(Under(Under(path, AtUniqueKeys), Item(i)), Shape.KeyCheck(Under(path, AtUniqueKeys))(x, i)) {
      NamesOrdered(x, Under(Under(path, AtUniqueKeys), Item(i)));
    }
    forall x: Json, i | true ensures Ordered(Under(Under(path, AtForeignKeys), Item(i)), Shape.ForeignCheck(Under(path, AtForeignKeys))(x, i)) {
      ForeignOrdered(x, Under(Under(path, AtForeignKeys), Item(i)));
    }
    ListOrdered(Shape.ColumnCheck(Under(path, AtColumns)), Shape.Get(j, "columns"), 1, 128, Under(path, AtColumns));
    ListOrdered(Shape.KeyCheck(Under(path, AtUniqueKeys)), Shape.Get(j, "uniqueKeys"), 0, 64, Under(path, AtUniqueKeys));
    ListOrdered(Shape.ForeignCheck(Under(path, AtForeignKeys)), Shape.Get(j, "foreignKeys"), 0, 64, Under(path, AtForeignKeys));
  }

  lemma {:induction false} SixJoined(
    path: Path, a: seq<Diagnostic>, b: seq<Diagnostic>, c: seq<Diagnostic>, d: seq<Diagnostic>, e: seq<Diagnostic>, f: seq<Diagnostic>)
    requires Ordered(Under(path, AtSchema), a) && Ordered(Under(path, AtTable), b) && Ordered(Under(path, AtColumns), c)
    requires Ordered(Under(path, AtPrimaryKey), d) && Ordered(Under(path, AtUniqueKeys), e) && Ordered(Under(path, AtForeignKeys), f)
    ensures Ordered(path, a + b + c + d + e + f)
  {
    First(path, AtSchema, a);
    Joined(path, Rank(AtSchema), AtTable, a, b);
    Joined(path, Rank(AtTable), AtColumns, a + b, c);
    Joined(path, Rank(AtColumns), AtPrimaryKey, a + b + c, d);
    Joined(path, Rank(AtPrimaryKey), AtUniqueKeys, a + b + c + d, e);
    Joined(path, Rank(AtUniqueKeys), AtForeignKeys, a + b + c + d + e, f);
    Whole(path, Rank(AtForeignKeys), a + b + c + d + e + f);
  }

  lemma {:induction false} StorageOrdered(j: Json, path: Path)
    ensures Ordered(path, Shape.StorageFaults(j, path))
  {
    RecordOrdered(j, Shape.STORAGE_KEYS, {}, path);
    if Shape.RecordFaults(j, Shape.STORAGE_KEYS, {}, path) == [] {
      ListsOrdered(j, path);
      NamesOrdered(Shape.Get(j, "primaryKey"), Under(path, AtPrimaryKey));
      SixJoined(path,
                Shape.NameFaults(Shape.Get(j, "schema"), Document.SqlName, Under(path, AtSchema)),
                Shape.NameFaults(Shape.Get(j, "table"), Document.SqlName, Under(path, AtTable)),
                Shape.ListFaults(Shape.ColumnCheck(Under(path, AtColumns)), Shape.Get(j, "columns"), 1, 128, Under(path, AtColumns)),
                Shape.FieldListFaults(Shape.Get(j, "primaryKey"), Under(path, AtPrimaryKey)),
                Shape.ListFaults(Shape.KeyCheck(Under(path, AtUniqueKeys)), Shape.Get(j, "uniqueKeys"), 0, 64, Under(path, AtUniqueKeys)),
                Shape.ListFaults(Shape.ForeignCheck(Under(path, AtForeignKeys)), Shape.Get(j, "foreignKeys"), 0, 64, Under(path, AtForeignKeys)));
    }
  }

  lemma {:induction false} ModelOrdered(j: Json, path: Path)
    ensures Ordered(path, Shape.ModelFaults(j, path))
  {
    RecordOrdered(j, Shape.MODEL_KEYS, {"storage"}, path);
    if Shape.RecordFaults(j, Shape.MODEL_KEYS, {"storage"}, path) == [] {
      var here := Under(path, AtFields);
      var a := Shape.NameFaults(Shape.Get(j, "name"), Document.ModelName, Under(path, AtName));
      var b := Shape.ListFaults(Shape.FieldCheck(here), Shape.Get(j, "fields"), 1, 128, here);
      var c := if Shape.Has(j, "storage") then Shape.StorageFaults(Shape.Get(j, "storage"), Under(path, AtStorage)) else [];
      forall x: Json, i | true ensures Ordered(Under(here, Item(i)), Shape.FieldCheck(here)(x, i)) {
        FieldOrdered(x, Under(here, Item(i)));
      }
      ListOrdered(Shape.FieldCheck(here), Shape.Get(j, "fields"), 1, 128, here);
      StorageOrdered(Shape.Get(j, "storage"), Under(path, AtStorage));
      First(path, AtName, a);
      Joined(path, Rank(AtName), AtFields, a, b);
      Joined(path, Rank(AtFields), AtStorage, a + b, c);
      Whole(path, Rank(AtStorage), a + b + c);
    }
  }

  /** Shape faults come part by part, each fault of a part after those below it, and none twice. */
  lemma {:induction false} ShapeFaultsOrdered(j: Json)
    ensures forall i, k | 0 <= i < k < |Shape.ShapeFaults(j)| :: ShapeBefore(Shape.ShapeFaults(j)[i], Shape.ShapeFaults(j)[k])
  {
    RecordOrdered(j, Shape.DOCUMENT_KEYS, {}, Root);
    if Shape.RecordFaults(j, Shape.DOCUMENT_KEYS, {}, Root) == [] {
      var here := Under(Root, AtModels);
      var a := Unless(Shape.Get(j, "version") == Str(Document.VERSION), UNSUPPORTED_VERSION, Under(Root, AtVersion));
      var b := Shape.ListFaults(Shape.ModelCheck(here), Shape.Get(j, "models"), 1, 64, here);
      forall x: Json, i | true ensures Ordered(Under(here, Item(i)), Shape.ModelCheck(here)(x, i)) {
        ModelOrdered(x, Under(here, Item(i)));
      }
      ListOrdered(Shape.ModelCheck(here), Shape.Get(j, "models"), 1, 64, here);
      First(Root, AtVersion, a);
      Joined(Root, Rank(AtVersion), AtModels, a, b);
    }
  }

  // ----- the later phases: model by model, its own rules in turn, then its foreign keys -----

  function ModelOf(path: Path): int {
    var steps := StepsOf(path);
    if |steps| >= 2 && steps[1].Item? then steps[1].index else -1
  }

  /** The foreign key the path leads to, or -1. */
  function ForeignOf(path: Path): int {
    var steps := StepsOf(path);
    if |steps| >= 5 && steps[3] == AtForeignKeys && steps[4].Item? then steps[4].index else -1
  }

  function Turn(code: Code): int {
    match code
    case DUPLICATE_MODEL => 0
    case DUPLICATE_FIELD => 1
    case RESERVED_SCHEMA => 2
    case DUPLICATE_TABLE => 3
    case DUPLICATE_COLUMN => 4
    case RESERVED_COLUMN => 5
    case INCOMPLETE_MAPPING => 6
    case LOSSY_PRESENCE => 7
    case DUPLICATE_KEY => 8
    case UNKNOWN_KEY_FIELD => 9
    case NULLABLE_PRIMARY_KEY => 10
    case DUPLICATE_FOREIGN_KEY => 11
    case UNKNOWN_REFERENCE => 12
    case INVALID_FOREIGN_KEY => 13
    case NON_UNIQUE_REFERENCE => 14
    case FOREIGN_KEY_TYPE_MISMATCH => 15
    case INVALID_SET_NULL => 16
    case _ => 17
  }

  predicate PlaceBefore(x: Diagnostic, y: Diagnostic) {
    || ModelOf(x.path) < ModelOf(y.path)
    || (ModelOf(x.path) == ModelOf(y.path) && ForeignOf(x.path) < ForeignOf(y.path))
    || (ModelOf(x.path) == ModelOf(y.path) && ForeignOf(x.path) == ForeignOf(y.path) && Turn(x.code) < Turn(y.code))
  }

  predicate At(path: Path, m: int, f: int) { ModelOf(path) == m && ForeignOf(path) == f }

  /** Only an unknown key field and a name collision may be reported again, once per key and per name. */
  predicate RuleBefore(x: Diagnostic, y: Diagnostic) {
    PlaceBefore(x, y) || (x == y && (x.code == UNKNOWN_KEY_FIELD || x.code == SQL_NAME_COLLISION))
  }

  ghost predicate InOrder(xs: seq<Diagnostic>) { forall i, k | 0 <= i < k < |xs| :: RuleBefore(xs[i], xs[k]) }

  /** Faults of one model and one foreign key, or of the model itself, at turns between these. */
  ghost predicate InTurn(m: int, f: int, low: int, high: int, xs: seq<Diagnostic>) {
    && InOrder(xs)
    && forall x | x in xs :: At(x.path, m, f) && low <= Turn(x.code) <= high
  }

  ghost predicate InForeigns(m: int, low: int, high: int, xs: seq<Diagnostic>) {
    InOrder(xs) && forall x | x in xs :: ModelOf(x.path) == m && low <= ForeignOf(x.path) <= high
  }

  ghost predicate InModels(low: int, high: int, xs: seq<Diagnostic>) {
    InOrder(xs) && forall x | x in xs :: low <= ModelOf(x.path) <= high
  }

  lemma {:induction false} Appended(a: seq<Diagnostic>, b: seq<Diagnostic>)
    requires InOrder(a) && InOrder(b) && forall x, y | x in a && y in b :: PlaceBefore(x, y)
    ensures InOrder(a + b)
  {
    var all := a + b;
    forall i, k | 0 <= i < k < |all| ensures RuleBefore(all[i], all[k]) {
      if i < |a| <= k {
        assert a[i] in a && b[k - |a|] in b;
      }
    }
  }

  lemma {:induction false} NextTurn(m: int, f: int, low: int, mid: int, high: int, a: seq<Diagnostic>, b: seq<Diagnostic>)
    requires InTurn(m, f, low, mid, a) && InTurn(m, f, mid + 1, high, b) && low <= mid < high
    ensures InTurn(m, f, low, high, a + b)
  {
    Appended(a, b);
  }

  lemma {:induction false} OneTurn(m: int, f: int, condition: bool, code: Code, path: Path)
    requires At(path, m, f)
    ensures InTurn(m, f, Turn(code), Turn(code), Unless(condition, code, path))
  {
  }

  /** Two tests in turn. */
  lemma {:induction false} TwoTurns(m: int, f: int, a: bool, c: Code, p: Path, b: bool, d: Code, q: Path)
    requires At(p, m, f) && At(q, m, f) && Turn(c) + 1 == Turn(d)
    ensures InTurn(m, f, Turn(c), Turn(d), Unless(a, c, p) + Unless(b, d, q))
  {
    OneTurn(m, f, a, c, p);
    OneTurn(m, f, b, d, q);
    NextTurn(m, f, Turn(c), Turn(c), Turn(d), Unless(a, c, p), Unless(b, d, q));
  }

  // Where the paths of a model lead.

  lemma {:induction false} StorageSteps(i: int)
    ensures StepsOf(RelationalMeaning.StorageAt(i)) == [AtModels, Item(i), AtStorage] && At(RelationalMeaning.StorageAt(i), i, -1)
  {
    assert StepsOf(RelationalMeaning.ModelAt(i)) == [AtModels, Item(i)];
  }

  lemma {:induction false} PartPlace(i: int, s: Step)
    requires s != AtForeignKeys
    ensures At(Under(RelationalMeaning.StorageAt(i), s), i, -1)
  {
    StorageSteps(i);
  }

  lemma {:induction false} FieldsPlace(i: int)
    ensures At(Under(RelationalMeaning.ModelAt(i), AtFields), i, -1)
  {
    assert StepsOf(RelationalMeaning.ModelAt(i)) == [AtModels, Item(i)];
  }

  lemma {:induction false} ForeignPlace(i: int, k: int)
    ensures At(RelationalMeaning.ForeignAt(i, k), i, k) && At(Under(RelationalMeaning.ForeignAt(i, k), AtReferences), i, k)
  {
    StorageSteps(i);
    assert StepsOf(Under(RelationalMeaning.StorageAt(i), AtForeignKeys)) == [AtModels, Item(i), AtStorage, AtForeignKeys];
    assert StepsOf(RelationalMeaning.ForeignAt(i, k)) == [AtModels, Item(i), AtStorage, AtForeignKeys, Item(k)];
  }

  // ----- a foreign key -----

  lemma {:induction false} Widened(m: int, f: int, low: int, high: int, least: int, most: int, xs: seq<Diagnostic>)
    requires InTurn(m, f, low, high, xs) && least <= low && high <= most
    ensures InTurn(m, f, least, most, xs)
  {
  }

  lemma {:induction false} ReferenceInTurn(m: Document.Model, k: Document.ForeignKey, models: map<string, Document.Model>, i: int, f: int, path: Path)
    requires At(path, i, f) && At(Under(path, AtReferences), i, f)
    ensures InTurn(i, f, 12, 16, Relational.ReferenceFaults(m, k, models, path))
  {
    if k.model !in models || models[k.model].storage.None? {
      OneTurn(i, f, false, UNKNOWN_REFERENCE, Under(path, AtReferences));
      Widened(i, f, 12, 12, 12, 16, Unless(false, UNKNOWN_REFERENCE, Under(path, AtReferences)));
    } else if |k.fields| != |k.targetFields| || !Document.Resolves(m, k.fields) || !Document.Resolves(models[k.model], k.targetFields) {
      OneTurn(i, f, false, INVALID_FOREIGN_KEY, path);
      Widened(i, f, 13, 13, 12, 16, Unless(false, INVALID_FOREIGN_KEY, path));
    } else {
      var t := models[k.model];
      var (a, b, c) := (k.targetFields in Document.Keys(t.storage.value), Relational.SameTypes(m, k, t),
                        k.onDelete == Document.SetNull ==> Relational.NullableFields(m, k.fields));
      RelationalMeaning.PairedFaults(m, k, models, path);
      ThreeInTurn(a, b, c, i, f, path);
    }
  }

  lemma {:induction false} ThreeInTurn(a: bool, b: bool, c: bool, i: int, f: int, path: Path)
    requires At(path, i, f) && At(Under(path, AtReferences), i, f)
    ensures InTurn(i, f, 12, 16, Unless(a, NON_UNIQUE_REFERENCE, Under(path, AtReferences)) + Unless(b, FOREIGN_KEY_TYPE_MISMATCH, path) +
                                 Unless(c, INVALID_SET_NULL, path))
  {
    var two := Unless(a, NON_UNIQUE_REFERENCE, Under(path, AtReferences)) + Unless(b, FOREIGN_KEY_TYPE_MISMATCH, path);
    TwoTurns(i, f, a, NON_UNIQUE_REFERENCE, Under(path, AtReferences), b, FOREIGN_KEY_TYPE_MISMATCH, path);
    OneTurn(i, f, c, INVALID_SET_NULL, path);
    NextTurn(i, f, 14, 15, 16, two, Unless(c, INVALID_SET_NULL, path));
    Widened(i, f, 14, 16, 12, 16, two + Unless(c, INVALID_SET_NULL, path));
  }

  lemma {:induction false} ForeignInTurn(m: Document.Model, keys: seq<Document.ForeignKey>, models: map<string, Document.Model>, i: int, f: int)
    requires 0 <= f < |keys|
    ensures InTurn(i, f, 11, 16, Relational.ForeignCheck(m, keys, models, Under(RelationalMeaning.StorageAt(i), AtForeignKeys))(keys[f], f))
  {
    var path := RelationalMeaning.ForeignAt(i, f);
    ForeignPlace(i, f);
    OneTurn(i, f, !Relational.Repeated(Relational.RelationshipText, keys, f), DUPLICATE_FOREIGN_KEY, path);
    ReferenceInTurn(m, keys[f], models, i, f, path);
    NextTurn(i, f, 11, 11, 16, Unless(!Relational.Repeated(Relational.RelationshipText, keys, f), DUPLICATE_FOREIGN_KEY, path),
             Relational.ReferenceFaults(m, keys[f], models, path));
  }

  /** Lists of one foreign key each, one after the other. */
  lemma {:induction false} ForeignsInOrder<T>(check: (T, int) -> seq<Diagnostic>, items: seq<T>, m: int)
    requires forall k | 0 <= k < |items| :: InTurn(m, k, 11, 16, check(items[k], k))
    ensures InForeigns(m, 0, |items| - 1, Each(check, items))
  {
    if items != [] {
      var n := |items| - 1;
      forall k | 0 <= k < n ensures InTurn(m, k, 11, 16, check(items[..n][k], k)) {
        assert items[..n][k] == items[k];
      }
      ForeignsInOrder(check, items[..n], m);
      Appended(Each(check, items[..n]), check(items[n], n));
    }
  }

  lemma {:induction false} ModelsInOrder<T>(check: (T, int) -> seq<Diagnostic>, items: seq<T>)
    requires forall k | 0 <= k < |items| :: InModels(k, k, check(items[k], k))
    ensures InModels(0, |items| - 1, Each(check, items))
  {
    if items != [] {
      var n := |items| - 1;
      forall k | 0 <= k < n ensures InModels(k, k, check(items[..n][k], k)) {
        assert items[..n][k] == items[k];
      }
      ModelsInOrder(check, items[..n]);
      Appended(Each(check, items[..n]), check(items[n], n));
    }
  }

  /** The same fault, perhaps many times over. */
  lemma {:induction false} Repetitions<T>(check: (T, int) -> seq<Diagnostic>, items: seq<T>, x: Diagnostic)
    requires forall t, i :: check(t, i) == [] || check(t, i) == [x]
    ensures forall y | y in Each(check, items) :: y == x
  {
    if items != [] {
      Repetitions(check, items[..|items| - 1], x);
    }
  }

  lemma {:induction false} SameFault(xs: seq<Diagnostic>, x: Diagnostic, m: int, f: int)
    requires (forall y | y in xs :: y == x) && At(x.path, m, f) && (x.code == UNKNOWN_KEY_FIELD || x.code == SQL_NAME_COLLISION)
    ensures InTurn(m, f, Turn(x.code), Turn(x.code), xs)
  {
    forall i, k | 0 <= i < k < |xs| ensures RuleBefore(xs[i], xs[k]) {
      assert xs[i] in xs && xs[k] in xs;
    }
  }

  lemma {:induction false} KeyFieldsInTurn(m: Document.Model, keys: seq<seq<string>>, i: int)
    ensures InTurn(i, -1, 9, 9, Each(Relational.KeyFieldCheck(m, RelationalMeaning.StorageAt(i)), keys))
  {
    var x := Diagnostic(UNKNOWN_KEY_FIELD, RelationalMeaning.StorageAt(i));
    StorageSteps(i);
    Repetitions(Relational.KeyFieldCheck(m, RelationalMeaning.StorageAt(i)), keys, x);
    SameFault(Each(Relational.KeyFieldCheck(m, RelationalMeaning.StorageAt(i)), keys), x, i, -1);
  }

  lemma {:induction false} KeyTestsInTurn(p: bool, q: bool, fields: seq<Diagnostic>, i: int, path: Path)
    requires At(path, i, -1) && At(Under(path, AtPrimaryKey), i, -1) && InTurn(i, -1, 9, 9, fields)
    ensures InTurn(i, -1, 8, 10, Unless(p, DUPLICATE_KEY, path) + fields + Unless(q, NULLABLE_PRIMARY_KEY, Under(path, AtPrimaryKey)))
  {
    OneTurn(i, -1, p, DUPLICATE_KEY, path);
    OneTurn(i, -1, q, NULLABLE_PRIMARY_KEY, Under(path, AtPrimaryKey));
    ThreeLists(i, Unless(p, DUPLICATE_KEY, path), fields, Unless(q, NULLABLE_PRIMARY_KEY, Under(path, AtPrimaryKey)), 8, 9, 10);
  }

  lemma {:induction false} KeysInTurn(m: Document.Model, s: Document.Storage, i: int)
    ensures InTurn(i, -1, 8, 10, Relational.KeyFaults(m, s, RelationalMeaning.StorageAt(i)))
  {
    var path := RelationalMeaning.StorageAt(i);
    StorageSteps(i);
    PartPlace(i, AtPrimaryKey);
    KeyFieldsInTurn(m, Document.Keys(s), i);
    KeyTestsInTurn(NoDup(Map(Relational.Signature, Document.Keys(s))), Relational.NotNullableFields(m, s.primaryKey),
                   Each(Relational.KeyFieldCheck(m, path), Document.Keys(s)), i, path);
  }

  lemma {:induction false} ThreeLists(m: int, a: seq<Diagnostic>, b: seq<Diagnostic>, c: seq<Diagnostic>, low: int, mid: int, high: int)
    requires low < mid < high && InTurn(m, -1, low, low, a) && InTurn(m, -1, low + 1, mid, b) && InTurn(m, -1, mid + 1, high, c)
    ensures InTurn(m, -1, low, high, a + b + c)
  {
    NextTurn(m, -1, low, low, mid, a, b);
    NextTurn(m, -1, low, mid, high, a + b, c);
  }

  lemma {:induction false} MappingInTurn(m: Document.Model, s: Document.Storage, i: int)
    ensures InTurn(i, -1, 4, 7, Relational.MappingFaults(m, s, RelationalMeaning.StorageAt(i)))
  {
    StorageSteps(i);
    PartPlace(i, AtColumns);
    FourInTurn(Relational.ColumnsDistinct(s), Relational.ColumnsUnreserved(s), Document.ColumnMap(s).Keys == Document.FieldMap(m).Keys,
               Relational.AllRequired(m), i, RelationalMeaning.StorageAt(i));
  }

  lemma {:induction false} FourInTurn(p: bool, q: bool, r: bool, t: bool, i: int, path: Path)
    requires At(path, i, -1) && At(Under(path, AtColumns), i, -1)
    ensures InTurn(i, -1, 4, 7, Unless(p, DUPLICATE_COLUMN, Under(path, AtColumns)) + Unless(q, RESERVED_COLUMN, Under(path, AtColumns)) +
                                Unless(r, INCOMPLETE_MAPPING, Under(path, AtColumns)) + Unless(t, LOSSY_PRESENCE, path))
  {
    var (a, b) := (Unless(p, DUPLICATE_COLUMN, Under(path, AtColumns)), Unless(q, RESERVED_COLUMN, Under(path, AtColumns)));
    var (c, e) := (Unless(r, INCOMPLETE_MAPPING, Under(path, AtColumns)), Unless(t, LOSSY_PRESENCE, path));
    TwoTurns(i, -1, p, DUPLICATE_COLUMN, Under(path, AtColumns), q, RESERVED_COLUMN, Under(path, AtColumns));
    TwoTurns(i, -1, r, INCOMPLETE_MAPPING, Under(path, AtColumns), t, LOSSY_PRESENCE, path);
    NextTurn(i, -1, 4, 5, 7, a + b, c + e);
    assert a + b + (c + e) == a + b + c + e;
  }

  lemma {:induction false} SchemaInTurn(d: Document.Document, i: int, s: Document.Storage)
    ensures InTurn(i, -1, 2, 3, Unless(!Document.ReservedSchema(s.schema), RESERVED_SCHEMA, Under(RelationalMeaning.StorageAt(i), AtSchema)) +
                                Unless(!Relational.TableTaken(d, i, s), DUPLICATE_TABLE, RelationalMeaning.StorageAt(i)))
  {
    StorageSteps(i);
    PartPlace(i, AtSchema);
    TwoTurns(i, -1, !Document.ReservedSchema(s.schema), RESERVED_SCHEMA, Under(RelationalMeaning.StorageAt(i), AtSchema),
             !Relational.TableTaken(d, i, s), DUPLICATE_TABLE, RelationalMeaning.StorageAt(i));
  }

  /** The rules of a model itself, then those of its foreign keys. */
  lemma {:induction false} OwnThenForeign(m: int, a: seq<Diagnostic>, b: seq<Diagnostic>, n: int)
    requires InTurn(m, -1, 1, 10, a) && InForeigns(m, 0, n, b)
    ensures InModels(m, m, a + b)
  {
    Appended(a, b);
  }

  lemma {:induction false} FourLists(m: int, first: seq<Diagnostic>, a: seq<Diagnostic>, b: seq<Diagnostic>, c: seq<Diagnostic>)
    requires InTurn(m, -1, 1, 1, first) && InTurn(m, -1, 2, 3, a) && InTurn(m, -1, 4, 7, b) && InTurn(m, -1, 8, 10, c)
    ensures InTurn(m, -1, 1, 10, first + (a + b + c))
  {
    NextTurn(m, -1, 2, 3, 7, a, b);
    NextTurn(m, -1, 2, 7, 10, a + b, c);
    NextTurn(m, -1, 1, 1, 10, first, a + b + c);
  }

  lemma {:induction false} ForeignKeysInOrder(d: Document.Document, i: int, m: Document.Model, s: Document.Storage)
    ensures InForeigns(i, 0, |s.foreignKeys| - 1,
              Each(Relational.ForeignCheck(m, s.foreignKeys, Document.ModelMap(d), Under(RelationalMeaning.StorageAt(i), AtForeignKeys)), s.foreignKeys))
  {
    var check := Relational.ForeignCheck(m, s.foreignKeys, Document.ModelMap(d), Under(RelationalMeaning.StorageAt(i), AtForeignKeys));
    forall k | 0 <= k < |s.foreignKeys| ensures InTurn(i, k, 11, 16, check(s.foreignKeys[k], k)) {
      ForeignInTurn(m, s.foreignKeys, Document.ModelMap(d), i, k);
    }
    ForeignsInOrder(check, s.foreignKeys, i);
  }

  lemma {:induction false} StoredInOrder(d: Document.Document, i: int, m: Document.Model, s: Document.Storage, first: seq<Diagnostic>)
    requires InTurn(i, -1, 1, 1, first)
    ensures InModels(i, i, first + Relational.StoredFaults(d, i, m, s, RelationalMeaning.StorageAt(i)))
  {
    var path := RelationalMeaning.StorageAt(i);
    var a := Unless(!Document.ReservedSchema(s.schema), RESERVED_SCHEMA, Under(path, AtSchema)) +
             Unless(!Relational.TableTaken(d, i, s), DUPLICATE_TABLE, path);
    var (b, c) := (Relational.MappingFaults(m, s, path), Relational.KeyFaults(m, s, path));
    var e := Each(Relational.ForeignCheck(m, s.foreignKeys, Document.ModelMap(d), Under(path, AtForeignKeys)), s.foreignKeys);
    SchemaInTurn(d, i, s);
    MappingInTurn(m, s, i);
    KeysInTurn(m, s, i);
    FourLists(i, first, a, b, c);
    ForeignKeysInOrder(d, i, m, s);
    OwnThenForeign(i, first + (a + b + c), e, |s.foreignKeys| - 1);
    Regrouped(first, a, b, c, e);
  }

  lemma {:induction false} Regrouped(first: seq<Diagnostic>, a: seq<Diagnostic>, b: seq<Diagnostic>, c: seq<Diagnostic>, e: seq<Diagnostic>)
    ensures first + (a + b + c + e) == first + (a + b + c) + e
  {
  }

  lemma {:induction false} ModelInOrder(d: Document.Document, i: int, m: Document.Model)
    ensures InModels(i, i, Relational.ModelFaults(d, i, m, RelationalMeaning.ModelAt(i)))
  {
    var first := Unless(NoDup(Document.FieldNames(m)), DUPLICATE_FIELD, Under(RelationalMeaning.ModelAt(i), AtFields));
    FieldsPlace(i);
    OneTurn(i, -1, NoDup(Document.FieldNames(m)), DUPLICATE_FIELD, Under(RelationalMeaning.ModelAt(i), AtFields));
    if m.storage.Some? {
      StoredInOrder(d, i, m, m.storage.value, first);
    }
  }

  /** Relational faults come model by model, within a model by rule, and then foreign key by foreign key. */
  lemma {:induction false} RelationalFaultsOrdered(d: Document.Document)
    ensures InOrder(Relational.RelationalFaults(d))
  {
    var first := Unless(NoDup(Map(Document.NameOfModel, d)), DUPLICATE_MODEL, Under(Root, AtModels));
    assert StepsOf(Under(Root, AtModels)) == [AtModels];
    forall i | 0 <= i < |d| ensures InModels(i, i, Relational.ModelCheck(d)(d[i], i)) {
      ModelInOrder(d, i, d[i]);
    }
    ModelsInOrder(Relational.ModelCheck(d), d);
    Appended(first, Each(Relational.ModelCheck(d), d));
  }

  lemma {:induction false} ClashesInOrder(ok: bool, rest: seq<Diagnostic>, i: int, path: Path)
    requires At(path, i, -1) && forall y | y in rest :: y == Diagnostic(SQL_NAME_COLLISION, path)
    ensures InModels(i, i, Unless(ok, SQL_NAME_COLLISION, path) + rest)
  {
    SameFault(Unless(ok, SQL_NAME_COLLISION, path) + rest, Diagnostic(SQL_NAME_COLLISION, path), i, -1);
  }

  lemma {:induction false} ModelNamesInOrder(d: Document.Document, i: int, m: Document.Model)
    ensures InModels(i, i, Relational.NameCheck(d)(m, i))
  {
    if m.storage.Some? {
      var (path, texts) := (RelationalMeaning.StorageAt(i), Relational.IndexTexts(m));
      StorageSteps(i);
      Repetitions(Relational.TakenCheck(Relational.RelationsBefore(d, i), texts, path), texts, Diagnostic(SQL_NAME_COLLISION, path));
      ClashesInOrder(Document.ConstraintNamesOk(Document.Persisted(m, m.storage.value), Document.ModelMap(d)),
                     Each(Relational.TakenCheck(Relational.RelationsBefore(d, i), texts, path), texts), i, path);
    }
  }

  /** Name faults come model by model. */
  lemma {:induction false} NameFaultsOrdered(d: Document.Document)
    ensures InOrder(Relational.NameFaults(d))
  {
    forall i | 0 <= i < |d| ensures InModels(i, i, Relational.NameCheck(d)(d[i], i)) {
      ModelNamesInOrder(d, i, d[i]);
    }
    ModelsInOrder(Relational.NameCheck(d), d);
  }
}
