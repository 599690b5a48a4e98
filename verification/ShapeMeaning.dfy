/** What each shape diagnostic says of a value: a grammar of the document, and where the value departs from it. */
module ShapeMeaning {
  import opened Json
  import opened Diagnostics
  import Document
  import Shape

  // ----- the grammar -----

  datatype Word = ModelWord | FieldWord | SqlWord
  datatype Kind =
    | DocumentRecord | ModelRecord | FieldRecord | StorageRecord | ColumnRecord | ForeignRecord | ReferenceRecord
    | ModelList | FieldList | ColumnList | KeyList | ForeignList | NameList
    | VersionText | NameText(word: Word) | TypeText | Flag | Length(ofString: bool) | ActionText

  /** A part of the value, and what the grammar expects it to be. */
  datatype Node = Node(kind: Kind, value: Json)

  predicate RecordKind(kind: Kind) {
    || kind.DocumentRecord? || kind.ModelRecord? || kind.FieldRecord? || kind.StorageRecord? || kind.ColumnRecord?
    || kind.ForeignRecord? || kind.ReferenceRecord?
  }

  predicate ListKind(kind: Kind) {
    kind.ModelList? || kind.FieldList? || kind.ColumnList? || kind.KeyList? || kind.ForeignList? || kind.NameList?
  }

  function Required(kind: Kind): set<string> {
    match kind
    case DocumentRecord => {"version", "models"}
    case ModelRecord => {"name", "fields"}
    case FieldRecord => {"name", "type", "required", "nullable"}
    case StorageRecord => {"schema", "table", "columns", "primaryKey", "uniqueKeys", "foreignKeys"}
    case ColumnRecord => {"field", "name"}
    case ForeignRecord => {"fields", "references", "onDelete"}
    case ReferenceRecord => {"model", "fields"}
    case _ => {}
  }

  function Optional(kind: Kind): set<string> {
    match kind
    case ModelRecord => {"storage"}
    case FieldRecord => {"minLength", "maxLength"}
    case _ => {}
  }

  predicate SizeAllowed(kind: Kind, n: nat) {
    match kind
    case ModelList => 1 <= n <= 64
    case FieldList => 1 <= n <= 128
    case ColumnList => 1 <= n <= 128
    case NameList => 1 <= n <= 128
    case KeyList => n <= 64
    case ForeignList => n <= 64
    case _ => false
  }

  /** A letter of the right case, and at most sixty-two more letters, digits or underscores. */
  predicate Matches(word: Word, s: string) {
    && 1 <= |s| <= 63
    && (if word.ModelWord? then 'A' <= s[0] <= 'Z' else 'a' <= s[0] <= 'z')
    && forall c | c in s ::
         || 'a' <= c <= 'z' || '0' <= c <= '9'
         || ('A' <= c <= 'Z' && !word.SqlWord?)
         || (c == '_' && !word.ModelWord?)
  }

  /** An object with every required key and no unknown one, or an array of an allowed size: its parts are looked at. */
  predicate Sound(n: Node) {
    if RecordKind(n.kind) then n.value.Obj? && Required(n.kind) <= n.value.members.Keys <= Required(n.kind) + Optional(n.kind)
    else ListKind(n.kind) && n.value.Arr? && SizeAllowed(n.kind, |n.value.items|)
  }

  function Member(j: Json, key: string, kind: Kind): Option<Node> {
    if j.Obj? && key in j.members then Some(Node(kind, j.members[key])) else None
  }

  function ItemOf(j: Json, s: Step, kind: Kind): Option<Node> {
    if j.Arr? && s.Item? && 0 <= s.index < |j.items| then Some(Node(kind, j.items[s.index])) else None
  }

  predicate OfString(j: Json) { j.Obj? && "type" in j.members && j.members["type"] == Str("string") }

  /** The part that one step of a path leads to. */
  function Child(n: Node, s: Step): Option<Node> {
    var j := n.value;
    match n.kind
    case DocumentRecord =>
      if s == AtVersion then Member(j, "version", VersionText)
      else if s == AtModels then Member(j, "models", ModelList)
      else None
    case ModelRecord =>
      if s == AtName then Member(j, "name", NameText(ModelWord))
      else if s == AtFields then Member(j, "fields", FieldList)
      else if s == AtStorage then Member(j, "storage", StorageRecord)
      else None
    case FieldRecord =>
      if s == AtName then Member(j, "name", NameText(FieldWord))
      else if s == AtType then Member(j, "type", TypeText)
      else if s == AtRequired then Member(j, "required", Flag)
      else if s == AtNullable then Member(j, "nullable", Flag)
      else if s == AtMinLength then Member(j, "minLength", Length(OfString(j)))
      else if s == AtMaxLength then Member(j, "maxLength", Length(OfString(j)))
      else None
    case StorageRecord =>
      if s == AtSchema then Member(j, "schema", NameText(SqlWord))
      else if s == AtTable then Member(j, "table", NameText(SqlWord))
      else if s == AtColumns then Member(j, "columns", ColumnList)
      else if s == AtPrimaryKey then Member(j, "primaryKey", NameList)
      else if s == AtUniqueKeys then Member(j, "uniqueKeys", KeyList)
      else if s == AtForeignKeys then Member(j, "foreignKeys", ForeignList)
      else None
    case ColumnRecord =>
      if s == AtField then Member(j, "field", NameText(FieldWord))
      else if s == AtName then Member(j, "name", NameText(SqlWord))
      else None
    case ForeignRecord =>
      if s == AtFields then Member(j, "fields", NameList)
      else if s == AtReferences then Member(j, "references", ReferenceRecord)
      else if s == AtOnDelete then Member(j, "onDelete", ActionText)
      else None
    case ReferenceRecord =>
      if s == AtModel then Member(j, "model", NameText(ModelWord))
      else if s == AtFields then Member(j, "fields", NameList)
      else None
    case ModelList => ItemOf(j, s, ModelRecord)
    case FieldList => ItemOf(j, s, FieldRecord)
    case ColumnList => ItemOf(j, s, ColumnRecord)
    case KeyList => ItemOf(j, s, NameList)
    case ForeignList => ItemOf(j, s, ForeignRecord)
    case NameList => ItemOf(j, s, NameText(FieldWord))
    case _ => None
  }

  predicate BothLengths(j: Json) {
    j.Obj? && "minLength" in j.members && "maxLength" in j.members && IsInteger(j.members["minLength"]) && IsInteger(j.members["maxLength"])
  }

  predicate IsData(j: Json) { !j.Arr? && !j.Obj? }

  /** The part itself departs from what is expected of it, in the way the code says. */
  predicate Broken(n: Node, code: Code) {
    var j := n.value;
    match code
    case INVALID_SHAPE => RecordKind(n.kind) && !j.Obj?
    case UNKNOWN_PROPERTY => RecordKind(n.kind) && j.Obj? && exists k | k in j.members :: k !in Required(n.kind) && k !in Optional(n.kind)
    case MISSING_PROPERTY =>
      && RecordKind(n.kind) && j.Obj? && (forall k | k in j.members :: k in Required(n.kind) || k in Optional(n.kind))
      && exists k | k in Required(n.kind) :: k !in j.members
    case INVALID_ARRAY => ListKind(n.kind) && !(j.Arr? && SizeAllowed(n.kind, |j.items|))
    case INVALID_IDENTIFIER => n.kind.NameText? && !(j.Str? && Matches(n.kind.word, j.s))
    case UNSUPPORTED_VERSION => n.kind.VersionText? && j != Str("ores.schema-ir.v1")
    case UNSUPPORTED_TYPE => n.kind.TypeText? && j !in {Str("string"), Str("boolean"), Str("int32"), Str("uuid")}
    case INVALID_BOOLEAN => n.kind.Flag? && !j.Bool?
    case INVALID_LENGTH => n.kind.Length? && !(n.kind.ofString && IsInteger(j) && 0 <= ToInt(j) <= 1048576)
    case CONTRADICTORY_LENGTH =>
      n.kind.FieldRecord? && Sound(n) && BothLengths(j) && ToInt(j.members["minLength"]) > ToInt(j.members["maxLength"])
    case DUPLICATE_KEY_FIELD =>
      n.kind.NameList? && Sound(n) && exists i, k | 0 <= i < k < |j.items| :: j.items[i] == j.items[k] && IsData(j.items[i])
    case UNSUPPORTED_DELETE_ACTION => n.kind.ActionText? && j !in {Str("restrict"), Str("cascade"), Str("setNull")}
    case _ => false
  }

  /** Looked at by these steps, every part on the way being sound, and broken there. */
  predicate Found(n: Node, steps: seq<Step>, code: Code)
    decreases |steps|
  {
    if steps == [] then Broken(n, code)
    else Sound(n) && Child(n, steps[0]).Some? && Found(Child(n, steps[0]).value, steps[1..], code)
  }

  // ----- paths -----

  function Along(base: Path, steps: seq<Step>): Path
    decreases |steps|
  {
    if steps == [] then base else Along(Under(base, steps[0]), steps[1..])
  }

  function StepsOf(path: Path): seq<Step> {
    match path
    case Root => []
    case Under(above, s) => StepsOf(above) + [s]
  }

  lemma {:induction false} AlongSnoc(base: Path, steps: seq<Step>, s: Step)
    ensures Along(base, steps + [s]) == Under(Along(base, steps), s)
    decreases |steps|
  {
    if steps == [] {
      assert [s][1..] == [];
    } else {
      AlongSnoc(Under(base, steps[0]), steps[1..], s);
      assert (steps + [s])[1..] == steps[1..] + [s];
    }
  }

  lemma {:induction false} AlongIs(path: Path)
    ensures Along(Root, StepsOf(path)) == path
  {
    if path.Under? {
      AlongIs(path.path);
      AlongSnoc(Root, StepsOf(path.path), path.step);
    }
  }

  lemma {:induction false} StepsAre(steps: seq<Step>)
    ensures StepsOf(Along(Root, steps)) == steps
    decreases |steps|
  {
    if steps != [] {
      var n := |steps| - 1;
      StepsAre(steps[..n]);
      assert steps == steps[..n] + [steps[n]];
      AlongSnoc(Root, steps[..n], steps[n]);
    }
  }

  // ----- a fault below a part -----

  ghost predicate Explains(n: Node, base: Path, x: Diagnostic) {
    exists steps :: x.path == Along(base, steps) && Found(n, steps, x.code)
  }

  ghost predicate Here(n: Node, base: Path, x: Diagnostic) { x.path == base && Broken(n, x.code) }

  ghost predicate ByStep(n: Node, base: Path, s: Step, x: Diagnostic) {
    Sound(n) && Child(n, s).Some? && Explains(Child(n, s).value, Under(base, s), x)
  }

  lemma {:induction false} ExplainsByStep(n: Node, base: Path, x: Diagnostic)
    ensures Explains(n, base, x) <==> Here(n, base, x) || exists s :: ByStep(n, base, s, x)
  {
    if Explains(n, base, x) {
      var steps :| x.path == Along(base, steps) && Found(n, steps, x.code);
      if steps != [] {
        assert x.path == Along(Under(base, steps[0]), steps[1..]);
        assert ByStep(n, base, steps[0], x);
      }
    }
    if Here(n, base, x) {
      assert Found(n, [], x.code) && x.path == Along(base, []);
    }
    if s :| ByStep(n, base, s, x) {
      var rest :| x.path == Along(Under(base, s), rest) && Found(Child(n, s).value, rest, x.code);
      var steps := [s] + rest;
      assert steps[1..] == rest;
      assert x.path == Along(base, steps) && Found(n, steps, x.code);
    }
  }

  // ----- leaves -----

  predicate LeafKind(kind: Kind) { !RecordKind(kind) && !ListKind(kind) }

  lemma {:induction false} LeafExplains(n: Node, base: Path, x: Diagnostic)
    requires LeafKind(n.kind)
    ensures Explains(n, base, x) <==> Here(n, base, x)
  {
    ExplainsByStep(n, base, x);
  }

  function Pattern(word: Word): string -> bool {
    match word case ModelWord => Document.ModelName case FieldWord => Document.FieldName case SqlWord => Document.SqlName
  }

  lemma {:induction false} PatternIs(word: Word, s: string)
    ensures Pattern(word)(s) <==> Matches(word, s)
  {
    if |s| > 0 {
      assert s[0] in s;
    }
  }

  lemma {:induction false} NameMeans(word: Word, j: Json, path: Path, x: Diagnostic)
    ensures x in Shape.NameFaults(j, Pattern(word), path) <==> Explains(Node(NameText(word), j), path, x)
  {
    LeafExplains(Node(NameText(word), j), path, x);
    if j.Str? {
      PatternIs(word, j.s);
    }
  }

  lemma {:induction false} TypeMeans(j: Json, path: Path, x: Diagnostic)
    ensures x in Unless(Shape.ScalarOf(j).Some?, UNSUPPORTED_TYPE, path) <==> Explains(Node(TypeText, j), path, x)
  {
    LeafExplains(Node(TypeText, j), path, x);
  }

  lemma {:induction false} FlagMeans(j: Json, path: Path, x: Diagnostic)
    ensures x in Unless(j.Bool?, INVALID_BOOLEAN, path) <==> Explains(Node(Flag, j), path, x)
  {
    LeafExplains(Node(Flag, j), path, x);
  }

  lemma {:induction false} ActionMeans(j: Json, path: Path, x: Diagnostic)
    ensures x in Unless(Shape.ActionOf(j).Some?, UNSUPPORTED_DELETE_ACTION, path) <==> Explains(Node(ActionText, j), path, x)
  {
    LeafExplains(Node(ActionText, j), path, x);
  }

  lemma {:induction false} VersionMeans(j: Json, path: Path, x: Diagnostic)
    ensures x in Unless(j == Str(Document.VERSION), UNSUPPORTED_VERSION, path) <==> Explains(Node(VersionText, j), path, x)
  {
    LeafExplains(Node(VersionText, j), path, x);
  }

  // ----- records and lists -----

  /** The tests of a record itself. */
  lemma {:induction false} RecordMeans(n: Node, path: Path, x: Diagnostic)
    requires RecordKind(n.kind)
    ensures Shape.RecordFaults(n.value, Required(n.kind), Optional(n.kind), path) == [] <==> Sound(n)
    ensures x in Shape.RecordFaults(n.value, Required(n.kind), Optional(n.kind), path) <==>
              x.path == path && !Sound(n) && Broken(n, x.code)
  {
  }

  /** A sound record says no more than its parts do, with one exception. */
  lemma {:induction false} RecordExplains(n: Node, path: Path, x: Diagnostic)
    requires RecordKind(n.kind) && !n.kind.FieldRecord?
    ensures Explains(n, path, x) <==>
              if Sound(n) then exists s :: ByStep(n, path, s, x)
              else x in Shape.RecordFaults(n.value, Required(n.kind), Optional(n.kind), path)
  {
    ExplainsByStep(n, path, x);
    RecordMeans(n, path, x);
  }

  // ----- lists -----

  lemma {:induction false} ListExplains(n: Node, path: Path, x: Diagnostic)
    requires ListKind(n.kind) && !n.kind.NameList?
    ensures Explains(n, path, x) <==>
              if Sound(n) then exists i :: ByStep(n, path, Item(i), x) else x == Diagnostic(INVALID_ARRAY, path)
  {
    ExplainsByStep(n, path, x);
    if s :| ByStep(n, path, s, x) {
      assert s.Item?;
      assert ByStep(n, path, Item(s.index), x);
    }
  }

  /** The faults of a list are those of its items, once its size is allowed. */
  lemma {:induction false} ListMeans(check: (Json, int) -> seq<Diagnostic>, n: Node, min: nat, max: nat, path: Path, x: Diagnostic)
    requires ListKind(n.kind) && !n.kind.NameList? && forall k: nat :: SizeAllowed(n.kind, k) <==> min <= k <= max
    requires n.value.Arr? ==> forall i | 0 <= i < |n.value.items| :: x in check(n.value.items[i], i) <==>
               Explains(Child(n, Item(i)).value, Under(path, Item(i)), x)
    ensures x in Shape.ListFaults(check, n.value, min, max, path) <==> Explains(n, path, x)
  {
    ListExplains(n, path, x);
    if Sound(n) {
      EachMember(check, n.value.items, x);
      if i :| 0 <= i < |n.value.items| && x in check(n.value.items[i], i) {
        assert ByStep(n, path, Item(i), x);
      }
    }
  }

  lemma {:induction false} NameItem(n: Node, path: Path, i: int, x: Diagnostic)
    requires n.kind.NameList? && Sound(n) && 0 <= i < |n.value.items|
    ensures x in Shape.NameCheck(Document.FieldName, path)(n.value.items[i], i) <==> ByStep(n, path, Item(i), x)
  {
    NameMeans(FieldWord, n.value.items[i], Under(path, Item(i)), x);
  }

  lemma {:induction false} NameItems(n: Node, path: Path, x: Diagnostic)
    requires n.kind.NameList? && Sound(n)
    ensures x in Each(Shape.NameCheck(Document.FieldName, path), n.value.items) <==> exists s :: ByStep(n, path, s, x)
  {
    EachMember(Shape.NameCheck(Document.FieldName, path), n.value.items, x);
    if i :| 0 <= i < |n.value.items| && x in Shape.NameCheck(Document.FieldName, path)(n.value.items[i], i) {
      NameItem(n, path, i, x);
    }
    if s :| ByStep(n, path, s, x) {
      NameItem(n, path, s.index, x);
    }
  }

  lemma {:induction false} RepetitionHere(n: Node, path: Path, x: Diagnostic)
    requires n.kind.NameList? && Sound(n)
    ensures x in Unless(!Shape.Repeats(n.value.items), DUPLICATE_KEY_FIELD, path) <==> Here(n, path, x)
  {
    var items := n.value.items;
    if Shape.Repeats(items) {
      var i, k :| 0 <= i < k < |items| && items[i] == items[k] && Shape.Primitive(items[i]);
      assert IsData(items[i]);
    }
    if i, k :| 0 <= i < k < |items| && items[i] == items[k] && IsData(items[i]) {
      assert Shape.Primitive(items[i]);
    }
  }

  lemma {:induction false} NamesMean(j: Json, path: Path, x: Diagnostic)
    ensures x in Shape.FieldListFaults(j, path) <==> Explains(Node(NameList, j), path, x)
  {
    var n := Node(NameList, j);
    ExplainsByStep(n, path, x);
    if Sound(n) {
      RepetitionHere(n, path, x);
      NameItems(n, path, x);
    }
  }

  // ----- records, part by part -----

  /** A part under one key of a sound record. */
  lemma {:induction false} NamePart(n: Node, path: Path, s: Step, key: string, word: Word, x: Diagnostic)
    requires Sound(n) && Child(n, s) == Some(Node(NameText(word), Shape.Get(n.value, key)))
    ensures x in Shape.NameFaults(Shape.Get(n.value, key), Pattern(word), Under(path, s)) <==> ByStep(n, path, s, x)
  {
    NameMeans(word, Shape.Get(n.value, key), Under(path, s), x);
  }

  lemma {:induction false} NamesPart(n: Node, path: Path, s: Step, key: string, x: Diagnostic)
    requires Sound(n) && Child(n, s) == Some(Node(NameList, Shape.Get(n.value, key)))
    ensures x in Shape.FieldListFaults(Shape.Get(n.value, key), Under(path, s)) <==> ByStep(n, path, s, x)
  {
    NamesMean(Shape.Get(n.value, key), Under(path, s), x);
  }

  lemma {:induction false} ActionPart(n: Node, path: Path, x: Diagnostic)
    requires Sound(n) && n.kind.ForeignRecord?
    ensures x in Unless(Shape.ActionOf(Shape.Get(n.value, "onDelete")).Some?, UNSUPPORTED_DELETE_ACTION, Under(path, AtOnDelete)) <==>
              ByStep(n, path, AtOnDelete, x)
  {
    ActionMeans(Shape.Get(n.value, "onDelete"), Under(path, AtOnDelete), x);
  }

  lemma {:induction false} ReferencePart(n: Node, path: Path, x: Diagnostic)
    requires Sound(n) && n.kind.ForeignRecord?
    ensures x in Shape.ReferenceFaults(Shape.Get(n.value, "references"), Under(path, AtReferences)) <==> ByStep(n, path, AtReferences, x)
  {
    ReferenceMeans(Shape.Get(n.value, "references"), Under(path, AtReferences), x);
  }

  lemma {:induction false} ColumnByStep(n: Node, path: Path, s: Step, x: Diagnostic)
    requires n.kind.ColumnRecord? && ByStep(n, path, s, x)
    ensures x in Shape.ColumnFaults(n.value, path)
  {
    RecordMeans(n, path, x);
    match s
    case AtField => NamePart(n, path, AtField, "field", FieldWord, x);
    case AtName => NamePart(n, path, AtName, "name", SqlWord, x);
  }

  lemma {:induction false} ColumnMeans(j: Json, path: Path, x: Diagnostic)
    ensures x in Shape.ColumnFaults(j, path) <==> Explains(Node(ColumnRecord, j), path, x)
  {
    var n := Node(ColumnRecord, j);
    RecordExplains(n, path, x);
    RecordMeans(n, path, x);
    if Sound(n) {
      if x in Shape.NameFaults(Shape.Get(j, "field"), Pattern(FieldWord), Under(path, AtField)) {
        NamePart(n, path, AtField, "field", FieldWord, x);
      } else if x in Shape.ColumnFaults(j, path) {
        NamePart(n, path, AtName, "name", SqlWord, x);
      }
      if s :| ByStep(n, path, s, x) {
        ColumnByStep(n, path, s, x);
      }
    }
  }

  lemma {:induction false} ReferenceByStep(n: Node, path: Path, s: Step, x: Diagnostic)
    requires n.kind.ReferenceRecord? && ByStep(n, path, s, x)
    ensures x in Shape.ReferenceFaults(n.value, path)
  {
    RecordMeans(n, path, x);
    match s
    case AtModel => NamePart(n, path, AtModel, "model", ModelWord, x);
    case AtFields => NamesPart(n, path, AtFields, "fields", x);
  }

  lemma {:induction false} ReferenceMeans(j: Json, path: Path, x: Diagnostic)
    ensures x in Shape.ReferenceFaults(j, path) <==> Explains(Node(ReferenceRecord, j), path, x)
  {
    var n := Node(ReferenceRecord, j);
    RecordExplains(n, path, x);
    RecordMeans(n, path, x);
    if Sound(n) {
      if x in Shape.NameFaults(Shape.Get(j, "model"), Pattern(ModelWord), Under(path, AtModel)) {
        NamePart(n, path, AtModel, "model", ModelWord, x);
      } else if x in Shape.ReferenceFaults(j, path) {
        NamesPart(n, path, AtFields, "fields", x);
      }
      if s :| ByStep(n, path, s, x) {
        ReferenceByStep(n, path, s, x);
      }
    }
  }

  lemma {:induction false} ForeignByStep(n: Node, path: Path, s: Step, x: Diagnostic)
    requires n.kind.ForeignRecord? && ByStep(n, path, s, x)
    ensures x in Shape.ForeignFaults(n.value, path)
  {
    RecordMeans(n, path, x);
    match s
    case AtFields => NamesPart(n, path, AtFields, "fields", x);
    case AtReferences => ReferencePart(n, path, x);
    case AtOnDelete => ActionPart(n, path, x);
  }

  lemma {:induction false} ForeignStep(n: Node, path: Path, x: Diagnostic) returns (s: Step)
    requires n.kind.ForeignRecord? && Sound(n) && x in Shape.ForeignFaults(n.value, path)
    ensures ByStep(n, path, s, x)
  {
    RecordMeans(n, path, x);
    if x in Shape.FieldListFaults(Shape.Get(n.value, "fields"), Under(path, AtFields)) {
      s := AtFields;
      NamesPart(n, path, s, "fields", x);
    } else if x in Shape.ReferenceFaults(Shape.Get(n.value, "references"), Under(path, AtReferences)) {
      s := AtReferences;
      ReferencePart(n, path, x);
    } else {
      s := AtOnDelete;
      ActionPart(n, path, x);
    }
  }

  lemma {:induction false} ForeignMeans(j: Json, path: Path, x: Diagnostic)
    ensures x in Shape.ForeignFaults(j, path) <==> Explains(Node(ForeignRecord, j), path, x)
  {
    var n := Node(ForeignRecord, j);
    RecordExplains(n, path, x);
    RecordMeans(n, path, x);
    if Sound(n) {
      if x in Shape.ForeignFaults(j, path) {
        var s := ForeignStep(n, path, x);
      }
      if s :| ByStep(n, path, s, x) {
        ForeignByStep(n, path, s, x);
      }
    }
  }

  // ----- the lists of a storage -----

  lemma {:induction false} ColumnsPart(n: Node, path: Path, x: Diagnostic)
    requires Sound(n) && n.kind.StorageRecord?
    ensures x in Shape.ListFaults(Shape.ColumnCheck(Under(path, AtColumns)), Shape.Get(n.value, "columns"), 1, 128, Under(path, AtColumns)) <==>
              ByStep(n, path, AtColumns, x)
  {
    var (list, here) := (Node(ColumnList, Shape.Get(n.value, "columns")), Under(path, AtColumns));
    if list.value.Arr? {
      forall i | 0 <= i < |list.value.items|
        ensures x in Shape.ColumnCheck(here)(list.value.items[i], i) <==> Explains(Child(list, Item(i)).value, Under(here, Item(i)), x)
      {
        ColumnMeans(list.value.items[i], Under(here, Item(i)), x);
      }
    }
    ListMeans(Shape.ColumnCheck(here), list, 1, 128, here, x);
  }

  lemma {:induction false} UniqueKeysPart(n: Node, path: Path, x: Diagnostic)
    requires Sound(n) && n.kind.StorageRecord?
    ensures x in Shape.ListFaults(Shape.KeyCheck(Under(path, AtUniqueKeys)), Shape.Get(n.value, "uniqueKeys"), 0, 64, Under(path, AtUniqueKeys)) <==>
              ByStep(n, path, AtUniqueKeys, x)
  {
    KeyListMeans(Node(KeyList, Shape.Get(n.value, "uniqueKeys")), Under(path, AtUniqueKeys), x);
  }

  lemma {:induction false} KeyListMeans(list: Node, here: Path, x: Diagnostic)
    requires list.kind.KeyList?
    ensures x in Shape.ListFaults(Shape.KeyCheck(here), list.value, 0, 64, here) <==> Explains(list, here, x)
  {
    if list.value.Arr? {
      forall i | 0 <= i < |list.value.items|
        ensures x in Shape.KeyCheck(here)(list.value.items[i], i) <==> Explains(Child(list, Item(i)).value, Under(here, Item(i)), x)
      {
        NamesMean(list.value.items[i], Under(here, Item(i)), x);
      }
    }
    ListMeans(Shape.KeyCheck(here), list, 0, 64, here, x);
  }

  lemma {:induction false} ForeignKeysPart(n: Node, path: Path, x: Diagnostic)
    requires Sound(n) && n.kind.StorageRecord?
    ensures x in Shape.ListFaults(Shape.ForeignCheck(Under(path, AtForeignKeys)), Shape.Get(n.value, "foreignKeys"), 0, 64, Under(path, AtForeignKeys)) <==>
              ByStep(n, path, AtForeignKeys, x)
  {
    var (list, here) := (Node(ForeignList, Shape.Get(n.value, "foreignKeys")), Under(path, AtForeignKeys));
    if list.value.Arr? {
      forall i | 0 <= i < |list.value.items|
        ensures x in Shape.ForeignCheck(here)(list.value.items[i], i) <==> Explains(Child(list, Item(i)).value, Under(here, Item(i)), x)
      {
        ForeignMeans(list.value.items[i], Under(here, Item(i)), x);
      }
    }
    ListMeans(Shape.ForeignCheck(here), list, 0, 64, here, x);
  }

  lemma {:induction false} StorageByStep(n: Node, path: Path, s: Step, x: Diagnostic)
    requires n.kind.StorageRecord? && ByStep(n, path, s, x)
    ensures x in Shape.StorageFaults(n.value, path)
  {
    RecordMeans(n, path, x);
    match s
    case AtSchema => NamePart(n, path, AtSchema, "schema", SqlWord, x);
    case AtTable => NamePart(n, path, AtTable, "table", SqlWord, x);
    case AtColumns => ColumnsPart(n, path, x);
    case AtPrimaryKey => NamesPart(n, path, AtPrimaryKey, "primaryKey", x);
    case AtUniqueKeys => UniqueKeysPart(n, path, x);
    case AtForeignKeys => ForeignKeysPart(n, path, x);
  }

  lemma {:induction false} StorageStep(n: Node, path: Path, x: Diagnostic) returns (s: Step)
    requires n.kind.StorageRecord? && Sound(n) && x in Shape.StorageFaults(n.value, path)
    ensures ByStep(n, path, s, x)
  {
    RecordMeans(n, path, x);
    if x in Shape.NameFaults(Shape.Get(n.value, "schema"), Pattern(SqlWord), Under(path, AtSchema)) {
      s := AtSchema;
      NamePart(n, path, s, "schema", SqlWord, x);
    } else if x in Shape.NameFaults(Shape.Get(n.value, "table"), Pattern(SqlWord), Under(path, AtTable)) {
      s := AtTable;
      NamePart(n, path, s, "table", SqlWord, x);
    } else if x in Shape.ListFaults(Shape.ColumnCheck(Under(path, AtColumns)), Shape.Get(n.value, "columns"), 1, 128, Under(path, AtColumns)) {
      s := AtColumns;
      ColumnsPart(n, path, x);
    } else if x in Shape.FieldListFaults(Shape.Get(n.value, "primaryKey"), Under(path, AtPrimaryKey)) {
      s := AtPrimaryKey;
      NamesPart(n, path, s, "primaryKey", x);
    } else if x in Shape.ListFaults(Shape.KeyCheck(Under(path, AtUniqueKeys)), Shape.Get(n.value, "uniqueKeys"), 0, 64, Under(path, AtUniqueKeys)) {
      s := AtUniqueKeys;
      UniqueKeysPart(n, path, x);
    } else {
      s := AtForeignKeys;
      ForeignKeysPart(n, path, x);
    }
  }

  lemma {:induction false} StorageMeans(j: Json, path: Path, x: Diagnostic)
    ensures x in Shape.StorageFaults(j, path) <==> Explains(Node(StorageRecord, j), path, x)
  {
    var n := Node(StorageRecord, j);
    RecordExplains(n, path, x);
    RecordMeans(n, path, x);
    if Sound(n) {
      if x in Shape.StorageFaults(j, path) {
        var s := StorageStep(n, path, x);
      }
      if s :| ByStep(n, path, s, x) {
        StorageByStep(n, path, s, x);
      }
    }
  }

  // ----- a field -----

  lemma {:induction false} LengthPart(n: Node, path: Path, s: Step, key: string, x: Diagnostic)
    requires Sound(n) && n.kind.FieldRecord? && ((s == AtMinLength && key == "minLength") || (s == AtMaxLength && key == "maxLength"))
    ensures x in Unless(Shape.LengthAllowed(n.value, key), INVALID_LENGTH, Under(path, s)) <==> ByStep(n, path, s, x)
  {
    if key in n.value.members {
      LeafExplains(Node(Length(OfString(n.value)), n.value.members[key]), Under(path, s), x);
    }
  }

  lemma {:induction false} TypePart(n: Node, path: Path, x: Diagnostic)
    requires Sound(n) && n.kind.FieldRecord?
    ensures x in Unless(Shape.ScalarOf(Shape.Get(n.value, "type")).Some?, UNSUPPORTED_TYPE, Under(path, AtType)) <==> ByStep(n, path, AtType, x)
  {
    TypeMeans(Shape.Get(n.value, "type"), Under(path, AtType), x);
  }

  lemma {:induction false} FlagPart(n: Node, path: Path, s: Step, key: string, x: Diagnostic)
    requires Sound(n) && Child(n, s) == Some(Node(Flag, Shape.Get(n.value, key)))
    ensures x in Unless(Shape.Get(n.value, key).Bool?, INVALID_BOOLEAN, Under(path, s)) <==> ByStep(n, path, s, x)
  {
    FlagMeans(Shape.Get(n.value, key), Under(path, s), x);
  }

  lemma {:induction false} ContradictionHere(n: Node, path: Path, x: Diagnostic)
    requires Sound(n) && n.kind.FieldRecord?
    ensures x in Unless(Shape.LengthsAgree(n.value), CONTRADICTORY_LENGTH, path) <==> Here(n, path, x)
  {
  }

  lemma {:induction false} FieldByStep(n: Node, path: Path, s: Step, x: Diagnostic)
    requires n.kind.FieldRecord? && ByStep(n, path, s, x)
    ensures x in Shape.FieldFaults(n.value, path)
  {
    RecordMeans(n, path, x);
    match s
    case AtName => NamePart(n, path, AtName, "name", FieldWord, x);
    case AtType => TypePart(n, path, x);
    case AtRequired => FlagPart(n, path, AtRequired, "required", x);
    case AtNullable => FlagPart(n, path, AtNullable, "nullable", x);
    case AtMinLength => LengthPart(n, path, AtMinLength, "minLength", x);
    case AtMaxLength => LengthPart(n, path, AtMaxLength, "maxLength", x);
  }

  lemma {:induction false} FieldStep(n: Node, path: Path, x: Diagnostic) returns (s: Step)
    requires n.kind.FieldRecord? && Sound(n) && x in Shape.FieldFaults(n.value, path) && !Here(n, path, x)
    ensures ByStep(n, path, s, x)
  {
    RecordMeans(n, path, x);
    ContradictionHere(n, path, x);
    if x in Shape.NameFaults(Shape.Get(n.value, "name"), Pattern(FieldWord), Under(path, AtName)) {
      s := AtName;
      NamePart(n, path, s, "name", FieldWord, x);
    } else if x in Unless(Shape.ScalarOf(Shape.Get(n.value, "type")).Some?, UNSUPPORTED_TYPE, Under(path, AtType)) {
      s := AtType;
      TypePart(n, path, x);
    } else if x in Unless(Shape.Get(n.value, "required").Bool?, INVALID_BOOLEAN, Under(path, AtRequired)) {
      s := AtRequired;
      FlagPart(n, path, s, "required", x);
    } else if x in Unless(Shape.Get(n.value, "nullable").Bool?, INVALID_BOOLEAN, Under(path, AtNullable)) {
      s := AtNullable;
      FlagPart(n, path, s, "nullable", x);
    } else if x in Unless(Shape.LengthAllowed(n.value, "minLength"), INVALID_LENGTH, Under(path, AtMinLength)) {
      s := AtMinLength;
      LengthPart(n, path, s, "minLength", x);
    } else {
      s := AtMaxLength;
      LengthPart(n, path, s, "maxLength", x);
    }
  }

  lemma {:induction false} FieldHere(n: Node, path: Path, x: Diagnostic)
    requires n.kind.FieldRecord? && Here(n, path, x)
    ensures x in Shape.FieldFaults(n.value, path)
  {
    RecordMeans(n, path, x);
    if Sound(n) {
      ContradictionHere(n, path, x);
    }
  }

  lemma {:induction false} FieldMeans(j: Json, path: Path, x: Diagnostic)
    ensures x in Shape.FieldFaults(j, path) <==> Explains(Node(FieldRecord, j), path, x)
  {
    var n := Node(FieldRecord, j);
    ExplainsByStep(n, path, x);
    RecordMeans(n, path, x);
    if Here(n, path, x) {
      FieldHere(n, path, x);
    } else if Sound(n) {
      if x in Shape.FieldFaults(j, path) {
        var s := FieldStep(n, path, x);
      }
      if s :| ByStep(n, path, s, x) {
        FieldByStep(n, path, s, x);
      }
    }
  }

  // ----- a model and the document -----

  lemma {:induction false} FieldsPart(n: Node, path: Path, x: Diagnostic)
    requires Sound(n) && n.kind.ModelRecord?
    ensures x in Shape.ListFaults(Shape.FieldCheck(Under(path, AtFields)), Shape.Get(n.value, "fields"), 1, 128, Under(path, AtFields)) <==>
              ByStep(n, path, AtFields, x)
  {
    var (list, here) := (Node(FieldList, Shape.Get(n.value, "fields")), Under(path, AtFields));
    if list.value.Arr? {
      forall i | 0 <= i < |list.value.items|
        ensures x in Shape.FieldCheck(here)(list.value.items[i], i) <==> Explains(Child(list, Item(i)).value, Under(here, Item(i)), x)
      {
        FieldMeans(list.value.items[i], Under(here, Item(i)), x);
      }
    }
    ListMeans(Shape.FieldCheck(here), list, 1, 128, here, x);
  }

  lemma {:induction false} StoragePart(n: Node, path: Path, x: Diagnostic)
    requires Sound(n) && n.kind.ModelRecord?
    ensures Shape.Has(n.value, "storage") && x in Shape.StorageFaults(Shape.Get(n.value, "storage"), Under(path, AtStorage)) <==>
              ByStep(n, path, AtStorage, x)
  {
    if Shape.Has(n.value, "storage") {
      StorageMeans(Shape.Get(n.value, "storage"), Under(path, AtStorage), x);
    }
  }

  lemma {:induction false} ModelByStep(n: Node, path: Path, s: Step, x: Diagnostic)
    requires n.kind.ModelRecord? && ByStep(n, path, s, x)
    ensures x in Shape.ModelFaults(n.value, path)
  {
    RecordMeans(n, path, x);
    match s
    case AtName => NamePart(n, path, AtName, "name", ModelWord, x);
    case AtFields => FieldsPart(n, path, x);
    case AtStorage => StoragePart(n, path, x);
  }

  lemma {:induction false} ModelStep(n: Node, path: Path, x: Diagnostic) returns (s: Step)
    requires n.kind.ModelRecord? && Sound(n) && x in Shape.ModelFaults(n.value, path)
    ensures ByStep(n, path, s, x)
  {
    RecordMeans(n, path, x);
    if x in Shape.NameFaults(Shape.Get(n.value, "name"), Pattern(ModelWord), Under(path, AtName)) {
      s := AtName;
      NamePart(n, path, s, "name", ModelWord, x);
    } else if x in Shape.ListFaults(Shape.FieldCheck(Under(path, AtFields)), Shape.Get(n.value, "fields"), 1, 128, Under(path, AtFields)) {
      s := AtFields;
      FieldsPart(n, path, x);
    } else {
      s := AtStorage;
      StoragePart(n, path, x);
    }
  }

  lemma {:induction false} ModelMeans(j: Json, path: Path, x: Diagnostic)
    ensures x in Shape.ModelFaults(j, path) <==> Explains(Node(ModelRecord, j), path, x)
  {
    var n := Node(ModelRecord, j);
    RecordExplains(n, path, x);
    RecordMeans(n, path, x);
    if Sound(n) {
      if x in Shape.ModelFaults(j, path) {
        var s := ModelStep(n, path, x);
      }
      if s :| ByStep(n, path, s, x) {
        ModelByStep(n, path, s, x);
      }
    }
  }

  lemma {:induction false} VersionPart(n: Node, x: Diagnostic)
    requires Sound(n) && n.kind.DocumentRecord?
    ensures x in Unless(Shape.Get(n.value, "version") == Str(Document.VERSION), UNSUPPORTED_VERSION, Under(Root, AtVersion)) <==>
              ByStep(n, Root, AtVersion, x)
  {
    VersionMeans(Shape.Get(n.value, "version"), Under(Root, AtVersion), x);
  }

  lemma {:induction false} ModelsPart(n: Node, x: Diagnostic)
    requires Sound(n) && n.kind.DocumentRecord?
    ensures x in Shape.ListFaults(Shape.ModelCheck(Under(Root, AtModels)), Shape.Get(n.value, "models"), 1, 64, Under(Root, AtModels)) <==>
              ByStep(n, Root, AtModels, x)
  {
    var (list, here) := (Node(ModelList, Shape.Get(n.value, "models")), Under(Root, AtModels));
    if list.value.Arr? {
      forall i | 0 <= i < |list.value.items|
        ensures x in Shape.ModelCheck(here)(list.value.items[i], i) <==> Explains(Child(list, Item(i)).value, Under(here, Item(i)), x)
      {
        ModelMeans(list.value.items[i], Under(here, Item(i)), x);
      }
    }
    ListMeans(Shape.ModelCheck(here), list, 1, 64, here, x);
  }

  lemma {:induction false} DocumentByStep(n: Node, s: Step, x: Diagnostic)
    requires n.kind.DocumentRecord? && ByStep(n, Root, s, x)
    ensures x in Shape.ShapeFaults(n.value)
  {
    RecordMeans(n, Root, x);
    match s
    case AtVersion => VersionPart(n, x);
    case AtModels => ModelsPart(n, x);
  }

  lemma {:induction false} DocumentMeans(j: Json, x: Diagnostic)
    ensures x in Shape.ShapeFaults(j) <==> Explains(Node(DocumentRecord, j), Root, x)
  {
    var n := Node(DocumentRecord, j);
    RecordExplains(n, Root, x);
    RecordMeans(n, Root, x);
    if Sound(n) {
      if x in Unless(Shape.Get(j, "version") == Str(Document.VERSION), UNSUPPORTED_VERSION, Under(Root, AtVersion)) {
        VersionPart(n, x);
      } else if x in Shape.ShapeFaults(j) {
        ModelsPart(n, x);
      }
      if s :| ByStep(n, Root, s, x) {
        DocumentByStep(n, s, x);
      }
    }
  }

  // ----- the main result -----

  /** The value departs from the grammar at this path, in the way the code says, all parts above being sound. */
  predicate Misshapen(j: Json, x: Diagnostic) {
    Found(Node(DocumentRecord, j), StepsOf(x.path), x.code)
  }

  /** The shape phase reports exactly the departures from the grammar. */
  lemma ShapeFaultsMean(j: Json, x: Diagnostic)
    ensures x in Shape.ShapeFaults(j) <==> Misshapen(j, x)
  {
    DocumentMeans(j, x);
    AlongIs(x.path);
    if Explains(Node(DocumentRecord, j), Root, x) {
      var steps :| x.path == Along(Root, steps) && Found(Node(DocumentRecord, j), steps, x.code);
      StepsAre(steps);
    }
  }
}
