/** The compiler as its callers see it: every artifact, or diagnostics and nothing else. */
module Compile {
  import opened Diagnostics
  import opened Document
  import opened Emit
  import opened Json
  import opened Seqs
  import opened Nodes
  import Ddl
  import Determinism
  import HeapData
  import Shape
  import Snapshot
  import Validate

  datatype Outcome =
    | Compiled(jsonSchema: Node, typescript: TypeScriptText, postgres: seq<Statement>)
    | Rejected(diagnostics: seq<Diagnostic>)
  type TypeScriptText = seq<Interface>

  /** The input stands for the JSON form of this document, within the depth and array limits. */
  ghost predicate Spells(g: Snapshot.Graph, input: Snapshot.Value, d: Document) {
    HeapData.Stands(g, input, Shape.Encode(d)) && HeapData.Within(Shape.Encode(d), 16, 16384)
  }

  /** And within the node limit. */
  ghost predicate Represents(g: Snapshot.Graph, input: Snapshot.Value, d: Document) {
    Spells(g, input, d) && Count(Shape.Encode(d)) <= 200000
  }

  ghost predicate ArtifactsOf(o: Outcome, d: Document) {
    && o.Compiled?
    && o.jsonSchema == JsonSchema(d)
    && o.typescript == TypeScript(d)
    && AllEmittable(d) && o.postgres == PostgresStatements(d)
  }

  /** Whatever is not read, or is read as no document, stands for no document. */
  lemma StandsForNone(g: Snapshot.Graph, input: Snapshot.Value, read: Option<Json>)
    requires forall j :: HeapData.Reads(g, input, j) ==> read == Some(j)
    requires read.Some? ==> forall d: Document :: WellFormed(d) ==> Shape.Encode(d) != read.value
    ensures !exists d: Document :: WellFormed(d) && Represents(g, input, d)
  {
    forall d: Document | WellFormed(d) ensures !Represents(g, input, d) {
      assert HeapData.Reads(g, input, Shape.Encode(d)) ==> Represents(g, input, d);
    }
  }

  lemma StandsFor(g: Snapshot.Graph, input: Snapshot.Value, j: Json, d: Document)
    requires HeapData.Reads(g, input, j) && Shape.Encode(d) == j
    ensures Represents(g, input, d)
  {
  }

  /** Why an input is rejected: a limit, a value that is no JSON data, or what validation finds in the data. */
  ghost predicate Reported(g: Snapshot.Graph, input: Snapshot.Value, diagnostics: seq<Diagnostic>) {
    || (diagnostics == [Diagnostic(INPUT_LIMIT, Root)] && Snapshot.Blamed(g, input, true))
    || (diagnostics == [Diagnostic(INPUT_NOT_JSON, Root)] && Snapshot.Blamed(g, input, false))
    || exists j :: HeapData.Reads(g, input, j) && diagnostics == Capped(Validate.Faults(j))
  }

  /** Validation, as far as compilation depends on it. */
  method Accept(value: Json) returns (document: Option<Document>, diagnostics: seq<Diagnostic>)
    ensures diagnostics == Capped(Validate.Faults(value))
    ensures document.Some? ==> WellFormed(document.value) && Shape.Encode(document.value) == value
    ensures document.None? ==> 1 <= |diagnostics| <= CAP && forall d: Document :: WellFormed(d) ==> Shape.Encode(d) != value
  {
    document, diagnostics := Validate.Validate(value);
  }

  /** All artifacts of the one well-formed document the input stands for, or between one and a hundred diagnostics. */
  method CompileSchema(g: Snapshot.Graph, input: Snapshot.Value) returns (outcome: Outcome)
    requires Snapshot.Heap(g)
    ensures outcome.Rejected? ==> 1 <= |outcome.diagnostics| <= CAP && Reported(g, input, outcome.diagnostics)
    ensures outcome.Rejected? ==> !exists d: Document :: WellFormed(d) && Represents(g, input, d)
    ensures outcome.Compiled? ==> exists d: Document :: WellFormed(d) && Represents(g, input, d) && ArtifactsOf(outcome, d)
  {
    var snapshot, limited := HeapData.SnapshotJson(g, input);
    if snapshot.None? {
      StandsForNone(g, input, snapshot);
      return Rejected([Diagnostic(if limited then INPUT_LIMIT else INPUT_NOT_JSON, Root)]);
    }
    var document, diagnostics := Accept(snapshot.value);
    if document.None? {
      StandsForNone(g, input, snapshot);
      return Rejected(diagnostics);
    }
    outcome := Compile(document.value);
    StandsFor(g, input, snapshot.value, document.value);
  }

  /** The emitters. */
  method Compile(d: Document) returns (outcome: Outcome)
    requires WellFormed(d)
    ensures ArtifactsOf(outcome, d)
  {
    Ddl.EmittersTotal(d);
    var jsonSchema := EmitJsonSchema(d);
    var postgres := EmitPostgres(d);
    outcome := Compiled(jsonSchema, TypeScript(d), postgres);
  }

  // ----- the node limit does not see the order -----

  lemma StorageMembersCount(x: Json, y: Json, c: Json, p: Json, u: Json, f: Json, c': Json, u': Json, f': Json)
    requires Count(c) == Count(c') && Count(u) == Count(u') && Count(f) == Count(f')
    ensures Count(Obj(map["schema" := x, "table" := y, "columns" := c, "primaryKey" := p, "uniqueKeys" := u, "foreignKeys" := f])) ==
              Count(Obj(map["schema" := x, "table" := y, "columns" := c', "primaryKey" := p, "uniqueKeys" := u', "foreignKeys" := f']))
  {
    ObjectsCountAlike(map["schema" := x, "table" := y, "columns" := c, "primaryKey" := p, "uniqueKeys" := u, "foreignKeys" := f],
                      map["schema" := x, "table" := y, "columns" := c', "primaryKey" := p, "uniqueKeys" := u', "foreignKeys" := f']);
  }

  lemma StoragesCountAlike(s: Storage, s': Storage)
    requires Determinism.BagOfStorage(s) == Determinism.BagOfStorage(s')
    ensures Count(Shape.EncodeStorage(s)) == Count(Shape.EncodeStorage(s'))
  {
    ArraysCountAlike(Shape.EncodeColumn, s.columns, s'.columns);
    ArraysCountAlike(Shape.EncodeNames, s.uniqueKeys, s'.uniqueKeys);
    ArraysCountAlike(Shape.EncodeForeign, s.foreignKeys, s'.foreignKeys);
    StorageMembersCount(Str(s.schema), Str(s.table), Arr(Map(Shape.EncodeColumn, s.columns)), Shape.EncodeNames(s.primaryKey),
                        Arr(Map(Shape.EncodeNames, s.uniqueKeys)), Arr(Map(Shape.EncodeForeign, s.foreignKeys)),
                        Arr(Map(Shape.EncodeColumn, s'.columns)), Arr(Map(Shape.EncodeNames, s'.uniqueKeys)),
                        Arr(Map(Shape.EncodeForeign, s'.foreignKeys)));
  }

  lemma ModelMembersCount(x: Json, f: Json, s: Json, f': Json, s': Json, stored: bool)
    requires Count(f) == Count(f') && Count(s) == Count(s')
    ensures Count(Obj(map["name" := x, "fields" := f] + Shape.Optional("storage", s, stored))) ==
              Count(Obj(map["name" := x, "fields" := f'] + Shape.Optional("storage", s', stored)))
  {
    ObjectsCountAlike(map["name" := x, "fields" := f] + Shape.Optional("storage", s, stored),
                      map["name" := x, "fields" := f'] + Shape.Optional("storage", s', stored));
  }

  lemma ModelsCountAlike(m: Model, m': Model)
    requires Determinism.BagOf(m) == Determinism.BagOf(m')
    ensures Count(Shape.EncodeModel(m)) == Count(Shape.EncodeModel(m'))
  {
    ArraysCountAlike(Shape.EncodeField, m.fields, m'.fields);
    if m.storage.Some? {
      StoragesCountAlike(m.storage.value, m'.storage.value);
    }
    ModelMembersCount(Str(m.name), Arr(Map(Shape.EncodeField, m.fields)), StorageJson(m), Arr(Map(Shape.EncodeField, m'.fields)),
                      StorageJson(m'), m.storage.Some?);
  }

  function StorageJson(m: Model): Json { if m.storage.Some? then Shape.EncodeStorage(m.storage.value) else Null }

  lemma DocumentsCountAlike(a: Document, b: Document)
    requires Determinism.Reordering(a, b)
    ensures Count(Shape.Encode(a)) == Count(Shape.Encode(b))
  {
    forall m, m' | m in a && m' in b && Determinism.BagOf(m) == Determinism.BagOf(m')
      ensures Count(Shape.EncodeModel(m)) == Count(Shape.EncodeModel(m'))
    {
      ModelsCountAlike(m, m');
    }
    BagsCountAlike(Shape.EncodeModel, Determinism.BagOf, a, b);
    ObjectsCountAlike(Shape.Encode(a).members, Shape.Encode(b).members);
  }

  /**
   * An input that lists the declarations of an accepted one in another order is accepted by the
   * snapshot too, is well-formed, and has the same artifacts.
   */
  lemma ArtifactsAreOrderBlind(
    g: Snapshot.Graph, input: Snapshot.Value, a: Document, g': Snapshot.Graph, input': Snapshot.Value, b: Document, o: Outcome)
    requires WellFormed(a) && Determinism.Reordering(a, b)
    requires Represents(g, input, a) && Spells(g', input', b) && ArtifactsOf(o, a)
    ensures WellFormed(b) && Represents(g', input', b) && ArtifactsOf(o, b)
  {
    DocumentsCountAlike(a, b);
    ReorderedArtifacts(a, b, o);
  }

  lemma ReorderedArtifacts(a: Document, b: Document, o: Outcome)
    requires WellFormed(a) && Determinism.Reordering(a, b) && ArtifactsOf(o, a)
    ensures WellFormed(b) && ArtifactsOf(o, b)
  {
    Determinism.AcceptanceIsOrderBlind(a, b);
    Ddl.EmittersTotal(b);
    Determinism.ShapesAreOrderBlind(a, b);
    Determinism.PostgresIsOrderBlind(a, b);
  }
}
