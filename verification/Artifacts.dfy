/** What the emitted JSON Schema accepts as a whole, and what the emitted TypeScript declarations admit. */
module Artifacts {
  import opened Seqs
  import opened Strings
  import opened Json
  import opened Document
  import opened Values
  import opened Emit
  import opened Columns

  // ----- the root of the schema, with its references resolved -----

  const DEFINITIONS := "#/$defs/"

  /** A JSON pointer into the definitions of the same schema. */
  function Resolve(root: seq<Member>, pointer: string): Option<Node> {
    if !(DEFINITIONS <= pointer) then None
    else match Keyword(root, "$defs")
      case Some(ObjNode(definitions)) => Keyword(definitions, pointer[|DEFINITIONS|..])
      case _ => None
  }

  predicate ReferenceAccepts(root: seq<Member>, reference: Node, j: Instance) {
    && reference.ObjNode?
    && match Keyword(reference.members, "$ref") {
         case Some(StrNode(pointer)) =>
           var definition := Resolve(root, pointer);
           definition.Some? && definition.value.ObjNode? && ObjectAccepts(definition.value.members, j)
         case _ => false
       }
  }

  predicate RootAccepts(root: Node, j: Instance) {
    && root.ObjNode?
    && match Keyword(root.members, "anyOf") {
         case Some(ArrNode(references)) => exists r | r in references :: ReferenceAccepts(root.members, r, j)
         case _ => false
       }
  }

  lemma {:induction false} RootKeywords(a: Node, b: Node, c: Node)
    ensures var ms := [Member("$schema", a), Member("anyOf", b), Member("$defs", c)];
            Keyword(ms, "anyOf") == Some(b) && Keyword(ms, "$defs") == Some(c)
  {
    var (p, q, r) := (Member("$schema", a), Member("anyOf", b), Member("$defs", c));
    assert [p, q, r] == [p] + [q, r] && [q, r] == [q] + [r] && [r] == [r] + [];
    KeywordSkips(p, [q, r], "anyOf");
    KeywordSkips(q, [r], "anyOf");
    KeywordSkips(p, [q, r], "$defs");
    KeywordSkips(q, [r], "$defs");
    KeywordSkips(r, [], "$defs");
  }

  lemma {:induction false} DefinitionFound(models: seq<Model>, m: Model)
    requires NoDup(Map(NameOfModel, models)) && m in models
    ensures Keyword(Map(Definition, models), m.name) == Some(Definition(m).value)
  {
    var (first, rest) := (models[0], models[1..]);
    assert models == [first] + rest && Map(NameOfModel, models)[1..] == Map(NameOfModel, rest);
    assert Map(Definition, models) == [Definition(first)] + Map(Definition, rest);
    KeywordSkips(Definition(first), Map(Definition, rest), m.name);
    if first.name == m.name {
      KeyInjective(NameOfModel, models, first, m);
    } else {
      DefinitionFound(rest, m);
    }
  }

  lemma {:induction false} ReferenceKeyword(m: Model)
    ensures Reference(m).ObjNode? && Keyword(Reference(m).members, "$ref") == Some(StrNode(DEFINITIONS + m.name))
    ensures DEFINITIONS <= DEFINITIONS + m.name && (DEFINITIONS + m.name)[|DEFINITIONS|..] == m.name
  {
  }

  lemma {:induction false} ReferenceMeans(models: seq<Model>, root: seq<Member>, m: Model, j: Instance)
    requires NoDup(Map(NameOfModel, models)) && m in models
    requires Keyword(root, "$defs") == Some(ObjNode(Map(Definition, models)))
    ensures ReferenceAccepts(root, Reference(m), j) <==> ObjectMeant(m.fields, j)
  {
    ReferenceKeyword(m);
    DefinitionFound(models, m);
    DefinitionKeywords(m);
    DefinitionMeans(m, j);
  }

  function RootMembers(references: seq<Node>, definitions: seq<Member>): seq<Member> {
    [Member("$schema", StrNode("https://json-schema.org/draft/2020-12/schema")), Member("anyOf", ArrNode(references)),
     Member("$defs", ObjNode(definitions))]
  }

  lemma {:induction false} RootIs(references: seq<Node>, definitions: seq<Member>, j: Instance)
    ensures Keyword(RootMembers(references, definitions), "$defs") == Some(ObjNode(definitions))
    ensures RootAccepts(RootSchema(references, definitions), j) <==>
              exists r | r in references :: ReferenceAccepts(RootMembers(references, definitions), r, j)
  {
    RootKeywords(StrNode("https://json-schema.org/draft/2020-12/schema"), ArrNode(references), ObjNode(definitions));
    assert RootSchema(references, definitions) == ObjNode(RootMembers(references, definitions));
  }

  lemma {:induction false} SomeReference(models: seq<Model>, root: seq<Member>, j: Instance)
    requires NoDup(Map(NameOfModel, models)) && Keyword(root, "$defs") == Some(ObjNode(Map(Definition, models)))
    ensures (exists r | r in Map(Reference, models) :: ReferenceAccepts(root, r, j)) <==> exists m | m in models :: ObjectMeant(m.fields, j)
  {
    if r :| r in Map(Reference, models) && ReferenceAccepts(root, r, j) {
      var m := MapInInverse(Reference, models, r);
      ReferenceMeans(models, root, m, j);
    }
    if m :| m in models && ObjectMeant(m.fields, j) {
      MapIn(Reference, models, m);
      ReferenceMeans(models, root, m, j);
    }
  }

  lemma {:induction false} SortedModels(d: Document)
    requires NoDup(Map(NameOfModel, d))
    ensures NoDup(Map(NameOfModel, SortBy(NameOfModel, d)))
    ensures forall m :: m in SortBy(NameOfModel, d) <==> m in d
  {
    var models := SortBy(NameOfModel, d);
    SortByCorrect(NameOfModel, d);
    PermMembers(d, models);
    MapPerm(NameOfModel, d, models);
    PermNoDup(Map(NameOfModel, d), Map(NameOfModel, models));
  }

  /** The root accepts exactly the objects of some declared model. */
  lemma {:induction false} RootMeans(d: Document, j: Instance)
    requires NoDup(Map(NameOfModel, d))
    ensures RootAccepts(JsonSchema(d), j) <==> exists m | m in d :: ObjectMeant(m.fields, j)
  {
    var models := SortBy(NameOfModel, d);
    SortedModels(d);
    RootIs(Map(Reference, models), Map(Definition, models), j);
    SomeReference(models, RootMembers(Map(Reference, models), Map(Definition, models)), j);
  }

  // ----- TypeScript -----

  predicate NamedTypeAdmits(name: string, j: Instance) {
    if name == "null" then j.JsonNull?
    else if name == "boolean" then j.JsonBool?
    else if name == "number" then IsNumber(j)
    else name == "string" && j.JsonString?
  }

  predicate UnionAdmits(union: seq<string>, j: Instance) { exists name | name in union :: NamedTypeAdmits(name, j) }

  /** Structural typing: properties without a question mark are there, and those that are there have their types. */
  predicate Admits(i: Interface, j: Instance) {
    && j.JsonObject?
    && (forall p | p in i.properties :: p.name in j.members || p.optional)
    && (forall p | p in i.properties && p.name in j.members :: UnionAdmits(p.union, j.members[p.name]))
  }

  /** A value of the scalar, whatever its length, range or pattern. */
  predicate Shaped(s: Scalar, j: Instance) {
    match s
    case StringType => j.JsonString?
    case BooleanType => j.JsonBool?
    case Int32Type => IsNumber(j)
    case UuidType => j.JsonString?
  }

  predicate ValueShaped(f: Field, j: Instance) { Shaped(f.scalar, j) || (j.JsonNull? && f.nullable) }

  /** What only the schema tells: lengths, the range of an integer, the digits of a uuid. */
  predicate WithinLimits(f: Field, j: Instance) {
    && (f.scalar == Int32Type && IsNumber(j) ==> IsWhole(j) && -2147483648 <= WholeOf(j) <= 2147483647)
    && (f.scalar == UuidType && j.JsonString? ==> CanonicalUuid(j.s))
    && (j.JsonString? ==> LengthWithin(f, j.s))
  }

  lemma {:induction false} UnionMeans(f: Field, j: Instance)
    ensures UnionAdmits(PropertyOf(f).union, j) <==> ValueShaped(f, j)
  {
    var union := PropertyOf(f).union;
    assert union[0] == TypeScriptName(f.scalar) && union[0] in union;
    if f.nullable {
      assert union[1] == "null" && union[1] in union;
    }
  }

  /** A declared interface admits the objects with every required property and values of the declared shapes. */
  lemma {:induction false} InterfaceMeans(m: Model, j: Instance)
    ensures Admits(InterfaceOf(m), j) <==>
              && j.JsonObject?
              && (forall f | f in m.fields && f.required :: f.name in j.members)
              && (forall f | f in m.fields && f.name in j.members :: ValueShaped(f, j.members[f.name]))
  {
    var fields := SortBy(NameOfField, m.fields);
    SortByCorrect(NameOfField, m.fields);
    PermMembers(m.fields, fields);
    forall f | f in m.fields ensures PropertyOf(f) in InterfaceOf(m).properties {
      MapIn(PropertyOf, fields, f);
    }
    forall p | p in InterfaceOf(m).properties ensures exists f | f in m.fields :: p == PropertyOf(f) {
      var f := MapInInverse(PropertyOf, fields, p);
    }
    if j.JsonObject? {
      forall f | f in m.fields && f.name in j.members
        ensures UnionAdmits(PropertyOf(f).union, j.members[f.name]) <==> ValueShaped(f, j.members[f.name])
      {
        UnionMeans(f, j.members[f.name]);
      }
    }
  }

  lemma {:induction false} MeantIsShaped(f: Field, j: Instance)
    ensures Meant(f, j) <==> ValueShaped(f, j) && WithinLimits(f, j)
  {
  }

  /** The schema of a model accepts what its interface admits, less unknown properties and values beyond the limits. */
  lemma {:induction false} SchemaAgainstInterface(m: Model, j: Instance)
    ensures ObjectMeant(m.fields, j) <==>
              && Admits(InterfaceOf(m), j)
              && (forall k | k in j.members :: exists f | f in m.fields :: f.name == k)
              && (forall f | f in m.fields && f.name in j.members :: WithinLimits(f, j.members[f.name]))
  {
    InterfaceMeans(m, j);
    if j.JsonObject? {
      forall f | f in m.fields && f.name in j.members
        ensures Meant(f, j.members[f.name]) <==> ValueShaped(f, j.members[f.name]) && WithinLimits(f, j.members[f.name])
      {
        MeantIsShaped(f, j.members[f.name]);
      }
    }
  }
}
