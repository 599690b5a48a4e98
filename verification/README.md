# Verified model of ores-lib-core

This Dafny project models the parts of the repository that decide, compile or arbitrate, and proves what
they promise. It covers two schema compilers, one concurrent write protocol, and four bounded policies that
several languages implement side by side. Nothing was executed: every statement is about the model, and the
model follows the source branch by branch.

`dafny verify dfyconfig.toml` checks the whole project.

## What is modelled

**The schema compiler** (`langs/typescript/src/schema-compiler`).
`Snapshot` reads an untrusted, possibly cyclic object graph with a node counter and a set of ancestors; `HeapData` says
which JSON data a heap value stands for and that reading it returns just that.
`Shape` and `Relational` collect the faults of a document, `ShapeMeaning` and `RelationalMeaning` say what each
diagnostic means where its path points, as departures from a grammar and as broken rules between declarations, and
`ReportOrder` in which order they come.
`Validate` is the validator as an object that pushes onto one capped list of diagnostics, `Reading` which typed
document a JSON value spells, and `Document` the declarative rule book: JSON data is accepted exactly when it is the
JSON form of a `WellFormed` document. `Emit` holds the three emitters as trees, with the loops of the SQL emitter;
`Catalog` is a small PostgreSQL catalog; `Ddl` runs the emitted statements on it, and `DdlMeaning` reads the catalog
they leave behind off the declarations. `Columns` gives the emitted property schema and the emitted column a meaning
and says where they differ, `Artifacts` the schema as a whole and the TypeScript declarations. `Determinism` shows that
declaration order reaches neither acceptance nor any artifact, `Nodes` that it does not reach the node limit either.
`Naming` is the 64-bit FNV-1a name function, `NamingVectors` its rounds in plain arithmetic and a published hash,
`JsonText` the printed form of JSON arrays and objects, and `Compile` ties snapshot, validation and emission together.

**The schema-IR compiler** (`langs/typescript/src/schema-ir`).
`SchemaIr` has the front end and the canonical form, `IrReading` which IR a JSON value spells, `IrMeaning` when an IR is
valid and what it is normalised to, declaration by declaration. `IrCanonical` proves the canonical form unique,
`IrOrder` the front end independent of declaration order up to the node budget. `IrHoles` is the front end on graphs,
which reads arrays by index and meets holes; `IrDense` shows that without holes it is the front end on JSON data.
`CanonicalText` is the printing with sorted keys, `IrRoundTrip` reads texts back, `IrFixpoint` proves exactly when the
compiler reproduces its own output, `IrBudget` and `IrHoleKept` hold the two kinds of inputs for which it does not.
`IrNames` is the one-shot collision test, and `Backends` the meaning of the JSON Schema, CUE and SQL written for one
field and for one object.

**The protocol** (`admin-orm/src/lib.rs`).
`RecordAction` interleaves the statements of any number of `record_action` calls over a READ COMMITTED store,
with failures at any point, also between a commit and its answer, and with the statement on its way at a failure
taking effect later or not at all. The class `Database` is one call as the
source writes it, with the other calls' statements in between; what it answers is settled by the rows its insert finds.

**Bounded policies.** `Retry` (three planners and the budget of a host run; rounding is any function that is
exact on integers, which a bound on the relative error alone would not give: `Retry.RelativeErrorIsNotEnough`), `Metrics` (the label gate and the
label maps it can ever let through), `Email` (four normalisers, one grammar) and `Organizations` (Go loops against
a Rust ordered set). `RetryRules`, `MetricRules` and `EmailMeaning` state the policies in their own terms, numbers, names
and code points written out, and prove that the implementations follow them.

`Seqs`, `Strings`, `Characters`, `Numbers`, `Json`, `Values` (JSON instances and column values), `Diagnostics` and
`Samples` (names for large inputs) are shared vocabulary.

## What the code does not promise

Statements one might expect that are false of the code. Each has the exact condition and a concrete input.

* Emitted SQL can fail: keys may have 128 fields, an index at most 32 columns. `Ddl.DdlSound` gives the
  equivalence, `DdlLimit.AcceptedButTooWide` a document.
* The emitted JSON Schema and the emitted column of a field differ on texts with a NUL and on uuids the column reads
  in another spelling (upper-case digits, other hyphens, braces), and on nothing else (`Columns.SchemaAgreesIff`,
  `Columns.SchemaAgainstRow`, `Columns.NulSplits`). Those of the schema-IR compiler differ on uuids that are not
  hyphenated (`Backends.BackendsAgree`, `Backends.RowsAgree`).
* The schema-IR walk counts decimal keys instead of comparing them with the length, so it accepts an array
  with a hole when some key lies at or beyond the length (`Snapshot.DenseIffBelow`, `Snapshot.HoleAccepted`).
* A normalised IR may not compile again, for two reasons: a hole among the indexes or foreign keys is printed as
  null, and defaults add nodes to a budget of 100000. `IrFixpoint.NormalisedIsFixed` has the equivalence,
  `IrFixpoint.OwnFileIsFixed` the same for the file the compiler prints,
  `IrHoleKept.HoleIsNotFixed` and `IrBudget.DefaultsCanExceedTheBudget` the inputs.
* CUE rejects an integer written as `1.0`, which JSON Schema and the column accept (`Backends.ObjectsAgree`,
  `Backends.FloatLiteralSplits`).
* For metrics the guard does not pin, a label named like an inherited property is looked up in a place a trusted
  contract may fill freely. The admitted maps are bounded exactly for tame names: those not looked up there, and
  those every trusted contract forbids (`Metrics.BoundedIffTame`, `Metrics.ConstructorIsNotTame`). Pinned metrics are bounded without condition
  (`Metrics.PinnedMetricIsBounded`).
* A failure reported by `record_action` is not final: a commit on its way may take effect after another call began
  (`RecordAction.FailureIsNotFinal`). Answers of the other two kinds respect real time (`RecordAction.RealTimeOrder`).

## Model

| member | source | states |
|---|---|---|
| `Snapshot.Walk.Visit` | langs/typescript/src/schema-compiler/validate.js:21-60 | the walk succeeds exactly when the value unfolds to plain data within the limits and the counter leaves room; it returns that unfolding, has counted its nodes, and has restored the ancestors, which are always the path from the root |
| `Snapshot.Walk.VisitAll` | langs/typescript/src/schema-compiler/validate.js:54-58 | children are visited in own-key order, and one that does not fit leaves no room for the whole |
| `HeapData.SnapshotJson` | langs/typescript/src/schema-compiler/validate.js:18-62 | returns the JSON data the input stands for, exactly when it stands for data within the limits: null, truth values, texts and finite numbers themselves with -0 as 0, arrays item by item, objects member by member; a limit error means a reachable value too deep or too long or more than 200000 positions, the other error a reachable value that is no JSON data |
| `HeapData.UnfoldingIsStanding` | langs/typescript/src/schema-compiler/validate.js:29-58 | a value unfolds to data iff it stands for that data and the data is within the limits, so it stands for no other |
| `Snapshot.CycleHasNoUnfolding` | langs/typescript/src/schema-compiler/validate.js:32-34 | a value met again on the path to it has no unfolding at any depth, so dropping the ancestor test changes no answer |
| `Snapshot.DepthBlind` | langs/typescript/src/schema-compiler/validate.js:23-25 | the depth limit decides whether a value unfolds, never to what |
| `Snapshot.ItemsInOrder` | langs/typescript/src/schema-compiler/validate.js:50-56 | in an accepted array own property i is item i: no hole, no extra property |
| `Snapshot.BudgetIsCount` | langs/typescript/src/schema-ir/validate.js:26-46 | the threaded budget comes back less exactly the nodes of the unfolding, and the walk accepts iff depth, node and array limits hold |
| `Snapshot.FoldIsCount` | langs/typescript/src/schema-ir/validate.js:38-43 | each property starts from what its previous sibling left, and together they cost their nodes |
| `Snapshot.DenseIffBelow` | langs/typescript/src/schema-ir/validate.js:41-44 | an array the schema-IR walk accepts has no hole iff all its keys are below its length |
| `Snapshot.HoleAccepted` | langs/typescript/src/schema-ir/validate.js:41-44 | a one-element array whose only element is missing passes the walk |
| `Naming.ComputeConstraintName` | langs/typescript/src/schema-compiler/naming.js:4-11 | the hash loop computes the 64-bit FNV-1a fold of the printed source and prints it behind the kind |
| `Naming.HashBijective` | langs/typescript/src/schema-compiler/naming.js:6-9 | for a fixed text the fold is a bijection of the 64-bit state |
| `Naming.OneCharacterChanges` | langs/typescript/src/schema-compiler/naming.js:5-9 | sources that differ in exactly one character never collide |
| `Naming.HexWordFaithful` | langs/typescript/src/schema-compiler/naming.js:10 | the padded hexadecimal form has 16 digits and is read back to the same word |
| `Naming.NameFaithful` | langs/typescript/src/schema-compiler/naming.js:10 | names have 27 characters and agree iff kind and hash agree |
| `NamingVectors.RoundIs` | langs/typescript/src/schema-compiler/naming.js:7-8 | a round on an ASCII character in plain arithmetic: only the seven lowest bits meet the character, then the product modulo 2^64 |
| `NamingVectors.PublishedHash` | langs/typescript/src/schema-compiler/naming.js:6-9 | from the offset basis the text `a` hashes to the published 0xaf63dc4c8601ec8c |
| `NamingVectors.NameSpelled` | langs/typescript/src/schema-compiler/naming.js:5-10 | a name is `ores_ir_`, the kind, and in hexadecimal the hash from the offset basis of version, schema, table, kind and identity, printed as an array in this order |
| `Validate.Validate` | langs/typescript/src/schema-compiler/validate.js:65-302 | accepts exactly the JSON forms of well-formed documents and returns the document the value spells; otherwise the diagnostics are the first hundred faults in order, each means what its code and path say, below a hundred nothing that a diagnostic can mean is missing, and they come in report order |
| `Validate.FaultsMean` | langs/typescript/src/schema-compiler/validate.js:151-301 | a diagnostic is a fault iff the value departs from the grammar there, or departs nowhere and the document it spells breaks that rule there, or breaks none and has clashing names there |
| `ShapeMeaning.ShapeFaultsMean` | langs/typescript/src/schema-compiler/validate.js:81-198 | the shape phase reports code and path iff every part above the path is sound and the part there breaks the grammar in the way the code says |
| `RelationalMeaning.RelationalFaultsMean` | langs/typescript/src/schema-compiler/validate.js:200-277 | the relational phase reports exactly the broken rules: each of its seventeen codes at its model, storage or foreign key, with the early returns of an unknown or unpaired target |
| `RelationalMeaning.NameFaultsMean` | langs/typescript/src/schema-compiler/validate.js:278-300 | the name phase reports exactly the models with two constraints of one name or an index named like a table, an earlier index, or another of its own |
| `ReportOrder.ShapeFaultsOrdered` | langs/typescript/src/schema-compiler/validate.js:81-198 | shape faults come part by part in one order of keys and by index, a part's own fault after those below it, and none twice |
| `ReportOrder.RelationalFaultsOrdered` | langs/typescript/src/schema-compiler/validate.js:200-277 | relational faults come model by model, its own rules in turn, then foreign key by foreign key; only an unknown key field is repeated, once per key |
| `Reading.ReadingSpells` | langs/typescript/src/schema-compiler/validate.js:81-198 | a value of the right shape spells one document, member by member with scalar and action names written out, and that is the one read |
| `Validate.FaultsDecide` | langs/typescript/src/schema-compiler/validate.js:151-301 | no fault is found iff the value is the JSON form of a document that meets the declarative rules |
| `Validate.AcceptedIsWellFormed` | langs/typescript/src/schema-compiler/validate.js:200-300 | relational and name phase together decide well-formedness |
| `Validate.AcceptDocument` | langs/typescript/src/schema-compiler/validate.js:199-301 | the name phase runs only on documents without relational faults, and both accept iff the document is well-formed |
| `Validate.TargetsResolve` | langs/typescript/src/schema-compiler/validate.js:288 | in the name phase every referenced model exists and is stored |
| `Validate.Validator.Error` | langs/typescript/src/schema-compiler/validate.js:75-80 | the list is always the first hundred of all faults reported |
| `Validate.Validator.Record` | langs/typescript/src/schema-compiler/validate.js:81-93 | not an object, unknown property, missing property: at most one fault, in this order |
| `Validate.Validator.Array` | langs/typescript/src/schema-compiler/validate.js:94-99 | one fault unless the value is an array within its bounds |
| `Validate.Validator.Name` | langs/typescript/src/schema-compiler/validate.js:100-105 | one fault unless the value is an identifier of the pattern |
| `Validate.Validator.FieldList` | langs/typescript/src/schema-compiler/validate.js:106-114 | faults of every field name, then one for a repeated primitive, as a set of mixed values counts them |
| `Validate.Validator.StorageShape` | langs/typescript/src/schema-compiler/validate.js:115-150 | all shape faults of a storage, in order |
| `Validate.Validator.Foreign` | langs/typescript/src/schema-compiler/validate.js:135-148 | all shape faults of a foreign key, in order |
| `Validate.Validator.Field` | langs/typescript/src/schema-compiler/validate.js:167-189 | all shape faults of a field, in order |
| `Validate.Validator.Length` | langs/typescript/src/schema-compiler/validate.js:181-185 | a length is an integer from 0 to 1048576 on a string field, when present |
| `Validate.Validator.ModelShape` | langs/typescript/src/schema-compiler/validate.js:160-194 | all shape faults of a model, in order |
| `Validate.Validator.DocumentShape` | langs/typescript/src/schema-compiler/validate.js:151-194 | all shape faults of a document, in order |
| `Validate.Validator.Mapping` | langs/typescript/src/schema-compiler/validate.js:223-235 | distinct columns, none reserved, a mapping of every field, no optional field |
| `Validate.Validator.StoredKeys` | langs/typescript/src/schema-compiler/validate.js:236-248 | distinct key field sets, known fields, a primary key without nullable fields |
| `Validate.Validator.References` | langs/typescript/src/schema-compiler/validate.js:249-277 | a set of signatures finds repeated relationships, and every reference is checked |
| `Validate.Validator.Resolved` | langs/typescript/src/schema-compiler/validate.js:257-276 | target, fields, ordered key, types and SET NULL, with the two early returns |
| `Validate.Validator.Stored` | langs/typescript/src/schema-compiler/validate.js:214-276 | the rules of a stored model; its table joins the tables seen |
| `Validate.Validator.ModelRules` | langs/typescript/src/schema-compiler/validate.js:205-276 | the relational faults of one model given the tables before it |
| `Validate.Validator.DocumentRules` | langs/typescript/src/schema-compiler/validate.js:200-277 | all relational faults of a document, in order |
| `Validate.Validator.Indexes` | langs/typescript/src/schema-compiler/validate.js:292-298 | each index name is tested against all relations before it, then added |
| `Validate.Validator.ModelNames` | langs/typescript/src/schema-compiler/validate.js:282-299 | name collisions of one model given the relations before it |
| `Validate.Validator.DocumentNames` | langs/typescript/src/schema-compiler/validate.js:281-299 | all name collisions of a document, in order |
| `Shape.DocumentDecodes` | langs/typescript/src/schema-compiler/validate.js:151-199 | after a silent shape phase the value is the JSON form of a document whose declarations are in bounds |
| `Shape.DocumentEncodes` | langs/typescript/src/schema-compiler/validate.js:151-199 | every such document passes the shape phase and is read back |
| `Relational.RelationalFaultsDecide` | langs/typescript/src/schema-compiler/validate.js:200-277 | the relational phase is silent iff the relational rules hold |
| `Relational.NameFaultsDecide` | langs/typescript/src/schema-compiler/validate.js:278-300 | the name phase is silent iff no generated name collides |
| `Relational.SignatureIsFieldSet` | langs/typescript/src/schema-compiler/validate.js:236-240 | sorted NUL-joined keys are equal iff the field sets are |
| `Relational.RelationshipTextFaithful` | langs/typescript/src/schema-compiler/validate.js:252-256 | printed relationships are equal iff the relationships are |
| `Relational.DottedInjective` | langs/typescript/src/schema-compiler/validate.js:218-222 | a dotted relation name determines schema and relation |
| `Relational.ScanDecides` | langs/typescript/src/schema-compiler/validate.js:281-299 | testing each list against everything before it decides whether all names are distinct |
| `Emit.EmitPostgres` | langs/typescript/src/schema-compiler/emit.js:66-109 | pushes schemas, sorted tables and sorted foreign keys; every look-up succeeds |
| `Emit.EmitTable` | langs/typescript/src/schema-compiler/emit.js:81-98 | columns by name, then the primary key, then unique keys by joined fields |
| `Emit.EmitColumn` | langs/typescript/src/schema-compiler/emit.js:84-93 | type, NOT NULL and length checks of a column |
| `Emit.EmitForeignKeys` | langs/typescript/src/schema-compiler/emit.js:100-107 | one ALTER TABLE per foreign key, by printed key |
| `Columns.PropertySchemaMeans` | langs/typescript/src/schema-compiler/emit.js:12-29 | the keywords of an emitted property schema accept exactly the values of the field, uuids in lower case only |
| `Columns.DefinitionMeans` | langs/typescript/src/schema-compiler/emit.js:31-41 | an emitted definition accepts exactly the objects with the required fields, no others than declared ones, and values meant by their fields |
| `Columns.ColumnMeans` | langs/typescript/src/schema-compiler/emit.js:84-93 | what an emitted column can hold, with CHECK unknown on NULL |
| `Columns.SchemaAgainstColumn` | langs/typescript/src/schema-compiler/emit.js:12-93 | the schema of a field accepts what its column can hold, plus texts with a NUL, less uuids in another spelling |
| `Columns.SchemaAgreesIff` | langs/typescript/src/schema-compiler/emit.js:12-93 | schema and column agree on an instance iff it is neither of the two |
| `Columns.SchemaAgainstRow` | langs/typescript/src/schema-compiler/emit.js:31-93 | for a stored model the objects its definition accepts, less those with a NUL, are those some row stands for, less those with a uuid in another spelling |
| `Columns.NulSplits` | langs/typescript/src/schema-compiler/emit.js:12-29 | a text the schema accepts and no column value stands for |
| `Artifacts.RootMeans` | langs/typescript/src/schema-compiler/emit.js:31-48 | with its references resolved the root schema accepts exactly the objects of some declared model |
| `Artifacts.InterfaceMeans` | langs/typescript/src/schema-compiler/emit.js:50-64 | a declared interface admits the objects with every required property whose values have the declared types, null iff nullable |
| `Artifacts.SchemaAgainstInterface` | langs/typescript/src/schema-compiler/emit.js:12-64 | the schema of a model accepts what its interface admits, less unknown properties and values beyond lengths, ranges and the uuid pattern |
| `Ddl.DdlSound` | langs/typescript/src/schema-compiler/emit.js:66-109 | for an accepted document the statements run from a catalog with only `public` iff no key has more than 32 columns, and then leave exactly the declared tables, columns, keys and foreign keys |
| `DdlMeaning.CatalogStands` | langs/typescript/src/schema-compiler/emit.js:66-109 | when no key has more than 32 columns the catalog after the run holds exactly what the document declares: its schemas and tables, each column with type, nullability and both bounds, each primary, unique and foreign key as exactly one constraint with the mapped columns in order, its target, mapped target columns and delete action, and nothing else |
| `Ddl.EmittersTotal` | langs/typescript/src/schema-compiler/emit.js:77-104 | every map look-up of the emitter is defined on accepted documents |
| `Ddl.NothingSilentlyNotNull` | langs/typescript/src/schema-compiler/emit.js:93-95 | a primary key makes no column NOT NULL that was not declared so |
| `Ddl.TableBecomesLegal` | langs/typescript/src/schema-compiler/emit.js:81-98 | the emitted CREATE TABLE is legal iff its keys fit an index |
| `Ddl.ReferenceBecomesLegal` | langs/typescript/src/schema-compiler/emit.js:102-106 | an emitted foreign key finds a key of its target with equal types |
| `DdlLimit.AcceptedButTooWide` | langs/typescript/src/schema-compiler/validate.js:107 | an accepted document whose statements fail, for a key of 33 fields |
| `Determinism.AcceptanceIsOrderBlind` | langs/typescript/src/schema-compiler/validate.js:199-301 | reordering models, fields, columns, unique keys or foreign keys changes no acceptance |
| `Determinism.ShapesAreOrderBlind` | langs/typescript/src/schema-compiler/emit.js:31-64 | nor the JSON Schema and the TypeScript declarations |
| `Determinism.PostgresIsOrderBlind` | langs/typescript/src/schema-compiler/emit.js:66-109 | nor the SQL statements and their order |
| `Strings.NulJoinInjective` | langs/typescript/src/schema-compiler/emit.js:96 | joining non-empty keys with NUL loses nothing |
| `Determinism.ForeignSortKeyInjective` | langs/typescript/src/schema-compiler/emit.js:102 | the sort key of a foreign key identifies it |
| `Determinism.QualifiedInjective` | langs/typescript/src/schema-compiler/emit.js:6-7 | the quoted qualified name identifies schema and table |
| `JsonText.PrintInjective` | langs/typescript/src/schema-compiler/naming.js:5 | printed JSON of plain texts is equal iff the data is |
| `Compile.CompileSchema` | langs/typescript/src/schema-compiler/index.js:5-21 | all three artifacts of the one well-formed document the input stands for, or one to a hundred diagnostics and no artifact: a limit, a value that is no JSON data, or the faults of the data read |
| `Compile.ArtifactsAreOrderBlind` | langs/typescript/src/schema-compiler/index.js:13-20 | an input with the same declarations in another order passes the node limit too, is accepted, and has the same artifacts |
| `Compile.DocumentsCountAlike` | langs/typescript/src/schema-compiler/validate.js:21-25 | reordered declarations have as many nodes |
| `IrReading.IrReadIff` | langs/typescript/src/schema-ir/validate.js:48-140 | the shape tests pass iff the value spells an IR, key by key with absent lists empty and an absent delete action none, and that IR is the one read |
| `IrMeaning.IrValidIff` | langs/typescript/src/schema-ir/validate.js:54-151 | the front end's tests on texts, sets and maps are the rules on declarations: names, bounds, key field sets, equal indexes, repeated relations, ordered target keys, types, SET NULL, names apart but for capitals |
| `IrMeaning.NormalizeMeans` | langs/typescript/src/schema-ir/validate.js:68-153 | data normalises to an IR iff it spells a valid one with the same declarations and that IR lists them in ascending order of names and printed keys |
| `Strings.StrLeMeans` | langs/typescript/src/schema-ir/validate.js:12 | the order of names: a prefix first, otherwise the first difference decides |
| `IrCanonical.CanonicalFormIsUnique` | langs/typescript/src/schema-ir/validate.js:95-153 | two valid IRs have one canonical form iff they differ in declaration order only |
| `IrCanonical.ValidityIsOrderBlind` | langs/typescript/src/schema-ir/validate.js:95-153 | validity does not depend on declaration order |
| `IrCanonical.CanonicalIsFixed` | langs/typescript/src/schema-ir/validate.js:127-152 | the canonical form lists the same declarations, is valid, and is its own canonical form |
| `IrOrder.TextsAreOrderBlind` | langs/typescript/src/schema-ir/validate.js:95-153 | JSON data, an IR or not, with its declarations in another order has as many nodes and normalises to the same value or is rejected too, whichever defaults each entity writes out |
| `IrCanonical.KeyTextInjective` | langs/typescript/src/schema-ir/validate.js:107-108 | printed keys are equal iff the keys are |
| `IrCanonical.ForeignTextInjective` | langs/typescript/src/schema-ir/validate.js:126-127 | printed foreign keys are equal only if the foreign keys are |
| `IrOrder.GraphsAreOrderBlind` | langs/typescript/src/schema-ir/validate.js:26-153 | and so do graphs of such data, the node budget included |
| `CanonicalText.SortedKeeps` | langs/typescript/src/schema-ir/index.js:8-11 | sorting the keys of every object changes no data |
| `CanonicalText.SortedTextIsUnique` | langs/typescript/src/schema-ir/index.js:8-11 | two values have one sorted text iff they are the same data |
| `IrDense.DenseNormalises` | langs/typescript/src/schema-ir/validate.js:95-153 | read by index, data without holes normalises as JSON data does |
| `IrFixpoint.StrictIffHoleFree` | langs/typescript/src/schema-ir/validate.js:38-44 | of what the walk accepts, exactly the graphs without a key at or beyond an array's length read without holes |
| `IrFixpoint.GraphsNormalizeAsTrees` | langs/typescript/src/schema-ir/validate.js:131-153 | a graph without holes normalises as the text it unfolds to |
| `IrFixpoint.GraphsNormalizeAsData` | langs/typescript/src/schema-ir/validate.js:26-153 | a graph that stands for data, holes excluded, normalises as that data does, as long as its JSON nodes are at most 100000 |
| `IrFixpoint.HolesSurvive` | langs/typescript/src/schema-ir/validate.js:89-127 | a hole in accepted data is still there in the normalised IR |
| `IrFixpoint.HoleRejected` | langs/typescript/src/schema-ir/validate.js:89-127 | a normalised IR with a hole, printed in any order of members, is rejected |
| `IrRoundTrip.IrRead` | langs/typescript/src/schema-ir/validate.js:68-153 | an IR is read back from its JSON form, with or without its defaults written out |
| `IrRoundTrip.TextIsFixed` | langs/typescript/src/schema-ir/validate.js:131-153 | the data of a normalised IR, defaults written out, normalises to the same IR |
| `IrFixpoint.NormalisedIsFixed` | langs/typescript/src/schema-ir/index.js:121-126 | for every accepted graph: its normalised IR, printed in any order of members and parsed again, normalises to itself iff no input array has a key at or beyond its length and the nodes, defaults included, fit the budget; otherwise it is rejected |
| `IrFixpoint.CompiledIsFixed` | langs/typescript/src/schema-ir/index.js:121-131 | the same for the whole compiler, name collisions and keys with holes included |
| `IrFixpoint.OwnFileIsFixed` | langs/typescript/src/schema-ir/index.js:8-11 | the same for the file the compiler prints, its keys sorted |
| `IrHoleKept.HoleIsNotFixed` | langs/typescript/src/schema-ir/validate.js:106-127 | a one-entity graph that compiles, whose printed file is rejected far below the budget |
| `IrBudget.UniformExceeds` | langs/typescript/src/schema-ir/validate.js:26-28 | 64 entities of one shape fit without, and the printed file with two defaulted lists each exceeds the budget |
| `IrBudget.DefaultsCanExceedTheBudget` | langs/typescript/src/schema-ir/validate.js:105-125 | an accepted input whose printed file is rejected |
| `IrNames.OneShotIsScan` | langs/typescript/src/schema-ir/index.js:28-35 | one comparison of set sizes decides what an insert-and-test scan in emission order decides |
| `IrNames.NameTermInjective` | langs/typescript/src/schema-ir/index.js:15 | the hashed text identifies table and key |
| `IrNames.CollisionFreeIff` | langs/typescript/src/schema-ir/index.js:21-35 | for any digest: the test passes iff the digest tells the generated relations of each kind apart and no table bears one of their names |
| `IrNames.OnlyTablesCollide` | langs/typescript/src/schema-ir/index.js:21-35 | when the texts hashed for this IR do not collide, the test fails iff a table bears a generated name |
| `Backends.BackendsAgree` | langs/typescript/src/schema-ir/index.js:36-118 | JSON Schema and SQL accept the same values of every valid field, SQL through the column value that stands for it and but for uuids in other spellings; CUE accepts those of the schema less numbers written with a fraction or an exponent |
| `Backends.EntitySchemaMeans` | langs/typescript/src/schema-ir/index.js:77-79 | the keywords of an emitted entity schema accept exactly the objects of the entity: no unknown members, no required one absent, every value meant |
| `Backends.DefinitionMeans` | langs/typescript/src/schema-ir/index.js:103-118 | so does the closed CUE definition, for numbers written as integers |
| `Backends.ObjectsAgree` | langs/typescript/src/schema-ir/index.js:77-118 | the CUE definition of an entity accepts the objects its JSON Schema accepts whose numbers are written as integers, presence included |
| `Backends.FloatLiteralSplits` | langs/typescript/src/schema-ir/index.js:103-118 | `1.0` in an int32 field is accepted by schema and column and rejected by CUE |
| `Backends.RowsAgree` | langs/typescript/src/schema-ir/index.js:36-79 | with every field present an object is valid iff some row of accepted values stands for it and its uuids are hyphenated |
| `Backends.SchemaMeans` | langs/typescript/src/schema-ir/index.js:66-76 | the keywords mean the field under either reading of `$` in a pattern |
| `Backends.CueMeans` | langs/typescript/src/schema-ir/index.js:105-116 | the conjunction of CUE terms means the field, integers written as such |
| `Backends.SqlMeans` | langs/typescript/src/schema-ir/index.js:36-45 | a value a column accepts, with CHECK unknown on NULL, stands for a value of the field or for a uuid in another spelling |
| `Backends.StoredIsAccepted` | langs/typescript/src/schema-ir/index.js:36-45 | every value of the field has a column value that is accepted and stands for it |
| `RecordAction.EveryRunIsSafe` | admin-orm/src/lib.rs:272-362 | in every interleaving with failures anywhere: one row per key, one outbox event per row and none else, answers that agree with the rows and with each other |
| `RecordAction.Linearizable` | admin-orm/src/lib.rs:272-362 | every run is a sequence of atomic operations ending in the committed rows; an answered call performed one, with its answer, a failed call at most one |
| `RecordAction.RealTimeOrder` | admin-orm/src/lib.rs:272-362 | an operation answered with a row or a conflict, or failed with its transaction over, before another began comes first |
| `RecordAction.FailureIsNotFinal` | admin-orm/src/lib.rs:356-360 | a run in which a failed call's commit takes effect after another call began |
| `RecordAction.StepIsAtomic` | admin-orm/src/lib.rs:305-361 | a step is one atomic operation on the book of keys or none |
| `RecordAction.StepKeeps` | admin-orm/src/lib.rs:279-361 | every statement of every call keeps the invariant |
| `RecordAction.NothingIsTakenBack` | admin-orm/src/lib.rs:356-361 | rows, events and answers only grow, the report of a failure included |
| `RecordAction.RetryAfterLostAnswer` | admin-orm/src/lib.rs:356-361 | when a lost attempt took effect, every later answer to the same input is its identifier |
| `RecordAction.RunsAreShort` | admin-orm/src/lib.rs:272-362 | n calls take at most 5n steps |
| `RecordAction.NoDeadlock` | admin-orm/src/lib.rs:283-296 | while a call is unanswered some call can go on without failing |
| `RecordAction.Database.RecordAction` | admin-orm/src/lib.rs:272-362 | the call itself, among any statements of others at four points and breaking anywhere: it fails iff the key stays held or the connection breaks at a statement it reaches; otherwise with no row of its key at its insert it answers its own identifier, with a row of its payload that row's, with another payload a conflict; an Ok answer names the one committed row of key and payload and its event |
| `RecordAction.Database.InsertRow` | admin-orm/src/lib.rs:279-306 | insert or skip, once no other call holds the key |
| `RecordAction.Database.SelectRow` | admin-orm/src/lib.rs:308-338 | finds the row of key and payload, or goes on to roll back |
| `RecordAction.Database.InsertEvent` | admin-orm/src/lib.rs:344-355 | the event joins the open transaction |
| `RecordAction.Database.CommitTransaction` | admin-orm/src/lib.rs:356-360 | row and event become visible together |
| `RecordAction.Database.Abort` | admin-orm/src/lib.rs:304-360 | an error changes nothing that was committed; an open transaction is left to the database, which may end it or let the statement on its way take effect |
| `Retry.PlannersAgree` | langs/rust/src/rpc_retry.rs:60-104 | on all 32-bit inputs the three planners return the same decision |
| `Retry.RustIsDart` | langs/rust/src/rpc_retry.rs:61-98 | checked 32-bit arithmetic never overflows and gives the integer result |
| `Retry.JsIsDart` | langs/typescript/src/rpc-retry.js:54-67 | double division and floor give the integer result for any rounding that is exact on integers |
| `Retry.ScriptIsDart` | langs/typescript/src/rpc-retry.js:13-67 | called with records of integers and booleans, in range or not, the JavaScript planner is the integer planner |
| `Retry.RetriesAreOnRecords` | langs/typescript/src/rpc-retry.js:13-53 | on anything else, non-integers and unknown members included, it answers invalid input |
| `Retry.CapRust` | langs/rust/src/rpc_retry.rs:91-93 | shift and product stay below 2^32 and the cap below 60001 |
| `Retry.RunStaysInBudget` | langs/dart/lib/rpc_retry.dart:46-70 | a host run makes at most `max_attempts` sends and its delays sum to less than the timeout |
| `Retry.DelayBounds` | langs/dart/lib/rpc_retry.dart:63-69 | a delay is at least the server minimum and at most that or the capped backoff |
| `RetryRules.DartIsRight` | langs/dart/lib/rpc_retry.dart:46-70 | a retry is planned iff the input is in range, the attempt is not cancelled, replay-safe and of a retryable code, attempts are left and the delay fits the time left; the delay is the larger of server minimum and jittered capped backoff; each reason holds exactly under its own condition, in this priority |
| `RetryRules.PlannersAreRight` | langs/rust/src/rpc_retry.rs:60-104 | and so for all three planners |
| `Metrics.PinnedMetricIsBounded` | scripts/admit-rate-limit-metric.mjs:85-137 | whatever the contract, a pinned metric admits only maps of one finite set fixed by the policy identifiers, no larger than the product of the vocabularies |
| `Metrics.PinnedProduct` | scripts/admit-rate-limit-metric.mjs:21-52 | that product is 472500 per policy identifier for decisions, 1134000 otherwise |
| `Metrics.BoundedIffTame` | scripts/admit-rate-limit-metric.mjs:100-136 | for any set of label names: over all contracts and metrics the admitted maps of these labels lie in one finite set iff every name is tame |
| `Metrics.AnyMetricIsBounded` | scripts/admit-rate-limit-metric.mjs:100-136 | with tame labels, what any metric admits lies in one set no larger than the product of the vocabularies |
| `Metrics.InheritedNamesWiden` | scripts/admit-rate-limit-metric.mjs:119-124 | under a label name that is not tame some trusted contract admits any value |
| `Metrics.ConstructorIsNotTame` | scripts/admit-rate-limit-metric.mjs:119-120 | an inherited name is not tame |
| `Metrics.AcceptedValue` | scripts/admit-rate-limit-metric.mjs:110-126 | an accepted label has a value of its pinned vocabulary unless it is read from an unpinned place |
| `Metrics.RequiredPresent` | scripts/admit-rate-limit-metric.mjs:127-133 | an admitted decision carries every required label |
| `MetricRules.AdmittedIffLawful` | scripts/admit-rate-limit-metric.mjs:54-137 | labels not read through inherited names are admitted as they are iff the contract keeps every fixed constraint, the identifiers are configured, each of at most twelve labels is allowed, not forbidden and carries one of its words, and a decision has its six labels; all names and words written out |
| `Email.NormalisersAgree` | langs/rust/src/lib.rs:100-166 | the four normalisers accept the same strings with the same output, which is an address of the grammar |
| `Email.RustIsNormal` | langs/rust/src/lib.rs:100-130 | the Rust form computes the lower-cased trimmed address or nothing |
| `Email.GoIsNormal` | langs/go/core.go:80-137 | the Go form does |
| `Email.ScriptIsNormal` | langs/typescript/src/index.js:8-23 | the TypeScript form does, and the Dart form with the same steps |
| `Email.LocalIsDotAtom` | langs/dart/lib/ores_lib_core.dart:71-79 | the dot checks accept exactly dot-atom-text of at most 64 characters |
| `Email.DomainIsDotted` | langs/go/core.go:107-110 | the domain checks accept exactly two or more valid labels |
| `Email.NormalIsFixed` | langs/rust/src/lib.rs:100-130 | normalising is idempotent |
| `EmailMeaning.NormalisersAreRight` | langs/rust/src/lib.rs:100-166 | each normaliser returns an address iff the value, without blanks around it and with small letters, is that address of the grammar; characters by code point |
| `Organizations.AuthorizedDirectoryOrganizations` | langs/go/core.go:187-201 | the pipeline returns the strictly ascending exact set, equal to the Rust result |
| `Organizations.RustIsExact` | langs/rust/src/lib.rs:204-217 | filters and ordered set return the strictly ascending exact set |
| `Organizations.CollectIs` | langs/rust/src/lib.rs:235-237 | collecting through an ordered set sorts and removes repetitions |
| `Organizations.FilterSlice` | langs/go/fp.go:32-43 | keeps exactly the accepted items in order; nil stays nil |
| `Organizations.MapSlice` | langs/go/fp.go:20-29 | maps item by item; nil stays nil |
| `Organizations.SetOf` | langs/go/fp.go:87-96 | the members of a slice; nil stays nil |
| `Organizations.SortedUniqueStrings` | langs/go/fp.go:100-108 | strictly ascending with the same members, whatever the order the set is walked in |
| `Organizations.GrantOrderDoesNotMatter` | langs/go/core.go:193-200 | repeating or reordering grants changes nothing |
| `Organizations.UngrantedRequestsDoNotMatter` | langs/go/core.go:176-185 | asking for more, ungranted organisations changes nothing |

## Left out

- Diagnostic messages: diagnostics carry code and path only, as fixed constants.
- Text layout of all printed artifacts: emitters produce trees; printing is modelled where names and separators matter.
- HeapData.SnapshotJson: own keys are taken as engines order and distinguish them; when values of both kinds are reachable, does not say which is met first.
- Prototype, descriptor and Proxy mechanics: boolean flags on the nodes of a graph, and one table of inherited names in `Metrics`.
- IrHoles.NormalizeGraph: thrown codes and paths of the schema-IR front end are not modelled; a throw is `None`.
- IrFixpoint.CompiledIsFixed: diagnostics and exceptions are both `None`; among the artifacts only the printed IR is compared.
- The schema-IR SQL, TypeScript, Rust and Dart emitters beyond column declarations: no DDL soundness is claimed for that compiler, which does not check foreign-key names.
- IrNames.CollisionFreeIff: SHA-256 is any function of the text.
- Backends.BackendsAgree: regular expression engines are character predicates, and texts are sequences of Unicode scalar values, so a lone surrogate, which no column holds, is not an instance.
- PostgreSQL beyond the catalog: collation, permissions, automatically named CHECK constraints, statement time-outs other than as failures.
- RecordAction.EveryRunIsSafe: fresh identifiers are drawn distinct, rows are never deleted, and the key has a unique index; the table definition is not part of this model.
- Connection set-up, role checks, URL parsing and reads of `admin-orm`.
- Organizations.SortedUniqueStrings: the library sort is a function on values instead of an in-place sort of the fresh slice.
- Email.NormalisersAgree: error classes differ between the languages and are not claimed; case folding is known on ASCII text only.
- Retry.ScriptIsDart: prototypes and accessors of the two records are left out; inputs are JSON data.
- Redaction lists, secrets, correlation ids, retry buckets, digest comparison, status mapping, the Python, Java and Swift ports, and the repository's own audit scripts: settled by reading one branch.
