/**
 * Reading untrusted object graphs, possibly cyclic or shared, as bounded JSON data: the
 * counting walk of the schema compiler and the budget-threading walk of the schema-IR compiler.
 */
module Snapshot {
  import opened Seqs
  import opened Json

  type Ref = nat
  datatype Number = Finite(n: real) | NegativeZero | NotFinite
  datatype Value = Nothing | Truth(b: bool) | Text(s: string) | Numeric(x: Number) | Executable | At(ref: Ref)

  /** Decimal keys without leading zeros, and all others. */
  datatype Key = Index(i: nat) | Named(s: string)
  /** An own property: `data` when it is not an accessor. */
  datatype Property = Property(key: Key, data: bool, enumerable: bool, value: Value)
  /** `plain` when the prototype is the ordinary one; own properties in own-key order, without an array's `length`. */
  datatype Thing = Thing(length: Option<nat>, plain: bool, symbols: bool, properties: seq<Property>)
  type Graph = map<Ref, Thing>

  /** What a walk yields: the unfolding of the graph from a value. */
  datatype Tree = Leaf(value: Json) | Items(items: seq<Tree>) | Members(keys: seq<string>, values: seq<Tree>)

  /** The limits of a walk, and whether array keys must be below the length. */
  datatype Limits = Limits(depth: nat, entries: nat, below: bool)

  const SNAPSHOT := Limits(16, 16384, true)
  const SNAPSHOT_NODES := 200000
  const IR := Limits(20, 10000, false)
  /** The same limits, for graphs whose arrays have no keys at or beyond their length. */
  const STRICT := Limits(20, 10000, true)
  const IR_NODES := 100000

  // ----- the reference definition: the unfolding, with no memory of where it has been -----

  predicate DataOnly(t: Thing) {
    t.plain && !t.symbols && forall p | p in t.properties :: p.data && p.enumerable
  }

  /** Only decimal keys, as many as the length says. */
  predicate ArrayKeys(t: Thing, below: bool) {
    t.length.Some? ==>
      && |t.properties| == t.length.value
      && (forall p | p in t.properties :: p.key.Index? && (!below || p.key.i < t.length.value))
  }

  predicate Readable(t: Thing, limits: Limits) {
    DataOnly(t) && ArrayKeys(t, limits.below) && (t.length.Some? ==> t.length.value <= limits.entries)
  }

  function PropertyName(k: Key): string {
    match k case Named(s) => s case Index(i) => Decimal(i)
  }

  function Decimal(i: nat): string {
    if i < 10 then ["0123456789"[i]] else Decimal(i / 10) + ["0123456789"[i % 10]]
  }

  function ValueOf(p: Property): Value { p.value }
  function TextOfKey(p: Property): string { PropertyName(p.key) }

  function Primitive(v: Value): Option<Json> {
    match v
    case Nothing => Some(Null)
    case Truth(b) => Some(Bool(b))
    case Text(s) => Some(Str(s))
    case Numeric(Finite(n)) => Some(Num(n))
    case Numeric(NegativeZero) => Some(Num(0.0))
    case Numeric(NotFinite) => None
    case Executable => None
    case At(_) => None
  }

  function Build(t: Thing, children: seq<Tree>): Tree {
    if t.length.Some? then Items(children) else Members(Map(TextOfKey, t.properties), children)
  }

  function Unfold(g: Graph, v: Value, depth: nat, limits: Limits): Option<Tree>
    decreases limits.depth + 1 - depth, 0
  {
    if depth > limits.depth then None
    else if v.At? then
      if v.ref !in g || !Readable(g[v.ref], limits) then None
      else
        var children := UnfoldAll(g, Map(ValueOf, g[v.ref].properties), depth, limits);
        if children.None? then None else Some(Build(g[v.ref], children.value))
    else if Primitive(v).Some? then Some(Leaf(Primitive(v).value))
    else None
  }

  function UnfoldAll(g: Graph, vs: seq<Value>, depth: nat, limits: Limits): Option<seq<Tree>>
    requires depth <= limits.depth
    decreases limits.depth + 1 - depth, 0, |vs|
  {
    if vs == [] then Some([])
    else
      var n := |vs| - 1;
      var (rest, last) := (UnfoldAll(g, vs[..n], depth, limits), Unfold(g, vs[n], depth + 1, limits));
      if rest.None? || last.None? then None else Some(rest.value + [last.value])
  }

  function Size(t: Tree): nat {
    match t
    case Leaf(_) => 1
    case Items(items) => 1 + SizeAll(items)
    case Members(_, values) => 1 + SizeAll(values)
  }

  function SizeAll(ts: seq<Tree>): nat {
    if ts == [] then 0 else SizeAll(ts[..|ts| - 1]) + Size(ts[|ts| - 1])
  }

  // ----- the unfolding of a cycle does not exist -----

  lemma {:induction false} UnfoldEach(g: Graph, vs: seq<Value>, depth: nat, limits: Limits)
    requires depth <= limits.depth
    ensures UnfoldAll(g, vs, depth, limits).Some? <==> forall i | 0 <= i < |vs| :: Unfold(g, vs[i], depth + 1, limits).Some?
    ensures UnfoldAll(g, vs, depth, limits).Some? ==>
              && |UnfoldAll(g, vs, depth, limits).value| == |vs|
              && forall i | 0 <= i < |vs| :: UnfoldAll(g, vs, depth, limits).value[i] == Unfold(g, vs[i], depth + 1, limits).value
  {
    if vs != [] {
      UnfoldEach(g, vs[..|vs| - 1], depth, limits);
    }
  }

  lemma {:induction false} SizeOfMember(ts: seq<Tree>, i: nat)
    requires i < |ts|
    ensures Size(ts[i]) <= SizeAll(ts)
  {
    if i < |ts| - 1 {
      SizeOfMember(ts[..|ts| - 1], i);
    }
  }

  /** How deep a value lies does not change what it unfolds to. */
  lemma {:induction false} DepthBlind(g: Graph, v: Value, d: nat, e: nat, limits: Limits)
    requires Unfold(g, v, d, limits).Some? && Unfold(g, v, e, limits).Some?
    ensures Unfold(g, v, d, limits) == Unfold(g, v, e, limits)
    decreases limits.depth + 1 - d, 1
  {
    if v.At? {
      DepthBlindAll(g, Map(ValueOf, g[v.ref].properties), d, e, limits);
    }
  }

  lemma {:induction false} DepthBlindAll(g: Graph, vs: seq<Value>, d: nat, e: nat, limits: Limits)
    requires d <= limits.depth && e <= limits.depth
    requires UnfoldAll(g, vs, d, limits).Some? && UnfoldAll(g, vs, e, limits).Some?
    ensures UnfoldAll(g, vs, d, limits) == UnfoldAll(g, vs, e, limits)
    decreases limits.depth + 1 - d, 0, |vs|
  {
    if vs != [] {
      DepthBlindAll(g, vs[..|vs| - 1], d, e, limits);
      DepthBlind(g, vs[|vs| - 1], d + 1, e + 1, limits);
    }
  }

  predicate Edge(g: Graph, from: Ref, to: Value) {
    from in g && to in Map(ValueOf, g[from].properties)
  }

  predicate Linked(g: Graph, path: seq<Ref>, i: nat) {
    i + 1 < |path| ==> Edge(g, path[i], At(path[i + 1]))
  }

  /** Each reference of the path holds the next one, and the last holds the value. */
  ghost predicate Path(g: Graph, path: seq<Ref>, v: Value) {
    && (forall i: nat :: Linked(g, path, i))
    && (path != [] ==> Edge(g, path[|path| - 1], v))
  }

  lemma ChildIsSmaller(g: Graph, u: Ref, v: Value, depth: nat, limits: Limits, top: Tree) returns (t: Tree)
    requires Edge(g, u, v) && Unfold(g, At(u), depth, limits) == Some(top)
    ensures Unfold(g, v, depth + 1, limits) == Some(t) && Size(t) < Size(top)
  {
    var vs := Map(ValueOf, g[u].properties);
    var i :| 0 <= i < |vs| && vs[i] == v;
    UnfoldEach(g, vs, depth, limits);
    t := UnfoldAll(g, vs, depth, limits).value[i];
    SizeOfMember(UnfoldAll(g, vs, depth, limits).value, i);
  }

  lemma {:induction false} DescendantIsSmaller(g: Graph, path: seq<Ref>, i: nat, v: Value, depth: nat, limits: Limits, top: Tree)
    returns (t: Tree)
    requires i < |path| && Path(g, path, v) && Unfold(g, At(path[i]), depth, limits) == Some(top)
    ensures Unfold(g, v, depth + |path| - i, limits) == Some(t) && Size(t) < Size(top)
    decreases |path| - i
  {
    assert Linked(g, path, i);
    t := ChildIsSmaller(g, path[i], Next(path, i, v), depth, limits, top);
    if i + 1 < |path| {
      var below := DescendantIsSmaller(g, path, i + 1, v, depth + 1, limits, t);
      t := below;
    }
  }

  /** The value after step `i` of a path to `v`. */
  function Next(path: seq<Ref>, i: nat, v: Value): Value {
    if i + 1 < |path| then At(path[i + 1]) else v
  }

  /** A value met again on the path to it has no unfolding: testing for ancestors rejects nothing else. */
  lemma CycleHasNoUnfolding(g: Graph, path: seq<Ref>, r: Ref, depth: nat, limits: Limits)
    requires Path(g, path, At(r)) && r in path
    ensures Unfold(g, At(r), depth, limits).None?
  {
    var unfolding := Unfold(g, At(r), depth, limits);
    if unfolding.Some? {
      var i :| 0 <= i < |path| && path[i] == r;
      var t := DescendantIsSmaller(g, path, i, At(r), depth, limits, unfolding.value);
      DepthBlind(g, At(r), depth, depth + |path| - i, limits);
    }
  }

  lemma PathGrows(g: Graph, path: seq<Ref>, r: Ref, v: Value)
    requires Path(g, path, At(r)) && Edge(g, r, v)
    ensures Path(g, path + [r], v)
  {
    var longer := path + [r];
    forall i: nat ensures Linked(g, longer, i) {
      assert Linked(g, path, i);
    }
  }

  // ----- the walk of the schema compiler -----

  lemma {:induction false} SizeOfPrefix(ts: seq<Tree>, i: nat)
    requires i <= |ts|
    ensures SizeAll(ts[..i]) <= SizeAll(ts)
    decreases |ts| - i
  {
    if i < |ts| {
      assert ts[..i + 1][..i] == ts[..i];
      SizeOfPrefix(ts, i + 1);
    } else {
      assert ts[..i] == ts;
    }
  }

  /** The walk accepts a value when it unfolds and the nodes counted so far leave room for it. */
  predicate Fits(t: Option<Tree>, nodes: nat) {
    t.Some? && nodes + Size(t.value) <= SNAPSHOT_NODES
  }

  predicate AllFit(ts: Option<seq<Tree>>, nodes: nat) {
    ts.Some? && nodes + SizeAll(ts.value) <= SNAPSHOT_NODES
  }

  // ----- which error is thrown -----

  /** The value at a position: the way from the root by the numbers of own properties. */
  function Follow(g: Graph, root: Value, pos: seq<nat>): Option<Value> {
    if pos == [] then Some(root)
    else
      var (above, i) := (Follow(g, root, pos[..|pos| - 1]), pos[|pos| - 1]);
      if above.Some? && above.value.At? && above.value.ref in g && i < |g[above.value.ref].properties|
      then Some(g[above.value.ref].properties[i].value) else None
  }

  lemma FollowChild(g: Graph, root: Value, pos: seq<nat>, r: Ref, i: nat)
    requires Follow(g, root, pos) == Some(At(r)) && r in g && i < |g[r].properties|
    ensures Follow(g, root, pos + [i]) == Some(g[r].properties[i].value)
  {
    assert (pos + [i])[..|pos|] == pos;
  }

  ghost predicate Reaches(g: Graph, root: Value, path: seq<Ref>, v: Value) {
    Path(g, path, v) && if path == [] then v == root else root == At(path[0])
  }

  lemma ReachesChild(g: Graph, root: Value, path: seq<Ref>, r: Ref, v: Value)
    requires Reaches(g, root, path, At(r)) && Edge(g, r, v)
    ensures Reaches(g, root, path + [r], v)
  {
    PathGrows(g, path, r, v);
  }

  /** Too deep, or a plain array that is too long. */
  predicate OverLimit(g: Graph, path: seq<Ref>, v: Value) {
    |path| > 16 || (v.At? && v.ref in g && g[v.ref].length.Some? && g[v.ref].length.value > 16384)
  }

  /** No JSON data: not a value of JSON, on the path to itself, or not a plain container of data. */
  predicate Unfit(g: Graph, path: seq<Ref>, v: Value) {
    if v.At? then v.ref in path || v.ref !in g || !DataOnly(g[v.ref]) || !ArrayKeys(g[v.ref], true)
    else v.Executable? || v == Numeric(NotFinite)
  }

  /** Distinct positions that hold values. */
  ghost predicate Positions(g: Graph, root: Value, met: set<seq<nat>>) {
    forall q | q in met :: Follow(g, root, q).Some?
  }

  ghost predicate SomeOverLimit(g: Graph, root: Value) { exists p, w :: Reaches(g, root, p, w) && OverLimit(g, p, w) }
  ghost predicate SomeUnfit(g: Graph, root: Value) { exists p, w :: Reaches(g, root, p, w) && Unfit(g, p, w) }
  ghost predicate TooMany(g: Graph, root: Value) { exists met :: Positions(g, root, met) && |met| > SNAPSHOT_NODES }

  /** The error about a limit means a limit, the other one a value that is no JSON data. */
  ghost predicate Blamed(g: Graph, root: Value, limited: bool) {
    if limited then SomeOverLimit(g, root) || TooMany(g, root) else SomeUnfit(g, root)
  }

  /** Nothing at or below this position has been met. */
  ghost predicate Unmet(met: set<seq<nat>>, pos: seq<nat>) {
    forall q | q in met :: !(pos <= q)
  }

  /** Below this position only children before the one given have been met. */
  ghost predicate MetBefore(met: set<seq<nat>>, pos: seq<nat>, i: nat) {
    forall q | q in met && pos <= q :: q == pos || q[|pos|] < i
  }

  /** What was met since lies at or below this position. */
  ghost predicate Grows(was: set<seq<nat>>, met: set<seq<nat>>, pos: seq<nat>) {
    was <= met && forall q | q in met && q !in was :: pos <= q
  }

  lemma NextUnmet(met: set<seq<nat>>, pos: seq<nat>, i: nat)
    requires MetBefore(met, pos, i)
    ensures Unmet(met, pos + [i])
  {
    forall q | q in met ensures !(pos + [i] <= q) {
      ChildOf(pos, i, q);
    }
  }

  lemma ChildOf(pos: seq<nat>, i: nat, q: seq<nat>)
    ensures pos + [i] <= q ==> pos <= q && |q| > |pos| && q[|pos|] == i
  {
    if pos + [i] <= q {
      assert q[..|pos| + 1] == pos + [i];
      assert q[..|pos|] == pos;
    }
  }

  lemma MetGrows(was: set<seq<nat>>, met: set<seq<nat>>, pos: seq<nat>, i: nat)
    requires MetBefore(was, pos, i) && Grows(was, met, pos + [i])
    ensures MetBefore(met, pos, i + 1) && Grows(was, met, pos)
  {
    forall q | q in met && q !in was ensures pos <= q && |q| > |pos| && q[|pos|] == i {
      ChildOf(pos, i, q);
    }
  }

  lemma GrowsOn(a: set<seq<nat>>, b: set<seq<nat>>, c: set<seq<nat>>, pos: seq<nat>)
    requires Grows(a, b, pos) && Grows(b, c, pos)
    ensures Grows(a, c, pos)
  {
  }

  /** Meeting one more position. */
  lemma MeetOne(g: Graph, root: Value, met: set<seq<nat>>, pos: seq<nat>)
    requires Positions(g, root, met) && Unmet(met, pos) && Follow(g, root, pos).Some?
    ensures Positions(g, root, met + {pos}) && |met + {pos}| == |met| + 1
    ensures MetBefore(met + {pos}, pos, 0) && Grows(met, met + {pos}, pos)
  {
    assert pos <= pos;
  }

  class Walk {
    const graph: Graph
    ghost const root: Value
    /** Every value visited so far. */
    var nodes: nat
    /** The references being visited: the path from the root. */
    var ancestors: set<Ref>
    /** Whether the last error thrown was about a limit. */
    var limited: bool
    /** The positions of the values visited so far. */
    ghost var met: set<seq<nat>>

    ghost predicate Counted()
      reads this
    {
      |met| == nodes && Positions(graph, root, met)
    }

    constructor (g: Graph, ghost input: Value)
      ensures graph == g && root == input && nodes == 0 && ancestors == {} && met == {} && Counted()
    {
      graph := g;
      root := input;
      nodes, ancestors, limited := 0, {}, false;
      met := {};
    }

    /** Counts a value met at a position. */
    method Meet(ghost pos: seq<nat>)
      requires Counted() && Unmet(met, pos) && Follow(graph, root, pos).Some?
      modifies this`nodes, this`met
      ensures Counted() && nodes == old(nodes) + 1 && MetBefore(met, pos, 0) && Grows(old(met), met, pos)
    {
      MeetOne(graph, root, met, pos);
      nodes := nodes + 1;
      met := met + {pos};
    }

    /** `None` stands for a thrown input error, of the kind that `limited` tells. */
    method Visit(v: Value, depth: nat, ghost path: seq<Ref>, ghost pos: seq<nat>) returns (result: Option<Tree>)
      requires ancestors == ToSet(path) && Reaches(graph, root, path, v) && |path| == depth
      requires Counted() && Unmet(met, pos) && Follow(graph, root, pos) == Some(v)
      modifies this
      ensures result == if Fits(Unfold(graph, v, depth, SNAPSHOT), old(nodes)) then Unfold(graph, v, depth, SNAPSHOT) else None
      ensures result.Some? ==> nodes == old(nodes) + Size(result.value) && ancestors == old(ancestors)
      ensures result.None? ==> Blamed(graph, root, limited)
      ensures Counted() && Grows(old(met), met, pos)
      decreases 17 - depth, 1
    {
      Meet(pos);
      result, limited := None, false;
      if depth > 16 || nodes > SNAPSHOT_NODES {
        limited := true;
        assert depth > 16 ==> OverLimit(graph, path, v);
        return;
      }
      if Primitive(v).Some? {
        result := Some(Leaf(Primitive(v).value));
        return;
      }
      if !v.At? {
        assert Unfit(graph, path, v);
        return;
      }
      if v.ref in ancestors {
        CycleHasNoUnfolding(graph, path, v.ref, depth, SNAPSHOT);
        assert Unfit(graph, path, v);
        return;
      }
      if v.ref !in graph || !graph[v.ref].plain || graph[v.ref].symbols {
        assert Unfit(graph, path, v);
        return;
      }
      result := VisitThing(v.ref, depth, path, pos);
    }

    method VisitThing(ref: Ref, depth: nat, ghost path: seq<Ref>, ghost pos: seq<nat>) returns (result: Option<Tree>)
      requires depth <= 16 && nodes <= SNAPSHOT_NODES && ref in graph && graph[ref].plain && !graph[ref].symbols && ref !in ancestors
      requires ancestors == ToSet(path) && Reaches(graph, root, path, At(ref)) && |path| == depth
      requires Counted() && MetBefore(met, pos, 0) && Follow(graph, root, pos) == Some(At(ref))
      modifies this
      ensures result == if Paying(Unfold(graph, At(ref), depth, SNAPSHOT), old(nodes)) then Unfold(graph, At(ref), depth, SNAPSHOT) else None
      ensures result.Some? ==> nodes + 1 == old(nodes) + Size(result.value) && ancestors == old(ancestors)
      ensures result.None? ==> Blamed(graph, root, limited)
      ensures Counted() && Grows(old(met), met, pos)
      decreases 17 - depth, 0, 1
    {
      var thing := graph[ref];
      result, limited := None, false;
      if thing.length.Some? && thing.length.value > 16384 {
        limited := true;
        assert OverLimit(graph, path, At(ref));
        return;
      }
      if !DataOnly(thing) || !ArrayKeys(thing, true) {
        assert Unfit(graph, path, At(ref));
        return;
      }
      ancestors := ancestors + {ref};
      assert ToSet(path + [ref]) == ancestors;
      var children := VisitAll(thing, ref, depth, path, pos);
      if children.Some? {
        ancestors := ancestors - {ref};
        result := Some(Build(thing, children.value));
      }
    }

    method VisitAll(thing: Thing, ref: Ref, depth: nat, ghost path: seq<Ref>, ghost pos: seq<nat>) returns (result: Option<seq<Tree>>)
      requires depth <= 16 && nodes <= SNAPSHOT_NODES && ref in graph && graph[ref] == thing
      requires ancestors == ToSet(path + [ref]) && Reaches(graph, root, path, At(ref)) && |path| == depth
      requires Counted() && MetBefore(met, pos, 0) && Follow(graph, root, pos) == Some(At(ref))
      modifies this
      ensures var unfolding := UnfoldAll(graph, Map(ValueOf, thing.properties), depth, SNAPSHOT);
              result == if AllFit(unfolding, old(nodes)) then unfolding else None
      ensures result.Some? ==> nodes == old(nodes) + SizeAll(result.value) && ancestors == old(ancestors)
      ensures result.None? ==> Blamed(graph, root, limited)
      ensures Counted() && Grows(old(met), met, pos)
      decreases 17 - depth, 0, 0
    {
      var values := Map(ValueOf, thing.properties);
      var trees: seq<Tree> := [];
      for i := 0 to |values|
        invariant ancestors == old(ancestors) && nodes == old(nodes) + SizeAll(trees) <= SNAPSHOT_NODES
        invariant Unfolded(graph, values[..i], depth, trees)
        invariant Counted() && MetBefore(met, pos, i) && Grows(old(met), met, pos)
      {
        ghost var was := met;
        assert Edge(graph, ref, values[i]);
        ReachesChild(graph, root, path, ref, values[i]);
        FollowChild(graph, root, pos, ref, i);
        NextUnmet(met, pos, i);
        var child := Visit(values[i], depth + 1, path + [ref], pos + [i]);
        MetGrows(was, met, pos, i);
        GrowsOn(old(met), was, met, pos);
        if child.None? {
          NoRoom(graph, values, depth, trees, i, old(nodes));
          return None;
        }
        OneMore(graph, values, depth, trees, i, child.value);
        trees := trees + [child.value];
      }
      assert values[..|values|] == values;
      result := Some(trees);
    }
  }

  /** Fits, the thing itself having been counted. */
  predicate Paying(t: Option<Tree>, nodes: nat) {
    t.Some? && nodes + Size(t.value) <= SNAPSHOT_NODES + 1
  }

  ghost predicate Unfolded(g: Graph, vs: seq<Value>, depth: nat, trees: seq<Tree>)
    requires depth <= 16
  {
    UnfoldAll(g, vs, depth, SNAPSHOT) == Some(trees)
  }

  lemma OneMore(g: Graph, vs: seq<Value>, depth: nat, trees: seq<Tree>, i: nat, tree: Tree)
    requires depth <= 16 && i < |vs| && Unfolded(g, vs[..i], depth, trees)
    requires Unfold(g, vs[i], depth + 1, SNAPSHOT) == Some(tree)
    ensures Unfolded(g, vs[..i + 1], depth, trees + [tree])
    ensures SizeAll(trees + [tree]) == SizeAll(trees) + Size(tree)
  {
    assert vs[..i + 1][..i] == vs[..i];
    assert (trees + [tree])[..|trees|] == trees;
  }

  /** A child that does not fit leaves no room for the whole. */
  lemma NoRoom(g: Graph, vs: seq<Value>, depth: nat, trees: seq<Tree>, i: nat, nodes: nat)
    requires depth <= 16 && i < |vs| && Unfolded(g, vs[..i], depth, trees)
    requires !Fits(Unfold(g, vs[i], depth + 1, SNAPSHOT), nodes + SizeAll(trees))
    ensures !AllFit(UnfoldAll(g, vs, depth, SNAPSHOT), nodes)
  {
    var unfolding := UnfoldAll(g, vs, depth, SNAPSHOT);
    if unfolding.Some? {
      PrefixUnfolds(g, vs, depth, i, unfolding.value);
      PrefixUnfolds(g, vs, depth, i + 1, unfolding.value);
      OneMore(g, vs, depth, trees, i, unfolding.value[i]);
      SizeOfPrefix(unfolding.value, i + 1);
    }
  }

  lemma PrefixUnfolds(g: Graph, vs: seq<Value>, depth: nat, i: nat, all: seq<Tree>)
    requires depth <= 16 && i <= |vs| && UnfoldAll(g, vs, depth, SNAPSHOT) == Some(all)
    ensures |all| == |vs| && Unfolded(g, vs[..i], depth, all[..i])
    ensures i < |vs| ==> Unfold(g, vs[i], depth + 1, SNAPSHOT) == Some(all[i])
  {
    UnfoldEach(g, vs, depth, SNAPSHOT);
    UnfoldEach(g, vs[..i], depth, SNAPSHOT);
    assert UnfoldAll(g, vs[..i], depth, SNAPSHOT).value == all[..i];
  }

  // ----- JSON data from a tree -----

  function Object(keys: seq<string>, values: seq<Json>): map<string, Json> {
    if keys == [] || values == [] then map[]
    else Object(keys[..|keys| - 1], values[..|values| - 1])[keys[|keys| - 1] := values[|values| - 1]]
  }

  function ToJson(t: Tree): Json {
    match t
    case Leaf(j) => j
    case Items(items) => Arr(ToJsonAll(items))
    case Members(keys, values) => Obj(Object(keys, ToJsonAll(values)))
  }

  function ToJsonAll(ts: seq<Tree>): (r: seq<Json>)
    ensures |r| == |ts|
  {
    if ts == [] then [] else ToJsonAll(ts[..|ts| - 1]) + [ToJson(ts[|ts| - 1])]
  }

  lemma {:induction false} ToJsonEach(ts: seq<Tree>)
    ensures |ToJsonAll(ts)| == |ts| && forall i | 0 <= i < |ts| :: ToJsonAll(ts)[i] == ToJson(ts[i])
  {
    if ts != [] {
      ToJsonEach(ts[..|ts| - 1]);
    }
  }

  // ----- arrays without holes -----

  const ARRAY_INDEX_LIMIT := 0xFFFF_FFFF

  /** Own keys differ as texts, and array indices come first in ascending order; `length` is a 32-bit number. */
  predicate OwnKeys(t: Thing) {
    && (t.length.Some? ==> t.length.value <= ARRAY_INDEX_LIMIT)
    && (forall i, j | 0 <= i < j < |t.properties| ::
         var (a, b) := (t.properties[i].key, t.properties[j].key);
         PropertyName(a) != PropertyName(b) && (t.length.Some? && a.Index? && b.Index? && a.i < ARRAY_INDEX_LIMIT && b.i < ARRAY_INDEX_LIMIT ==> a.i < b.i))
  }

  /** Own properties as engines order and distinguish them. */
  ghost predicate Heap(g: Graph) {
    forall r | r in g :: OwnKeys(g[r])
  }

  predicate HasIndex(t: Thing, i: nat) {
    exists p | p in t.properties :: p.key == Index(i)
  }

  /** Every index below the length is an own property. */
  predicate Dense(t: Thing)
    requires t.length.Some?
  {
    forall i: nat | i < t.length.value :: HasIndex(t, i)
  }

  lemma {:induction false} AscendingFromBelow(t: Thing, i: nat)
    requires t.length.Some? && OwnKeys(t) && ArrayKeys(t, true) && i < |t.properties|
    ensures t.properties[i].key.i >= i
  {
    assert t.properties[i] in t.properties;
    if i > 0 {
      AscendingFromBelow(t, i - 1);
      assert t.properties[i - 1] in t.properties;
    }
  }

  lemma {:induction false} AscendingFromAbove(t: Thing, i: nat)
    requires t.length.Some? && OwnKeys(t) && ArrayKeys(t, true) && i < |t.properties|
    ensures t.properties[i].key.i <= i
    decreases |t.properties| - i
  {
    assert t.properties[i] in t.properties;
    if i < |t.properties| - 1 {
      AscendingFromAbove(t, i + 1);
      assert t.properties[i + 1] in t.properties;
    }
  }

  /** In an array the snapshot reads, own property `i` is item `i`: no holes and no extra properties. */
  lemma ItemsInOrder(t: Thing, i: nat)
    requires t.length.Some? && OwnKeys(t) && ArrayKeys(t, true) && i < t.length.value
    ensures t.properties[i].key == Index(i)
  {
    AscendingFromBelow(t, i);
    AscendingFromAbove(t, i);
    assert t.properties[i] in t.properties;
  }

  function KeyOf(p: Property): Key { p.key }

  function Indices(n: nat): seq<Key> { seq(n, i requires i >= 0 => Index(i)) }

  /**
   * The schema-IR walk only counts decimal keys, so it accepts an array with a hole exactly
   * when some key lies at or beyond the length.
   */
  lemma DenseIffBelow(t: Thing)
    requires t.length.Some? && OwnKeys(t) && ArrayKeys(t, false)
    ensures Dense(t) <==> ArrayKeys(t, true)
  {
    var n := t.length.value;
    if ArrayKeys(t, true) {
      forall i: nat | i < n ensures HasIndex(t, i) {
        ItemsInOrder(t, i);
        assert t.properties[i] in t.properties;
      }
    }
    if Dense(t) {
      var (keys, wanted) := (Map(KeyOf, t.properties), Indices(n));
      SetSize(keys);
      SetSize(wanted);
      forall k | k in wanted ensures k in keys {
        assert HasIndex(t, k.i);
        var p :| p in t.properties && p.key == k;
        MapIn(KeyOf, t.properties, p);
      }
      assert ToSet(wanted) <= ToSet(keys);
      SubsetOfSameSize(ToSet(wanted), ToSet(keys));
      forall p | p in t.properties ensures p.key.i < n {
        MapIn(KeyOf, t.properties, p);
        assert p.key in ToSet(wanted);
      }
    }
  }

  /** One element long, its only element missing, and yet counted as complete. */
  lemma HoleAccepted()
    ensures var t := Thing(Some(1), true, false, [Property(Index(ARRAY_INDEX_LIMIT), true, true, Nothing)]);
            OwnKeys(t) && !Dense(t) && JsonValue(map[0 := t], At(0), {}, 0, IR_NODES) == Some(IR_NODES - 2)
  {
    var p := Property(Index(ARRAY_INDEX_LIMIT), true, true, Nothing);
    var t := Thing(Some(1), true, false, [p]);
    var g: Graph := map[0 := t];
    assert !HasIndex(t, 0);
    assert t.properties[..0] == [];
    assert JsonValue(g, Nothing, {0}, 1, IR_NODES - 1) == Some(IR_NODES - 2);
    assert Fold(g, t, [], {0}, 0, IR_NODES - 1) == Some(IR_NODES - 1);
    assert Fold(g, t, t.properties, {0}, 0, IR_NODES - 1) == Some(IR_NODES - 2);
    assert {} + {0} == {0};
  }

  // ----- the walk of the schema-IR compiler -----

  /** The budget left after reading a value, or `None` for a thrown validation error. */
  function JsonValue(g: Graph, v: Value, ancestors: set<Ref>, depth: nat, budget: int): Option<int>
    decreases 21 - depth, 0
  {
    var remaining := budget - 1;
    if depth > 20 || remaining < 0 then None
    else if Primitive(v).Some? then Some(remaining)
    else if !v.At? || v.ref !in g || !g[v.ref].plain || v.ref in ancestors then None
    else
      var t := g[v.ref];
      if t.length.Some? && t.length.value > 10000 then None
      else
        var left := Fold(g, t, t.properties, ancestors + {v.ref}, depth, remaining);
        if left.None? || t.symbols || (t.length.Some? && |t.properties| != t.length.value) then None else left
  }

  /** Each property starts from the budget its previous sibling left. */
  function Fold(g: Graph, t: Thing, ps: seq<Property>, ancestors: set<Ref>, depth: nat, budget: int): Option<int>
    requires depth <= 20
    decreases 21 - depth, 0, |ps|
  {
    if ps == [] then Some(budget)
    else
      var (rest, p) := (ps[..|ps| - 1], ps[|ps| - 1]);
      var left := Fold(g, t, rest, ancestors, depth, budget);
      if left.None? || !p.data || !p.enumerable || (t.length.Some? && !p.key.Index?) then None
      else JsonValue(g, p.value, ancestors, depth + 1, left.value)
  }

  /** What is left of a budget when a tree of this size is paid from it. */
  function Paid(t: Option<Tree>, budget: int): Option<int> {
    if t.Some? && Size(t.value) <= budget then Some(budget - Size(t.value)) else None
  }

  function PaidAll(ts: Option<seq<Tree>>, budget: int): Option<int> {
    if ts.Some? && SizeAll(ts.value) <= budget then Some(budget - SizeAll(ts.value)) else None
  }

  predicate PropertiesOk(t: Thing, ps: seq<Property>) {
    forall p | p in ps :: p.data && p.enumerable && (t.length.Some? ==> p.key.Index?)
  }

  /** The threaded budget is a count: what is returned is the incoming budget less the nodes of the unfolding. */
  lemma {:induction false} BudgetIsCount(g: Graph, path: seq<Ref>, v: Value, ancestors: set<Ref>, depth: nat, budget: int)
    requires ancestors == ToSet(path) && Path(g, path, v)
    ensures JsonValue(g, v, ancestors, depth, budget) == Paid(Unfold(g, v, depth, IR), budget)
    decreases 21 - depth, 1
  {
    if v.At? && depth <= 20 && v.ref in g && budget >= 1 {
      if v.ref in ancestors {
        CycleHasNoUnfolding(g, path, v.ref, depth, IR);
      } else {
        var t := g[v.ref];
        ChildrenHaveEdges(g, v.ref);
        assert ToSet(path + [v.ref]) == ancestors + {v.ref};
        FoldIsCount(g, t, t.properties, path, v.ref, ancestors + {v.ref}, depth, budget - 1);
        ThingPaid(g, v.ref, depth, budget);
      }
    }
  }

  lemma ChildrenHaveEdges(g: Graph, r: Ref)
    requires r in g
    ensures forall p | p in g[r].properties :: Edge(g, r, p.value)
  {
    forall p | p in g[r].properties ensures Edge(g, r, p.value) {
      MapIn(ValueOf, g[r].properties, p);
    }
  }

  /** An object costs one node more than its properties. */
  lemma ThingPaid(g: Graph, r: Ref, depth: nat, budget: int)
    requires r in g && depth <= 20
    ensures Paid(Unfold(g, At(r), depth, IR), budget) ==
              if Readable(g[r], IR) then PaidAll(UnfoldAll(g, Map(ValueOf, g[r].properties), depth, IR), budget - 1) else None
  {
  }

  lemma {:induction false} FoldIsCount(
    g: Graph, t: Thing, ps: seq<Property>, path: seq<Ref>, r: Ref, ancestors: set<Ref>, depth: nat, budget: int)
    requires depth <= 20 && budget >= 0 && Path(g, path, At(r)) && ancestors == ToSet(path + [r])
    requires forall p | p in ps :: Edge(g, r, p.value)
    ensures Fold(g, t, ps, ancestors, depth, budget) ==
              if PropertiesOk(t, ps) then PaidAll(UnfoldAll(g, Map(ValueOf, ps), depth, IR), budget) else None
    decreases 21 - depth, 0, |ps|
  {
    if ps != [] {
      var (rest, p) := (ps[..|ps| - 1], ps[|ps| - 1]);
      assert ps == rest + [p] && p in ps;
      FoldIsCount(g, t, rest, path, r, ancestors, depth, budget);
      PathGrows(g, path, r, p.value);
      var left := Fold(g, t, rest, ancestors, depth, budget);
      if left.Some? {
        BudgetIsCount(g, path + [r], p.value, ancestors, depth + 1, left.value);
      }
      FoldGrows(g, t, rest, p, ancestors, depth, budget);
    }
  }

  lemma UnfoldSnoc(g: Graph, vs: seq<Value>, v: Value, depth: nat, limits: Limits)
    requires depth <= limits.depth
    ensures var (rest, last) := (UnfoldAll(g, vs, depth, limits), Unfold(g, v, depth + 1, limits));
            UnfoldAll(g, vs + [v], depth, limits) == if rest.None? || last.None? then None else Some(rest.value + [last.value])
  {
    assert (vs + [v])[..|vs|] == vs;
  }

  /** One more property: what the fold and the unfolding of the rest agree on carries over. */
  lemma FoldGrows(g: Graph, t: Thing, rest: seq<Property>, p: Property, ancestors: set<Ref>, depth: nat, budget: int)
    requires depth <= 20 && budget >= 0
    requires Fold(g, t, rest, ancestors, depth, budget) ==
               if PropertiesOk(t, rest) then PaidAll(UnfoldAll(g, Map(ValueOf, rest), depth, IR), budget) else None
    requires Fold(g, t, rest, ancestors, depth, budget).Some? ==>
               var left := Fold(g, t, rest, ancestors, depth, budget).value;
               JsonValue(g, p.value, ancestors, depth + 1, left) == Paid(Unfold(g, p.value, depth + 1, IR), left)
    ensures Fold(g, t, rest + [p], ancestors, depth, budget) ==
              if PropertiesOk(t, rest + [p]) then PaidAll(UnfoldAll(g, Map(ValueOf, rest + [p]), depth, IR), budget) else None
  {
    FoldSnoc(g, t, rest, p, ancestors, depth, budget);
    PropertiesSnoc(t, rest, p);
    MapAppend(ValueOf, rest, [p]);
    UnfoldSnoc(g, Map(ValueOf, rest), p.value, depth, IR);
    assert Map(ValueOf, rest + [p]) == Map(ValueOf, rest) + [p.value];
    AllGrows(UnfoldAll(g, Map(ValueOf, rest), depth, IR), Unfold(g, p.value, depth + 1, IR), budget);
  }

  lemma FoldSnoc(g: Graph, t: Thing, rest: seq<Property>, p: Property, ancestors: set<Ref>, depth: nat, budget: int)
    requires depth <= 20
    ensures Fold(g, t, rest + [p], ancestors, depth, budget) ==
              var left := Fold(g, t, rest, ancestors, depth, budget);
              if left.None? || !PropertiesOk(t, [p]) then None else JsonValue(g, p.value, ancestors, depth + 1, left.value)
  {
    assert (rest + [p])[..|rest|] == rest;
    assert PropertiesOk(t, [p]) <==> p.data && p.enumerable && (t.length.Some? ==> p.key.Index?) by {
      assert [p][0] in [p];
    }
  }

  lemma PropertiesSnoc(t: Thing, rest: seq<Property>, p: Property)
    ensures PropertiesOk(t, rest + [p]) <==> PropertiesOk(t, rest) && PropertiesOk(t, [p])
  {
    assert [p][0] in [p] && p in rest + [p];
    forall x | x in rest ensures x in rest + [p] {}
  }

  /** Paying for the rest and then for one more is paying for all. */
  lemma AllGrows(rest: Option<seq<Tree>>, last: Option<Tree>, budget: int)
    requires budget >= 0
    ensures rest.Some? && last.Some? ==> SizeAll(rest.value + [last.value]) == SizeAll(rest.value) + Size(last.value)
    ensures PaidAll(rest, budget).Some? ==>
              Paid(last, PaidAll(rest, budget).value) ==
              PaidAll(if last.Some? then Some(rest.value + [last.value]) else None, budget)
  {
    if rest.Some? && last.Some? {
      assert (rest.value + [last.value])[..|rest.value|] == rest.value;
    }
  }
}
