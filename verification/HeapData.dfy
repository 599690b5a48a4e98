/** Which JSON data a heap value stands for, and that reading it returns just that data. */
module HeapData {
  import opened Seqs
  import opened Json
  import opened Snapshot
  import opened Nodes

  // ----- the relation, by cases on the data -----

  /** An ordinary object or array that holds nothing but enumerable data under text keys. */
  predicate Container(g: Graph, v: Value) {
    v.At? && v.ref in g && g[v.ref].plain && !g[v.ref].symbols && forall p | p in g[v.ref].properties :: p.data && p.enumerable
  }

  predicate HasName(t: Thing, k: string) { exists p | p in t.properties :: PropertyName(p.key) == k }

  /** A leaf is itself, but that no text tells -0 from 0; arrays correspond item by item, objects member by member. */
  ghost predicate Stands(g: Graph, v: Value, j: Json)
    decreases j
  {
    match j
    case Null => v == Nothing
    case Bool(b) => v == Truth(b)
    case Str(s) => v == Text(s)
    case Num(n) => v == Numeric(Finite(n)) || (n == 0.0 && v == Numeric(NegativeZero))
    case Arr(items) =>
      && Container(g, v) && g[v.ref].length == Some(|items|)
      && (forall i: nat | i < |items| :: HasIndex(g[v.ref], i))
      && (forall p | p in g[v.ref].properties :: p.key.Index? && p.key.i < |items| && Stands(g, p.value, items[p.key.i]))
    case Obj(members) =>
      && Container(g, v) && g[v.ref].length == None
      && (forall k | k in members :: HasName(g[v.ref], k))
      && (forall p | p in g[v.ref].properties :: PropertyName(p.key) in members && Stands(g, p.value, members[PropertyName(p.key)]))
  }

  /** Nested at most so deep, and no array longer than allowed. */
  ghost predicate Within(j: Json, room: nat, entries: nat)
    decreases j
  {
    match j
    case Arr(items) => |items| <= entries && forall x | x in items :: room > 0 && Within(x, room - 1, entries)
    case Obj(members) => forall k | k in members :: room > 0 && Within(members[k], room - 1, entries)
    case _ => true
  }

  // ----- objects, member by member -----

  lemma {:induction false} ObjectAt(keys: seq<string>, js: seq<Json>, i: nat)
    requires |keys| == |js| && NoDup(keys) && i < |keys|
    ensures keys[i] in Object(keys, js) && Object(keys, js)[keys[i]] == js[i]
  {
    var n := |keys| - 1;
    if i < n {
      ObjectAt(keys[..n], js[..n], i);
    }
  }

  lemma ObjectIs(keys: seq<string>, js: seq<Json>, members: map<string, Json>)
    requires |keys| == |js| && NoDup(keys) && ToSet(keys) == members.Keys
    requires forall i | 0 <= i < |keys| :: members[keys[i]] == js[i]
    ensures Object(keys, js) == members
  {
    ObjectKeys(keys, js);
    forall k | k in members ensures Object(keys, js)[k] == members[k] {
      var i :| 0 <= i < |keys| && keys[i] == k;
      ObjectAt(keys, js, i);
    }
  }

  // ----- what a value unfolds to is what it stands for -----

  /** The values below a reference, and what each of them unfolds to. */
  ghost predicate Child(g: Graph, r: Ref, depth: nat, limits: Limits, js: seq<Json>, i: nat)
    requires r in g && depth <= limits.depth
  {
    i < |js| == |g[r].properties| ==>
      var child := Unfold(g, g[r].properties[i].value, depth + 1, limits);
      child.Some? && ToJson(child.value) == js[i]
  }

  lemma Children(g: Graph, r: Ref, depth: nat, limits: Limits) returns (js: seq<Json>)
    requires depth <= limits.depth && r in g && Unfold(g, At(r), depth, limits).Some?
    ensures |js| == |g[r].properties| && forall i: nat | i < |js| :: Child(g, r, depth, limits, js, i)
    ensures ToJson(Unfold(g, At(r), depth, limits).value) ==
              if g[r].length.Some? then Arr(js) else Obj(Object(Map(TextOfKey, g[r].properties), js))
  {
    var vs := Map(ValueOf, g[r].properties);
    UnfoldEach(g, vs, depth, limits);
    var children := UnfoldAll(g, vs, depth, limits).value;
    ToJsonEach(children);
    js := ToJsonAll(children);
    forall i: nat | i < |js| ensures Child(g, r, depth, limits, js, i) {
      assert vs[i] == g[r].properties[i].value;
    }
  }

  /** Own property `i` of an array is item `i`, and a member is found under its name. */
  lemma ItemStands(g: Graph, r: Ref, js: seq<Json>)
    requires Heap(g) && r in g && Readable(g[r], Limits(0, |js|, true)) && g[r].length == Some(|js|)
    requires forall i: nat | i < |js| :: Stands(g, g[r].properties[i].value, js[i])
    ensures Stands(g, At(r), Arr(js))
  {
    var t := g[r];
    forall i: nat | i < |js| ensures HasIndex(t, i) {
      ItemsInOrder(t, i);
      assert t.properties[i] in t.properties;
    }
    forall p | p in t.properties ensures p.key.Index? && p.key.i < |js| && Stands(g, p.value, js[p.key.i]) {
      var i :| 0 <= i < |t.properties| && t.properties[i] == p;
      ItemsInOrder(t, i);
    }
  }

  lemma MembersStand(g: Graph, r: Ref, js: seq<Json>)
    requires Heap(g) && r in g && DataOnly(g[r]) && g[r].length == None && |js| == |g[r].properties|
    requires forall i: nat | i < |js| :: Stands(g, g[r].properties[i].value, js[i])
    ensures Stands(g, At(r), Obj(Object(Map(TextOfKey, g[r].properties), js)))
  {
    var t := g[r];
    var keys := Map(TextOfKey, t.properties);
    var members := Object(keys, js);
    NamesDistinct(t);
    ObjectKeys(keys, js);
    forall k | k in members ensures HasName(t, k) {
      var p := MapInInverse(TextOfKey, t.properties, k);
      assert PropertyName(p.key) == k;
    }
    forall p | p in t.properties ensures PropertyName(p.key) in members && Stands(g, p.value, members[PropertyName(p.key)]) {
      var i :| 0 <= i < |t.properties| && t.properties[i] == p;
      ObjectAt(keys, js, i);
    }
  }

  lemma ObjectWithin(keys: seq<string>, js: seq<Json>, room: nat, entries: nat)
    requires |keys| == |js| && NoDup(keys) && forall i: nat | i < |js| :: room > 0 && Within(js[i], room - 1, entries)
    ensures Within(Obj(Object(keys, js)), room, entries)
  {
    ObjectKeys(keys, js);
    forall k | k in Object(keys, js) ensures room > 0 && Within(Object(keys, js)[k], room - 1, entries) {
      var i :| 0 <= i < |keys| && keys[i] == k;
      ObjectAt(keys, js, i);
    }
  }

  /** A child stands for its data, within what is left of the limits. */
  ghost predicate ChildStands(g: Graph, r: Ref, js: seq<Json>, i: nat, room: nat, entries: nat)
    requires r in g
  {
    i < |js| == |g[r].properties| ==> Stands(g, g[r].properties[i].value, js[i]) && room > 0 && Within(js[i], room - 1, entries)
  }

  lemma {:induction false} ArrayStands(g: Graph, r: Ref, js: seq<Json>, room: nat, entries: nat)
    requires Heap(g) && r in g && Readable(g[r], Limits(0, entries, true)) && g[r].length == Some(|js|)
    requires forall i: nat :: ChildStands(g, r, js, i, room, entries)
    ensures Stands(g, At(r), Arr(js)) && Within(Arr(js), room, entries)
  {
    forall i: nat | i < |js| ensures Stands(g, g[r].properties[i].value, js[i]) && room > 0 && Within(js[i], room - 1, entries) {
      assert ChildStands(g, r, js, i, room, entries);
    }
    ItemStands(g, r, js);
    forall x | x in js ensures room > 0 && Within(x, room - 1, entries) {
      var i: nat :| i < |js| && js[i] == x;
    }
  }

  lemma {:induction false} ObjectStands(g: Graph, r: Ref, js: seq<Json>, room: nat, entries: nat)
    requires Heap(g) && r in g && DataOnly(g[r]) && g[r].length == None && |js| == |g[r].properties|
    requires forall i: nat :: ChildStands(g, r, js, i, room, entries)
    ensures Stands(g, At(r), Obj(Object(Map(TextOfKey, g[r].properties), js)))
    ensures Within(Obj(Object(Map(TextOfKey, g[r].properties), js)), room, entries)
  {
    forall i: nat | i < |js| ensures Stands(g, g[r].properties[i].value, js[i]) && room > 0 && Within(js[i], room - 1, entries) {
      assert ChildStands(g, r, js, i, room, entries);
    }
    MembersStand(g, r, js);
    NamesDistinct(g[r]);
    ObjectWithin(Map(TextOfKey, g[r].properties), js, room, entries);
  }

  lemma {:induction false} UnfoldingStands(g: Graph, v: Value, depth: nat, limits: Limits)
    requires Heap(g) && limits.below && Unfold(g, v, depth, limits).Some?
    ensures Stands(g, v, ToJson(Unfold(g, v, depth, limits).value))
    ensures Within(ToJson(Unfold(g, v, depth, limits).value), limits.depth - depth, limits.entries)
    decreases limits.depth + 1 - depth, 1
  {
    if v.At? {
      ReferenceStands(g, v.ref, depth, limits);
    }
  }

  lemma {:induction false} ReferenceStands(g: Graph, r: Ref, depth: nat, limits: Limits)
    requires Heap(g) && limits.below && Unfold(g, At(r), depth, limits).Some?
    ensures Stands(g, At(r), ToJson(Unfold(g, At(r), depth, limits).value))
    ensures Within(ToJson(Unfold(g, At(r), depth, limits).value), limits.depth - depth, limits.entries)
    decreases limits.depth + 1 - depth, 0
  {
    var js := Children(g, r, depth, limits);
    var (room, entries) := (limits.depth - depth, limits.entries);
    forall i: nat ensures ChildStands(g, r, js, i, room, entries) {
      if i < |js| {
        assert Child(g, r, depth, limits, js, i);
        ChildUnfolds(g, r, depth, limits, js, i);
      }
    }
    if g[r].length.Some? {
      ArrayStands(g, r, js, room, entries);
    } else {
      ObjectStands(g, r, js, room, entries);
    }
  }

  lemma {:induction false} ChildUnfolds(g: Graph, r: Ref, depth: nat, limits: Limits, js: seq<Json>, i: nat)
    requires Heap(g) && limits.below && r in g && depth <= limits.depth && i < |js| == |g[r].properties| && Child(g, r, depth, limits, js, i)
    ensures ChildStands(g, r, js, i, limits.depth - depth, limits.entries)
    decreases limits.depth - depth, 2
  {
    UnfoldingStands(g, g[r].properties[i].value, depth + 1, limits);
    assert depth + 1 <= limits.depth;
  }

  // ----- and what a value stands for is what it unfolds to -----

  /** Every index once and no other key: as many keys as items. */
  lemma AsManyKeys(t: Thing, n: nat)
    requires OwnKeys(t) && (forall i: nat | i < n :: HasIndex(t, i)) && forall p | p in t.properties :: p.key.Index? && p.key.i < n
    ensures |t.properties| == n
  {
    var (keys, wanted) := (Map(KeyOf, t.properties), Indices(n));
    SetSize(keys);
    SetSize(wanted);
    forall k | k in wanted ensures k in keys {
      assert HasIndex(t, k.i);
      var p :| p in t.properties && p.key == k;
      MapIn(KeyOf, t.properties, p);
    }
    forall k | k in keys ensures k in wanted {
      var p := MapInInverse(KeyOf, t.properties, k);
      assert wanted[p.key.i] == k;
    }
    assert ToSet(keys) == ToSet(wanted);
  }

  lemma NamesAre(t: Thing, members: map<string, Json>)
    requires (forall k | k in members :: HasName(t, k)) && forall p | p in t.properties :: PropertyName(p.key) in members
    ensures ToSet(Map(TextOfKey, t.properties)) == members.Keys
  {
    var keys := Map(TextOfKey, t.properties);
    forall k | k in keys ensures k in members {
      var p := MapInInverse(TextOfKey, t.properties, k);
    }
    forall k | k in members ensures k in keys {
      var p :| p in t.properties && PropertyName(p.key) == k;
      MapIn(TextOfKey, t.properties, p);
    }
  }

  /** A reference unfolds when it can be read and each value below it unfolds. */
  lemma ReferenceUnfolds(g: Graph, r: Ref, depth: nat, limits: Limits, js: seq<Json>)
    requires depth <= limits.depth && r in g && Readable(g[r], limits) && |js| == |g[r].properties|
    requires forall i: nat | i < |js| :: Child(g, r, depth, limits, js, i)
    ensures Unfold(g, At(r), depth, limits).Some?
    ensures ToJson(Unfold(g, At(r), depth, limits).value) ==
              if g[r].length.Some? then Arr(js) else Obj(Object(Map(TextOfKey, g[r].properties), js))
  {
    var vs := Map(ValueOf, g[r].properties);
    UnfoldEach(g, vs, depth, limits);
    forall i: nat | i < |vs| ensures Unfold(g, vs[i], depth + 1, limits).Some? {
      assert Child(g, r, depth, limits, js, i);
    }
    var found := Children(g, r, depth, limits);
    forall i: nat | i < |js| ensures found[i] == js[i] {
      assert Child(g, r, depth, limits, js, i) && Child(g, r, depth, limits, found, i);
    }
    assert found == js;
  }

  /** The data of an own property: part of the whole, and within what is left of the limits. */
  ghost predicate Part(g: Graph, p: Property, j: Json, x: Json, room: nat, entries: nat) {
    x < j && Stands(g, p.value, x) && room > 0 && Within(x, room - 1, entries)
  }

  /** In own-key order, the data of the own properties make up the whole. */
  ghost predicate Parts(g: Graph, t: Thing, j: Json, js: seq<Json>, room: nat, entries: nat) {
    && |js| == |t.properties|
    && (forall i: nat | i < |js| :: Part(g, t.properties[i], j, js[i], room, entries))
    && j == if t.length.Some? then Arr(js) else Obj(Object(Map(TextOfKey, t.properties), js))
  }

  lemma ItemParts(g: Graph, v: Value, items: seq<Json>, room: nat, entries: nat)
    requires Heap(g) && Stands(g, v, Arr(items)) && Within(Arr(items), room, entries)
    ensures Readable(g[v.ref], Limits(room, entries, true)) && Parts(g, g[v.ref], Arr(items), items, room, entries)
  {
    var t := g[v.ref];
    AsManyKeys(t, |items|);
    forall i: nat | i < |items| ensures Part(g, t.properties[i], Arr(items), items[i], room, entries) {
      ItemsInOrder(t, i);
      assert t.properties[i] in t.properties && items[i] in items;
    }
  }

  lemma MemberPart(g: Graph, v: Value, members: map<string, Json>, room: nat, entries: nat, p: Property)
    requires Stands(g, v, Obj(members)) && Within(Obj(members), room, entries) && p in g[v.ref].properties
    ensures TextOfKey(p) in members && Part(g, p, Obj(members), members[TextOfKey(p)], room, entries)
  {
    assert TextOfKey(p) == PropertyName(p.key);
  }

  function NamedBy(members: map<string, Json>): Property -> Json { p => if TextOfKey(p) in members then members[TextOfKey(p)] else Null }

  lemma ObjectOfProperties(t: Thing, members: map<string, Json>)
    requires OwnKeys(t) && (forall k | k in members :: HasName(t, k)) && forall p | p in t.properties :: PropertyName(p.key) in members
    ensures Object(Map(TextOfKey, t.properties), Map(NamedBy(members), t.properties)) == members
  {
    NamesAre(t, members);
    NamesDistinct(t);
    ObjectIs(Map(TextOfKey, t.properties), Map(NamedBy(members), t.properties), members);
  }

  lemma MemberParts(g: Graph, v: Value, members: map<string, Json>, room: nat, entries: nat)
    requires Heap(g) && Stands(g, v, Obj(members)) && Within(Obj(members), room, entries)
    ensures Readable(g[v.ref], Limits(room, entries, true))
    ensures Parts(g, g[v.ref], Obj(members), Map(NamedBy(members), g[v.ref].properties), room, entries)
  {
    var ps := g[v.ref].properties;
    ObjectOfProperties(g[v.ref], members);
    forall i: nat | i < |ps| ensures Part(g, ps[i], Obj(members), Map(NamedBy(members), ps)[i], room, entries) {
      MemberPart(g, v, members, room, entries, ps[i]);
    }
  }

  lemma {:induction false} StandingUnfolds(g: Graph, v: Value, depth: nat, limits: Limits, j: Json)
    requires Heap(g) && limits.below && depth <= limits.depth
    requires Stands(g, v, j) && Within(j, limits.depth - depth, limits.entries)
    ensures Unfold(g, v, depth, limits).Some? && ToJson(Unfold(g, v, depth, limits).value) == j
    decreases j, 1
  {
    match j
    case Arr(items) =>
      ItemParts(g, v, items, limits.depth - depth, limits.entries);
      PartsUnfold(g, v.ref, depth, limits, j, items);
    case Obj(members) =>
      MemberParts(g, v, members, limits.depth - depth, limits.entries);
      PartsUnfold(g, v.ref, depth, limits, j, Map(NamedBy(members), g[v.ref].properties));
    case _ =>
  }

  lemma {:induction false} PartsUnfold(g: Graph, r: Ref, depth: nat, limits: Limits, j: Json, js: seq<Json>)
    requires Heap(g) && limits.below && depth <= limits.depth && r in g && Readable(g[r], limits)
    requires Parts(g, g[r], j, js, limits.depth - depth, limits.entries)
    ensures Unfold(g, At(r), depth, limits).Some? && ToJson(Unfold(g, At(r), depth, limits).value) == j
    decreases j, 0
  {
    forall i: nat | i < |js| ensures Child(g, r, depth, limits, js, i) {
      assert Part(g, g[r].properties[i], j, js[i], limits.depth - depth, limits.entries);
      StandingUnfolds(g, g[r].properties[i].value, depth + 1, limits, js[i]);
    }
    ReferenceUnfolds(g, r, depth, limits, js);
  }

  /** Within the limits a value stands for at most one JSON value, the one that it unfolds to. */
  lemma UnfoldingIsStanding(g: Graph, v: Value, limits: Limits, j: Json)
    requires Heap(g) && limits.below
    ensures Stands(g, v, j) && Within(j, limits.depth, limits.entries) <==>
              Unfold(g, v, 0, limits).Some? && ToJson(Unfold(g, v, 0, limits).value) == j
  {
    if Unfold(g, v, 0, limits).Some? {
      UnfoldingStands(g, v, 0, limits);
    }
    if Stands(g, v, j) && Within(j, limits.depth, limits.entries) {
      StandingUnfolds(g, v, 0, limits, j);
    }
  }

  /** This data, nested at most twenty deep, with arrays of at most 10000 items: what the schema-IR walk reads when no array has a hole. */
  ghost predicate Parses(g: Graph, v: Value, j: Json) {
    Stands(g, v, j) && Within(j, 20, 10000)
  }

  ghost predicate HasData(g: Graph, v: Value) {
    exists j :: Parses(g, v, j)
  }

  lemma ParsesIffUnfolds(g: Graph, v: Value, j: Json)
    requires Heap(g)
    ensures Parses(g, v, j) <==> Unfold(g, v, 0, STRICT).Some? && ToJson(Unfold(g, v, 0, STRICT).value) == j
  {
    UnfoldingIsStanding(g, v, STRICT, j);
  }

  lemma HasDataIffUnfolds(g: Graph, v: Value)
    requires Heap(g)
    ensures HasData(g, v) <==> Unfold(g, v, 0, STRICT).Some?
  {
    if HasData(g, v) {
      var j :| Parses(g, v, j);
      ParsesIffUnfolds(g, v, j);
    }
    if Unfold(g, v, 0, STRICT).Some? {
      ParsesIffUnfolds(g, v, ToJson(Unfold(g, v, 0, STRICT).value));
    }
  }

  // ----- the snapshot of the schema compiler, on data -----

  /** This data, nested at most sixteen deep, with arrays of at most 16384 items and 200000 nodes in all. */
  ghost predicate Reads(g: Graph, v: Value, j: Json) {
    Stands(g, v, j) && Within(j, 16, 16384) && Count(j) <= 200000
  }

  lemma ReadsIffFits(g: Graph, v: Value, j: Json)
    requires Heap(g)
    ensures var unfolding := Unfold(g, v, 0, SNAPSHOT); Reads(g, v, j) <==> Fits(unfolding, 0) && ToJson(unfolding.value) == j
  {
    UnfoldingIsStanding(g, v, SNAPSHOT, j);
    if Unfold(g, v, 0, SNAPSHOT).Some? {
      UnfoldsProperly(g, v, 0, SNAPSHOT);
      SizeIsCount(Unfold(g, v, 0, SNAPSHOT).value);
    }
  }

  /** Returns the JSON data that the input stands for, whenever it stands for data within the limits. */
  method SnapshotJson(g: Graph, input: Value) returns (result: Option<Json>, limited: bool)
    requires Heap(g)
    ensures result.Some? ==> Reads(g, input, result.value)
    ensures forall j :: Reads(g, input, j) ==> result == Some(j)
    ensures result.None? ==> Blamed(g, input, limited)
  {
    var walk := new Walk(g, input);
    var tree := walk.Visit(input, 0, [], []);
    limited := walk.limited;
    result := if tree.Some? then Some(ToJson(tree.value)) else None;
    forall j ensures Reads(g, input, j) <==> result == Some(j) {
      ReadsIffFits(g, input, j);
    }
  }
}
