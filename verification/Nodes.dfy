/** How many nodes JSON data has: what a walk counts on any graph of it, in any order of its arrays. */
module Nodes {
  import opened Seqs
  import opened Json
  import opened Snapshot

  // ----- counting -----

  ghost function Count(j: Json): nat
    decreases j, 1
  {
    match j
    case Arr(items) => 1 + CountAll(items)
    case Obj(members) => 1 + CountKeys(j, members.Keys)
    case _ => 1
  }

  ghost function CountAll(items: seq<Json>): nat
    decreases items, 0
  {
    if items == [] then 0 else CountAll(items[..|items| - 1]) + Count(items[|items| - 1])
  }

  ghost function CountKeys(j: Json, keys: set<string>): nat
    requires j.Obj? && keys <= j.members.Keys
    decreases j, 0, keys
  {
    if keys == {} then 0
    else
      var k :| k in keys;
      Count(j.members[k]) + CountKeys(j, keys - {k})
  }

  /** Whichever member is counted first. */
  lemma {:induction false} CountKeysFrom(j: Json, keys: set<string>, k: string)
    requires j.Obj? && keys <= j.members.Keys && k in keys
    ensures CountKeys(j, keys) == Count(j.members[k]) + CountKeys(j, keys - {k})
    decreases keys
  {
    var x :| x in keys && CountKeys(j, keys) == Count(j.members[x]) + CountKeys(j, keys - {x});
    if x != k {
      CountKeysFrom(j, keys - {x}, k);
      CountKeysFrom(j, keys - {k}, x);
      assert keys - {x} - {k} == keys - {k} - {x};
    }
  }

  lemma {:induction false} CountKeysAgree(a: Json, b: Json, keys: set<string>)
    requires a.Obj? && b.Obj? && keys <= a.members.Keys && keys <= b.members.Keys
    requires forall k | k in keys :: Count(a.members[k]) == Count(b.members[k])
    ensures CountKeys(a, keys) == CountKeys(b, keys)
    decreases keys
  {
    if keys != {} {
      var k :| k in keys;
      CountKeysFrom(a, keys, k);
      CountKeysFrom(b, keys, k);
      CountKeysAgree(a, b, keys - {k});
    }
  }

  /** Members with as many nodes make objects with as many nodes. */
  lemma ObjectsCountAlike(a: map<string, Json>, b: map<string, Json>)
    requires a.Keys == b.Keys && forall k | k in a :: Count(a[k]) == Count(b[k])
    ensures Count(Obj(a)) == Count(Obj(b))
  {
    CountKeysAgree(Obj(a), Obj(b), a.Keys);
  }

  lemma CountAdded(m: map<string, Json>, key: string, j: Json)
    requires key !in m
    ensures Count(Obj(m[key := j])) == Count(Obj(m)) + Count(j)
  {
    var (a, b) := (Obj(m[key := j]), Obj(m));
    CountKeysFrom(a, a.members.Keys, key);
    assert a.members.Keys - {key} == b.members.Keys;
    CountKeysAgree(a, b, b.members.Keys);
  }

  // ----- lists, in any order -----

  function Total(ns: seq<nat>): nat {
    if ns == [] then 0 else ns[0] + Total(ns[1..])
  }

  lemma {:induction false} TotalSnoc(ns: seq<nat>, n: nat)
    ensures Total(ns + [n]) == Total(ns) + n
  {
    if ns == [] {
      assert [] + [n] == [n];
    } else {
      TotalSnoc(ns[1..], n);
      assert (ns + [n])[1..] == ns[1..] + [n];
    }
  }

  lemma {:induction false} TotalWithout(ns: seq<nat>, i: nat)
    requires i < |ns|
    ensures Total(ns) == ns[i] + Total(Drop(ns, i))
  {
    if i > 0 {
      TotalWithout(ns[1..], i - 1);
      assert Drop(ns, i)[0] == ns[0] && Drop(ns, i)[1..] == Drop(ns[1..], i - 1);
    } else {
      assert Drop(ns, 0) == ns[1..];
    }
  }

  lemma {:induction false} TotalPerm(a: seq<nat>, b: seq<nat>)
    requires Perm(a, b)
    ensures Total(a) == Total(b)
  {
    if a == [] {
      PermMembers(a, b);
    } else {
      var j := FindHead(a, b);
      TotalWithout(b, j);
      RestPerm(a, b, j);
      TotalPerm(a[1..], Drop(b, j));
    }
  }

  lemma {:induction false} CountAllIsTotal(items: seq<Json>)
    ensures CountAll(items) == Total(Map(Count, items))
  {
    if items != [] {
      var n := |items| - 1;
      CountAllIsTotal(items[..n]);
      assert Map(Count, items) == Map(Count, items[..n]) + [Count(items[n])];
      TotalSnoc(Map(Count, items[..n]), Count(items[n]));
    }
  }

  ghost function CountOf<T>(write: T -> Json): T -> nat { x => Count(write(x)) }

  lemma CountMapped<T>(write: T -> Json, xs: seq<T>)
    ensures Count(Arr(Map(write, xs))) == 1 + Total(Map(CountOf(write), xs))
  {
    CountAllIsTotal(Map(write, xs));
    assert Map(Count, Map(write, xs)) == Map(CountOf(write), xs);
  }

  /** An array has as many nodes in any order of its items. */
  lemma ArraysCountAlike<T>(write: T -> Json, a: seq<T>, b: seq<T>)
    requires Perm(a, b)
    ensures Count(Arr(Map(write, a))) == Count(Arr(Map(write, b)))
  {
    CountMapped(write, a);
    CountMapped(write, b);
    MapPerm(CountOf(write), a, b);
    TotalPerm(Map(CountOf(write), a), Map(CountOf(write), b));
  }

  /** Also when the items correspond only up to what a bag says of them, if the bag decides their nodes. */
  lemma BagsCountAlike<T, B>(write: T -> Json, bag: T -> B, a: seq<T>, b: seq<T>)
    requires Perm(Map(bag, a), Map(bag, b))
    requires forall x, y | x in a && y in b && bag(x) == bag(y) :: Count(write(x)) == Count(write(y))
    ensures Count(Arr(Map(write, a))) == Count(Arr(Map(write, b)))
  {
    CountMapped(write, a);
    CountMapped(write, b);
    assert Decides(bag, CountOf(write), a, b);
    MapDecides(bag, CountOf(write), a, b);
    TotalPerm(Map(CountOf(write), a), Map(CountOf(write), b));
  }

  // ----- what a walk counts -----

  /** Distinct keys, and nothing hidden in a leaf. */
  ghost predicate Proper(t: Tree) {
    match t
    case Leaf(j) => !j.Arr? && !j.Obj?
    case Items(items) => forall x | x in items :: Proper(x)
    case Members(keys, values) => |keys| == |values| && NoDup(keys) && forall x | x in values :: Proper(x)
  }

  lemma {:induction false} UnfoldsProperly(g: Graph, v: Value, depth: nat, limits: Limits)
    requires Heap(g) && Unfold(g, v, depth, limits).Some?
    ensures Proper(Unfold(g, v, depth, limits).value)
    decreases limits.depth + 1 - depth, 1
  {
    if v.At? {
      AllUnfoldProperly(g, Map(ValueOf, g[v.ref].properties), depth, limits);
      NamesDistinct(g[v.ref]);
      assert OwnKeys(g[v.ref]);
    }
  }

  lemma {:induction false} AllUnfoldProperly(g: Graph, vs: seq<Value>, depth: nat, limits: Limits)
    requires Heap(g) && depth <= limits.depth && UnfoldAll(g, vs, depth, limits).Some?
    ensures |UnfoldAll(g, vs, depth, limits).value| == |vs| && forall x | x in UnfoldAll(g, vs, depth, limits).value :: Proper(x)
    decreases limits.depth + 1 - depth, 0
  {
    UnfoldEach(g, vs, depth, limits);
    var children := UnfoldAll(g, vs, depth, limits).value;
    forall x | x in children ensures Proper(x) {
      var i :| 0 <= i < |children| && children[i] == x;
      UnfoldsProperly(g, vs[i], depth + 1, limits);
    }
  }

  lemma NamesDistinct(t: Thing)
    ensures OwnKeys(t) ==> NoDup(Map(TextOfKey, t.properties))
  {
  }

  lemma {:induction false} SizeIsCount(t: Tree)
    requires Proper(t)
    ensures Size(t) == Count(ToJson(t))
    decreases t, 1
  {
    match t
    case Leaf(_) =>
    case Items(items) => ItemsAreCounted(items);
    case Members(keys, values) => MembersAreCounted(keys, values);
  }

  lemma {:induction false} ItemsAreCounted(items: seq<Tree>)
    requires forall x | x in items :: Proper(x)
    ensures SizeAll(items) == CountAll(ToJsonAll(items))
    decreases items, 0
  {
    if items != [] {
      var n := |items| - 1;
      ItemsAreCounted(items[..n]);
      SizeIsCount(items[n]);
      assert ToJsonAll(items)[..n] == ToJsonAll(items[..n]);
    }
  }

  lemma {:induction false} ObjectKeys(keys: seq<string>, js: seq<Json>)
    requires |keys| == |js|
    ensures Object(keys, js).Keys == ToSet(keys)
  {
    if keys != [] {
      var n := |keys| - 1;
      ObjectKeys(keys[..n], js[..n]);
      assert keys == keys[..n] + [keys[n]];
    }
  }

  lemma {:induction false} MembersAreCounted(keys: seq<string>, values: seq<Tree>)
    requires |keys| == |values| && NoDup(keys) && forall x | x in values :: Proper(x)
    ensures Count(Obj(Object(keys, ToJsonAll(values)))) == 1 + SizeAll(values)
    decreases values, 0
  {
    if keys != [] {
      var n := |keys| - 1;
      var (rest, k) := (Obj(Object(keys[..n], ToJsonAll(values[..n]))), keys[n]);
      MembersAreCounted(keys[..n], values[..n]);
      SizeIsCount(values[n]);
      ObjectKeys(keys[..n], ToJsonAll(values[..n]));
      assert ToJsonAll(values)[..n] == ToJsonAll(values[..n]);
      assert k !in keys[..n];
      CountAdded(rest.members, k, ToJson(values[n]));
    }
  }
}
