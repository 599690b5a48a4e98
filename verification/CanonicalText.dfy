/** The sorted printing of the schema-IR compiler: equal data has one text, and it is parsed back to the same data. */
module CanonicalText {
  import opened Seqs
  import opened Strings
  import opened Json
  import opened Snapshot
  import opened Nodes
  import opened IrRoundTrip

  // ----- objects as lists of members -----

  function Pairs(keys: seq<string>, values: seq<Tree>): (r: seq<Pair>)
    requires |keys| == |values|
    ensures |r| == |keys| && forall i | 0 <= i < |keys| :: r[i] == (keys[i], values[i])
  {
    seq(|keys|, i requires 0 <= i < |keys| => (keys[i], values[i]))
  }

  lemma PairsOfParts(keys: seq<string>, values: seq<Tree>)
    requires |keys| == |values|
    ensures Map(KeyOfPair, Pairs(keys, values)) == keys && Map(TreeOfPair, Pairs(keys, values)) == values
  {
  }

  /** `canonical`: the members of every object by their keys; arrays keep their order. */
  function Sorted(t: Tree): Tree
    decreases t, 1
  {
    match t
    case Leaf(_) => t
    case Items(items) => Items(SortedAll(items))
    case Members(keys, values) =>
      if |keys| == |values| then ObjectTree(SortBy(KeyOfPair, Pairs(keys, SortedAll(values)))) else t
  }

  function SortedAll(ts: seq<Tree>): (r: seq<Tree>)
    ensures |r| == |ts|
    decreases ts, 0
  {
    if ts == [] then [] else SortedAll(ts[..|ts| - 1]) + [Sorted(ts[|ts| - 1])]
  }

  lemma {:induction false} SortedEach(ts: seq<Tree>)
    ensures forall i | 0 <= i < |ts| :: SortedAll(ts)[i] == Sorted(ts[i])
  {
    if ts != [] {
      SortedEach(ts[..|ts| - 1]);
    }
  }

  // ----- the data of an object does not depend on the order of its members -----

  lemma {:induction false} JsonOfKeys(ps: seq<Pair>)
    ensures JsonOf(ps).Keys == ToSet(Map(KeyOfPair, ps))
  {
    if ps != [] {
      var (rest, last) := (ps[..|ps| - 1], ps[|ps| - 1]);
      JsonOfKeys(rest);
      assert ps == rest + [last];
      MapAppend(KeyOfPair, rest, [last]);
      assert Map(KeyOfPair, [last]) == [last.0];
    }
  }

  lemma {:induction false} JsonOfAt(ps: seq<Pair>, p: Pair)
    requires NoDup(Map(KeyOfPair, ps)) && p in ps
    ensures p.0 in JsonOf(ps) && JsonOf(ps)[p.0] == ToJson(p.1)
  {
    var (rest, last) := (ps[..|ps| - 1], ps[|ps| - 1]);
    assert ps == rest + [last];
    if p != last {
      MapAppend(KeyOfPair, rest, [last]);
      assert Map(KeyOfPair, [last]) == [last.0];
      NoDupSnoc(Map(KeyOfPair, rest), last.0);
      JsonOfAt(rest, p);
      MapIn(KeyOfPair, rest, p);
    }
  }

  lemma JsonOfOrderBlind(a: seq<Pair>, b: seq<Pair>)
    requires Perm(a, b) && NoDup(Map(KeyOfPair, a))
    ensures NoDup(Map(KeyOfPair, b)) && JsonOf(a) == JsonOf(b)
  {
    MapPerm(KeyOfPair, a, b);
    PermNoDup(Map(KeyOfPair, a), Map(KeyOfPair, b));
    PermMembers(Map(KeyOfPair, a), Map(KeyOfPair, b));
    PermMembers(a, b);
    JsonOfKeys(a);
    JsonOfKeys(b);
    forall k | k in JsonOf(a) ensures k in JsonOf(b) && JsonOf(a)[k] == JsonOf(b)[k] {
      var p := MapInInverse(KeyOfPair, a, k);
      JsonOfAt(a, p);
      JsonOfAt(b, p);
    }
  }

  lemma {:induction false} JsonOfAlike(a: seq<Pair>, b: seq<Pair>)
    requires |a| == |b| && forall i | 0 <= i < |a| :: a[i].0 == b[i].0 && ToJson(a[i].1) == ToJson(b[i].1)
    ensures JsonOf(a) == JsonOf(b)
  {
    if a != [] {
      JsonOfAlike(a[..|a| - 1], b[..|b| - 1]);
    }
  }

  // ----- sorting keeps the data -----

  ghost predicate AllProper(ts: seq<Tree>) { forall x | x in ts :: Proper(x) }

  lemma {:induction false} SortedKeeps(t: Tree)
    requires Proper(t)
    ensures Proper(Sorted(t)) && ToJson(Sorted(t)) == ToJson(t)
    decreases t, 1
  {
    match t
    case Leaf(_) =>
    case Items(items) =>
      SortedAllKeeps(items);
    case Members(keys, values) =>
      SortedAllKeeps(values);
      MembersKeep(keys, values, SortedAll(values));
  }

  lemma {:induction false} SortedAllKeeps(ts: seq<Tree>)
    requires AllProper(ts)
    ensures AllProper(SortedAll(ts)) && ToJsonAll(SortedAll(ts)) == ToJsonAll(ts)
    decreases ts, 0
  {
    if ts != [] {
      var (rest, last) := (ts[..|ts| - 1], ts[|ts| - 1]);
      assert ts == rest + [last];
      SortedAllKeeps(rest);
      SortedKeeps(last);
      assert (SortedAll(rest) + [Sorted(last)])[..|rest|] == SortedAll(rest);
    }
  }

  lemma SortedPairs(keys: seq<string>, values: seq<Tree>)
    requires |keys| == |values| && NoDup(keys)
    ensures var ps := SortBy(KeyOfPair, Pairs(keys, values));
            && Perm(Pairs(keys, values), ps) && NoDup(Map(KeyOfPair, ps))
            && JsonOf(ps) == JsonOf(Pairs(keys, values))
  {
    PairsOfParts(keys, values);
    SortByCorrect(KeyOfPair, Pairs(keys, values));
    JsonOfOrderBlind(Pairs(keys, values), SortBy(KeyOfPair, Pairs(keys, values)));
  }

  lemma MembersKeep(keys: seq<string>, values: seq<Tree>, sorted: seq<Tree>)
    requires |keys| == |values| == |sorted| && NoDup(keys) && AllProper(sorted) && ToJsonAll(sorted) == ToJsonAll(values)
    ensures var t := ObjectTree(SortBy(KeyOfPair, Pairs(keys, sorted)));
            Proper(t) && ToJson(t) == ToJson(Members(keys, values))
  {
    var (ps, was) := (Pairs(keys, sorted), Pairs(keys, values));
    var ordered := SortBy(KeyOfPair, ps);
    SortedPairs(keys, sorted);
    PairsOfParts(keys, sorted);
    PairsOfParts(keys, values);
    ToJsonEach(sorted);
    ToJsonEach(values);
    forall i | 0 <= i < |ps| ensures ps[i].0 == was[i].0 && ToJson(ps[i].1) == ToJson(was[i].1) {
      assert ToJsonAll(sorted)[i] == ToJsonAll(values)[i];
    }
    JsonOfAlike(ps, was);
    ObjectJson(ordered);
    ObjectJson(was);
    PermMembers(ps, ordered);
    forall x | x in Map(TreeOfPair, ordered) ensures Proper(x) {
      var p := MapInInverse(TreeOfPair, ordered, x);
      MapIn(TreeOfPair, ps, p);
    }
  }

  // ----- equal data has one sorted text -----

  lemma {:induction false} SameDataSameText(a: Tree, b: Tree)
    requires Proper(a) && Proper(b) && ToJson(a) == ToJson(b)
    ensures Sorted(a) == Sorted(b)
    decreases a, 1
  {
    match a
    case Leaf(_) =>
    case Items(items) =>
      ItemsAlike(items, b.items);
    case Members(keys, values) =>
      forall i, k | 0 <= i < |keys| && 0 <= k < |b.keys| && keys[i] == b.keys[k]
        ensures Sorted(values[i]) == Sorted(b.values[k])
      {
        MemberAlike(a, b, i, k);
        assert values[i] in values && b.values[k] in b.values;
        SameDataSameText(values[i], b.values[k]);
      }
      MembersAlike(a, b);
  }

  lemma {:induction false} ItemsAlike(a: seq<Tree>, b: seq<Tree>)
    requires AllProper(a) && AllProper(b) && ToJsonAll(a) == ToJsonAll(b)
    ensures SortedAll(a) == SortedAll(b)
    decreases a, 0
  {
    assert |ToJsonAll(a)| == |a| && |ToJsonAll(b)| == |b|;
    if a != [] {
      var n := |a| - 1;
      assert ToJsonAll(a)[..n] == ToJsonAll(a[..n]) && ToJsonAll(b)[..n] == ToJsonAll(b[..n]);
      assert ToJsonAll(a)[n] == ToJson(a[n]) && ToJsonAll(b)[n] == ToJson(b[n]);
      assert a[n] in a && b[n] in b;
      ItemsAlike(a[..n], b[..n]);
      SameDataSameText(a[n], b[n]);
    }
  }

  lemma PartsJson(t: Tree)
    requires Proper(t) && t.Members?
    ensures ToJson(t) == Obj(JsonOf(Pairs(t.keys, t.values)))
  {
    PairsOfParts(t.keys, t.values);
    ObjectJson(Pairs(t.keys, t.values));
  }

  /** Equal objects have equal members under equal keys. */
  lemma MemberAlike(a: Tree, b: Tree, i: nat, k: nat)
    requires Proper(a) && Proper(b) && a.Members? && b.Members? && ToJson(a) == ToJson(b)
    requires i < |a.keys| && k < |b.keys| && a.keys[i] == b.keys[k]
    ensures ToJson(a.values[i]) == ToJson(b.values[k])
  {
    var (pa, pb) := (Pairs(a.keys, a.values), Pairs(b.keys, b.values));
    PartsJson(a);
    PartsJson(b);
    PairsOfParts(a.keys, a.values);
    PairsOfParts(b.keys, b.values);
    assert pa[i] in pa && pb[k] in pb;
    JsonOfAt(pa, pa[i]);
    JsonOfAt(pb, pb[k]);
  }

  lemma SameKeys(a: Tree, b: Tree)
    requires Proper(a) && Proper(b) && a.Members? && b.Members? && ToJson(a) == ToJson(b)
    ensures ToSet(a.keys) == ToSet(b.keys)
  {
    PartsJson(a);
    PartsJson(b);
    PairsOfParts(a.keys, a.values);
    PairsOfParts(b.keys, b.values);
    JsonOfKeys(Pairs(a.keys, a.values));
    JsonOfKeys(Pairs(b.keys, b.values));
  }

  lemma MembersAlike(a: Tree, b: Tree)
    requires Proper(a) && Proper(b) && a.Members? && b.Members? && ToJson(a) == ToJson(b)
    requires forall i, k | 0 <= i < |a.keys| && 0 <= k < |b.keys| && a.keys[i] == b.keys[k] ::
               Sorted(a.values[i]) == Sorted(b.values[k])
    ensures Sorted(a) == Sorted(b)
  {
    var (pa, pb) := (Pairs(a.keys, SortedAll(a.values)), Pairs(b.keys, SortedAll(b.values)));
    SortedEach(a.values);
    SortedEach(b.values);
    SameKeys(a, b);
    PairsOfParts(a.keys, SortedAll(a.values));
    PairsOfParts(b.keys, SortedAll(b.values));
    forall p ensures p in pa <==> p in pb {
      PairThere(a.keys, b.keys, pa, pb, p);
      PairThere(b.keys, a.keys, pb, pa, p);
    }
    NoDupOfMap(KeyOfPair, pa);
    NoDupOfMap(KeyOfPair, pb);
    SameMembersPerm(pa, pb);
    forall x, y | x in pa && y in pa && KeyOfPair(x) == KeyOfPair(y) ensures x == y {
      KeyInjective(KeyOfPair, pa, x, y);
    }
    SortByOrderBlind(KeyOfPair, pa, pb);
  }

  lemma PairThere(keys: seq<string>, others: seq<string>, ps: seq<Pair>, qs: seq<Pair>, p: Pair)
    requires |ps| == |keys| && |qs| == |others| && ToSet(keys) == ToSet(others)
    requires forall i | 0 <= i < |ps| :: ps[i].0 == keys[i]
    requires forall i | 0 <= i < |qs| :: qs[i].0 == others[i]
    requires forall i, k | 0 <= i < |ps| && 0 <= k < |qs| && ps[i].0 == qs[k].0 :: ps[i].1 == qs[k].1
    ensures p in ps ==> p in qs
  {
    if p in ps {
      var i :| 0 <= i < |ps| && ps[i] == p;
      assert keys[i] in ToSet(others);
      var k :| 0 <= k < |others| && others[k] == keys[i];
      assert qs[k] == p;
    }
  }

  lemma SameMembersPerm<T>(a: seq<T>, b: seq<T>)
    requires NoDup(a) && NoDup(b) && forall x :: x in a <==> x in b
    ensures Perm(a, b)
  {
    NoDupCounts(a);
    NoDupCounts(b);
    forall x: T ensures multiset(a)[x] == multiset(b)[x] {
      if x in a {
        assert x in b;
      } else {
        assert x !in multiset(a) && x !in multiset(b);
      }
    }
  }

  /** The sorted text tells data apart, and nothing else. */
  lemma SortedTextIsUnique(a: Tree, b: Tree)
    requires Proper(a) && Proper(b)
    ensures Sorted(a) == Sorted(b) <==> ToJson(a) == ToJson(b)
  {
    SortedKeeps(a);
    SortedKeeps(b);
    if ToJson(a) == ToJson(b) {
      SameDataSameText(a, b);
    }
  }

  // ----- objects written member by member have distinct keys -----

  ghost predicate ProperPairs(ps: seq<Pair>) {
    NoDup(Map(KeyOfPair, ps)) && forall p | p in ps :: Proper(p.1)
  }

  function KeySet(ps: seq<Pair>): set<string> { ToSet(Map(KeyOfPair, ps)) }

  lemma ProperObject(ps: seq<Pair>)
    requires ProperPairs(ps)
    ensures Proper(ObjectTree(ps))
  {
    forall x | x in Map(TreeOfPair, ps) ensures Proper(x) {
      var p := MapInInverse(TreeOfPair, ps, x);
    }
  }

  lemma FirstPair(key: string, t: Tree)
    requires Proper(t)
    ensures ProperPairs(P(key, t)) && KeySet(P(key, t)) == {key}
  {
    assert Map(KeyOfPair, P(key, t)) == [key];
  }

  lemma NextPair(ps: seq<Pair>, known: set<string>, key: string, t: Tree, present: bool)
    requires ProperPairs(ps) && KeySet(ps) <= known && key !in known && Proper(t)
    ensures ProperPairs(ps + ListPairs(key, t, present)) && KeySet(ps + ListPairs(key, t, present)) <= known + {key}
  {
    if present {
      MapAppend(KeyOfPair, ps, P(key, t));
      assert Map(KeyOfPair, P(key, t)) == [key];
      assert key !in KeySet(ps);
      NoDupSnoc(Map(KeyOfPair, ps), key);
    } else {
      assert ps + [] == ps;
    }
  }

  lemma ProperItems<T>(write: T -> Tree, xs: seq<T>)
    requires forall x | x in xs :: Proper(write(x))
    ensures Proper(Items(Map(write, xs)))
  {
    forall t | t in Map(write, xs) ensures Proper(t) {
      var x := MapInInverse(write, xs, t);
    }
  }

  lemma ThreeProper(a: string, b: string, c: string, x: Tree, y: Tree, z: Tree)
    requires a != b && a != c && b != c && Proper(x) && Proper(y) && Proper(z)
    ensures ProperPairs(P(a, x) + P(b, y) + P(c, z)) && KeySet(P(a, x) + P(b, y) + P(c, z)) <= {a, b, c}
  {
    FirstPair(a, x);
    NextPair(P(a, x), {a}, b, y, true);
    NextPair(P(a, x) + P(b, y), {a, b}, c, z, true);
  }
}
