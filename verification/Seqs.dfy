/** Sequences as bags: mapping, absence of duplicates, and what a permutation keeps. */
module Seqs {

  /** The values `f` gives on the items of `s`, in order. */
  function Map<A, B>(f: A -> B, s: seq<A>): (r: seq<B>)
    ensures |r| == |s|
    ensures forall i | 0 <= i < |s| :: r[i] == f(s[i])
  {
    seq(|s|, i requires 0 <= i < |s| => f(s[i]))
  }

  ghost predicate NoDup<T>(s: seq<T>) {
    forall i, j | 0 <= i < j < |s| :: s[i] != s[j]
  }

  /** One list is a reordering of the other. */
  ghost predicate Perm<T>(a: seq<T>, b: seq<T>) {
    multiset(a) == multiset(b)
  }

  /** The same members, in whatever order and number. */
  ghost predicate SameMembers<T(!new)>(a: seq<T>, b: seq<T>) { forall x :: x in a <==> x in b }

  function ToSet<T(==)>(s: seq<T>): set<T> {
    set x | x in s
  }

  lemma PermMembers<T>(a: seq<T>, b: seq<T>)
    requires Perm(a, b)
    ensures |a| == |b|
    ensures forall x :: x in a <==> x in b
  {
    assert |multiset(a)| == |a| && |multiset(b)| == |b|;
    forall x ensures x in a <==> x in b {
      assert x in a <==> x in multiset(a);
      assert x in b <==> x in multiset(b);
    }
  }

  lemma HeadTail<T>(s: seq<T>)
    requires s != []
    ensures s == [s[0]] + s[1..]
    ensures multiset(s) == multiset{s[0]} + multiset(s[1..])
  {
    assert s == [s[0]] + s[1..];
  }

  /** Taking one occurrence out of a list. */
  lemma Without<T>(s: seq<T>, i: nat)
    requires i < |s|
    ensures multiset(s[..i] + s[i + 1..]) == multiset(s) - multiset{s[i]}
  {
    assert s == s[..i] + [s[i]] + s[i + 1..];
  }

  /** Duplicates are a matter of multiplicity, not of position. */
  lemma {:induction false} NoDupCounts<T>(s: seq<T>)
    ensures NoDup(s) <==> forall x | x in s :: multiset(s)[x] == 1
  {
    if s != [] {
      HeadTail(s);
      var t := s[1..];
      NoDupCounts(t);
      if NoDup(s) {
        forall i, j | 0 <= i < j < |t| ensures t[i] != t[j] {
          assert t[i] == s[i + 1] && t[j] == s[j + 1];
        }
        assert s[0] !in t;
        forall x | x in s ensures multiset(s)[x] == 1 {}
      }
      if forall x | x in s :: multiset(s)[x] == 1 {
        forall x | x in t ensures multiset(t)[x] == 1 && x != s[0] {
          assert x in s;
        }
        forall i, j | 0 <= i < j < |s| ensures s[i] != s[j] {
          assert s[j] == t[j - 1] && s[j] in t;
          if i > 0 {
            assert s[i] == t[i - 1];
            assert NoDup(t);
          }
        }
      }
    }
  }

  lemma PermNoDup<T>(a: seq<T>, b: seq<T>)
    requires Perm(a, b) && NoDup(a)
    ensures NoDup(b)
  {
    NoDupCounts(a);
    NoDupCounts(b);
    PermMembers(a, b);
  }

  lemma SubsetOfSameSize<T>(a: set<T>, b: set<T>)
    requires a <= b && |b| <= |a|
    ensures a == b
  {
    assert b == a + (b - a);
  }

  /** `new Set(list).size` equals `list.length` exactly when the list has no duplicates. */
  lemma {:induction false} SetSize<T>(s: seq<T>)
    ensures |ToSet(s)| <= |s|
    ensures |ToSet(s)| == |s| <==> NoDup(s)
  {
    if s == [] {
      assert ToSet(s) == {};
    } else {
      var t := s[1..];
      SetSize(t);
      assert s == [s[0]] + t;
      if s[0] in t {
        assert ToSet(s) == ToSet(t);
        var k :| 0 <= k < |t| && t[k] == s[0];
        assert s[0] == s[k + 1];
      } else {
        assert ToSet(s) == ToSet(t) + {s[0]};
        if NoDup(t) {
          forall i, j | 0 <= i < j < |s| ensures s[i] != s[j] {
            assert s[j] == t[j - 1];
            if i > 0 {
              assert s[i] == t[i - 1];
            }
          }
        }
        if NoDup(s) {
          forall i, j | 0 <= i < j < |t| ensures t[i] != t[j] {
            assert t[i] == s[i + 1] && t[j] == s[j + 1];
          }
        }
      }
    }
  }

  lemma {:induction false} MapRemove<A, B>(f: A -> B, s: seq<A>, i: nat)
    requires i < |s|
    ensures multiset(Map(f, s)) == multiset(Map(f, s[..i] + s[i + 1..])) + multiset{f(s[i])}
  {
    var r := s[..i] + s[i + 1..];
    var m := Map(f, s);
    assert Map(f, r) == m[..i] + m[i + 1..];
    assert m == m[..i] + [m[i]] + m[i + 1..];
  }

  lemma FindHead<T>(a: seq<T>, b: seq<T>) returns (j: nat)
    requires Perm(a, b) && a != []
    ensures j < |b| && b[j] == a[0] && |a| == |b|
  {
    PermMembers(a, b);
    assert a[0] in b;
    j :| 0 <= j < |b| && b[j] == a[0];
  }

  function Drop<T>(s: seq<T>, i: nat): (r: seq<T>)
    requires i < |s|
    ensures |r| == |s| - 1 && forall x | x in r :: x in s
  {
    s[..i] + s[i + 1..]
  }

  lemma BagCancel<T>(x: seq<T>, y: seq<T>, x': seq<T>, y': seq<T>, v: T)
    requires multiset(x') == multiset(x) + multiset{v}
    requires multiset(y') == multiset(y) + multiset{v}
    ensures Perm(x', y') <==> Perm(x, y)
  {
    assert multiset(x) == multiset(x') - multiset{v};
    assert multiset(y) == multiset(y') - multiset{v};
  }

  /** Cancelling equal values from both sides of a reordering of `f`-values. */
  lemma MapPermCancel<A, B>(f: A -> B, a: seq<A>, b: seq<A>, j: nat)
    requires a != [] && j < |b| && f(a[0]) == f(b[j])
    ensures Perm(Map(f, a), Map(f, b)) <==> Perm(Map(f, a[1..]), Map(f, Drop(b, j)))
  {
    assert a[..0] + a[1..] == a[1..];
    MapRemove(f, a, 0);
    MapRemove(f, b, j);
    BagCancel(Map(f, a[1..]), Map(f, Drop(b, j)), Map(f, a), Map(f, b), f(a[0]));
  }

  ghost predicate Decides<A, B, C>(f: A -> B, g: A -> C, a: seq<A>, b: seq<A>) {
    forall x, y | x in a && y in b :: f(x) == f(y) ==> g(x) == g(y)
  }

  /**
   * If two lists have the same bag of `f`-values, and `f` decides `g`, they have the
   * same bag of `g`-values.
   */
  lemma {:induction false} MapDecides<A, B, C>(f: A -> B, g: A -> C, a: seq<A>, b: seq<A>)
    requires Perm(Map(f, a), Map(f, b))
    requires Decides(f, g, a, b)
    ensures Perm(Map(g, a), Map(g, b))
  {
    PermMembers(Map(f, a), Map(f, b));
    if a != [] {
      var j := FindHead(Map(f, a), Map(f, b));
      MapPermCancel(f, a, b, j);
      assert a[0] in a && b[j] in b;
      MapDecides(f, g, a[1..], Drop(b, j));
      MapPermCancel(g, a, b, j);
    }
  }

  lemma {:induction false} MapPerm<A, B>(g: A -> B, a: seq<A>, b: seq<A>)
    requires Perm(a, b)
    ensures Perm(Map(g, a), Map(g, b))
  {
    PermMembers(a, b);
    if a != [] {
      var j := FindHead(a, b);
      Without(b, j);
      HeadTail(a);
      MapPerm(g, a[1..], b[..j] + b[j + 1..]);
      MapRemove(g, a, 0);
      MapRemove(g, b, j);
      assert a[..0] + a[1..] == a[1..];
    }
  }

  /** A key with distinct values tells the items of a list apart. */
  lemma KeyInjective<A, B>(key: A -> B, s: seq<A>, x: A, y: A)
    requires NoDup(Map(key, s)) && x in s && y in s && key(x) == key(y)
    ensures x == y
  {
    var i :| 0 <= i < |s| && s[i] == x;
    var j :| 0 <= j < |s| && s[j] == y;
    assert Map(key, s)[i] == Map(key, s)[j];
  }

  lemma NoDupOfMap<A, B>(key: A -> B, s: seq<A>)
    requires NoDup(Map(key, s))
    ensures NoDup(s)
  {
    forall i, j | 0 <= i < j < |s| ensures s[i] != s[j] {
      assert Map(key, s)[i] != Map(key, s)[j];
    }
  }

  lemma MapAppend<A, B>(f: A -> B, a: seq<A>, b: seq<A>)
    ensures Map(f, a + b) == Map(f, a) + Map(f, b)
  {
  }

  lemma MapIn<A, B>(f: A -> B, s: seq<A>, x: A)
    requires x in s
    ensures f(x) in Map(f, s)
  {
    var i :| 0 <= i < |s| && s[i] == x;
    assert Map(f, s)[i] == f(x);
  }

  lemma MapInInverse<A, B>(f: A -> B, s: seq<A>, y: B) returns (x: A)
    requires y in Map(f, s)
    ensures x in s && f(x) == y
  {
    var i :| 0 <= i < |s| && Map(f, s)[i] == y;
    x := s[i];
  }

  // ----- sums of bags -----

  ghost function Sum<T>(bags: seq<multiset<T>>): multiset<T> {
    if bags == [] then multiset{} else bags[0] + Sum(bags[1..])
  }

  lemma {:induction false} SumAppend<T>(a: seq<multiset<T>>, b: seq<multiset<T>>)
    ensures Sum(a + b) == Sum(a) + Sum(b)
  {
    if a == [] {
      assert a + b == b;
    } else {
      assert (a + b)[1..] == a[1..] + b;
      SumAppend(a[1..], b);
    }
  }

  lemma {:induction false} SumTake<T>(b: seq<multiset<T>>, j: nat)
    requires j < |b|
    ensures Sum(b) == b[j] + Sum(Drop(b, j))
  {
    if j > 0 {
      SumTake(b[1..], j - 1);
      assert Drop(b, j)[0] == b[0] && Drop(b, j)[1..] == Drop(b[1..], j - 1);
    } else {
      assert Drop(b, 0) == b[1..];
    }
  }

  /** What is left of a reordering without the first item. */
  lemma RestPerm<T>(a: seq<T>, b: seq<T>, j: nat)
    requires Perm(a, b) && a != [] && j < |b| && b[j] == a[0]
    ensures Perm(a[1..], Drop(b, j))
  {
    HeadTail(a);
    Without(b, j);
    BagCancel(a[1..], Drop(b, j), a, b, a[0]);
  }

  lemma {:induction false} SumPerm<T>(a: seq<multiset<T>>, b: seq<multiset<T>>)
    requires Perm(a, b)
    ensures Sum(a) == Sum(b)
  {
    if a == [] {
      PermMembers(a, b);
    } else {
      var j := FindHead(a, b);
      RestPerm(a, b, j);
      SumPerm(a[1..], Drop(b, j));
      SumTake(b, j);
    }
  }

  lemma NoDupAppend<T>(a: seq<T>, b: seq<T>)
    ensures NoDup(a + b) <==> NoDup(a) && NoDup(b) && forall x | x in a :: x !in b
  {
    if NoDup(a) && NoDup(b) && forall x | x in a :: x !in b {
      forall i, j | 0 <= i < j < |a + b| ensures (a + b)[i] != (a + b)[j] {
        assert i < |a| ==> (a + b)[i] in a;
        assert j >= |a| ==> (a + b)[j] in b;
      }
    }
    if NoDup(a + b) {
      forall i, j | 0 <= i < j < |a| ensures a[i] != a[j] {
        assert a[i] == (a + b)[i] && a[j] == (a + b)[j];
      }
      forall i, j | 0 <= i < j < |b| ensures b[i] != b[j] {
        assert b[i] == (a + b)[|a| + i] && b[j] == (a + b)[|a| + j];
      }
      forall x | x in a ensures x !in b {
        var i :| 0 <= i < |a| && a[i] == x;
        forall j | 0 <= j < |b| ensures b[j] != x {
          assert (a + b)[i] != (a + b)[|a| + j];
        }
      }
    }
  }

  lemma NoDupSnoc<T>(a: seq<T>, x: T)
    ensures NoDup(a + [x]) <==> NoDup(a) && x !in a
  {
    NoDupAppend(a, [x]);
  }

  // ----- concatenations -----

  function FlatMap<A, B>(f: A -> seq<B>, s: seq<A>): seq<B> {
    if s == [] then [] else FlatMap(f, s[..|s| - 1]) + f(s[|s| - 1])
  }

  lemma FlatMapSnoc<A, B>(f: A -> seq<B>, s: seq<A>, x: A)
    ensures FlatMap(f, s + [x]) == FlatMap(f, s) + f(x)
  {
    assert (s + [x])[..|s|] == s;
  }

  lemma {:induction false} FlatMapSource<A, B>(f: A -> seq<B>, items: seq<A>, y: B) returns (x: A)
    requires y in FlatMap(f, items)
    ensures x in items && y in f(x)
  {
    var n := |items| - 1;
    if y in f(items[n]) {
      x := items[n];
    } else {
      x := FlatMapSource(f, items[..n], y);
    }
  }

  lemma {:induction false} FlatMapHas<A, B>(f: A -> seq<B>, items: seq<A>, i: int, y: B)
    requires 0 <= i < |items| && y in f(items[i])
    ensures y in FlatMap(f, items)
  {
    if i < |items| - 1 {
      FlatMapHas(f, items[..|items| - 1], i, y);
    }
  }

  lemma {:induction false} FlatMapNoDup<A, B>(f: A -> seq<B>, s: seq<A>, x: A)
    requires NoDup(FlatMap(f, s)) && x in s
    ensures NoDup(f(x))
  {
    var n := |s| - 1;
    NoDupAppend(FlatMap(f, s[..n]), f(s[n]));
    if x != s[n] {
      assert x in s[..n];
      FlatMapNoDup(f, s[..n], x);
    }
  }

  lemma {:induction false} FlatMapSame<A, B, C>(f: A -> seq<C>, s: seq<A>, g: B -> seq<C>, t: seq<B>)
    requires |s| == |t| && forall i | 0 <= i < |s| :: f(s[i]) == g(t[i])
    ensures FlatMap(f, s) == FlatMap(g, t)
  {
    if s != [] {
      FlatMapSame(f, s[..|s| - 1], g, t[..|t| - 1]);
    }
  }

  function Bagged<A, B>(f: A -> seq<B>): A -> multiset<B> {
    a => multiset(f(a))
  }

  lemma {:induction false} FlatMapBag<A, B>(f: A -> seq<B>, s: seq<A>)
    ensures multiset(FlatMap(f, s)) == Sum(Map(Bagged(f), s))
  {
    if s != [] {
      var rest, x := s[..|s| - 1], s[|s| - 1];
      FlatMapBag(f, rest);
      assert s == rest + [x];
      MapAppend(Bagged(f), rest, [x]);
      SumAppend(Map(Bagged(f), rest), Map(Bagged(f), [x]));
      assert Map(Bagged(f), [x]) == [multiset(f(x))];
      assert [multiset(f(x))][1..] == [];
    }
  }

  /** Concatenations of lists that are pairwise reorderings of each other. */
  lemma FlatMapPerm<A, B>(f: A -> seq<B>, a: seq<A>, b: seq<A>)
    requires Perm(Map(Bagged(f), a), Map(Bagged(f), b))
    ensures Perm(FlatMap(f, a), FlatMap(f, b))
  {
    FlatMapBag(f, a);
    FlatMapBag(f, b);
    SumPerm(Map(Bagged(f), a), Map(Bagged(f), b));
  }

  /** Listing a head and a tail for each item, together or one after the other. */
  lemma {:induction false} FlatMapRegroup<A, B>(g: A -> B, f: A -> seq<B>, h: A -> seq<B>, s: seq<A>)
    requires forall x | x in s :: h(x) == [g(x)] + f(x)
    ensures Perm(Map(g, s) + FlatMap(f, s), FlatMap(h, s))
  {
    if s != [] {
      var rest, x := s[..|s| - 1], s[|s| - 1];
      assert s == rest + [x];
      FlatMapRegroup(g, f, h, rest);
      MapAppend(g, rest, [x]);
      assert Map(g, [x]) == [g(x)];
      Regroup(Map(g, rest), [g(x)], FlatMap(f, rest), f(x), FlatMap(h, rest));
    }
  }

  lemma Regroup<T>(a: seq<T>, b: seq<T>, c: seq<T>, d: seq<T>, e: seq<T>)
    requires Perm(a + c, e)
    ensures Perm((a + b) + (c + d), e + (b + d))
  {
  }

  /** If `f` decides the bag of `g`, lists with the same `f`-values have reordered concatenations. */
  lemma FlatMapDecides<A, B, C>(f: A -> B, g: A -> seq<C>, a: seq<A>, b: seq<A>)
    requires Perm(Map(f, a), Map(f, b)) && Decides(f, Bagged(g), a, b)
    ensures Perm(FlatMap(g, a), FlatMap(g, b))
  {
    MapDecides(f, Bagged(g), a, b);
    FlatMapPerm(g, a, b);
  }
}
