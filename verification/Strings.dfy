/** Code-unit order of strings, and sorting by a string key. */
module Strings {
  import opened Seqs

  /** The order of `<` and `<=` on JavaScript strings. */
  predicate StrLe(a: string, b: string) {
    if a == "" then true
    else if b == "" then false
    else if a[0] == b[0] then StrLe(a[1..], b[1..])
    else a[0] < b[0]
  }

  predicate StrLt(a: string, b: string) {
    a != b && StrLe(a, b)
  }

  /** A prefix comes first; otherwise the first difference decides, by code. */
  ghost predicate Precedes(a: string, b: string) {
    a <= b || exists i | 0 <= i < |a| && i < |b| :: a[..i] == b[..i] && a[i] as int < b[i] as int
  }

  lemma {:induction false} SameHead(c: char, a: string, b: string)
    ensures Precedes([c] + a, [c] + b) <==> Precedes(a, b)
  {
    var (x, y) := ([c] + a, [c] + b);
    assert x[1..] == a && y[1..] == b;
    if Precedes(a, b) && !(a <= b) {
      var i :| 0 <= i < |a| && i < |b| && a[..i] == b[..i] && a[i] as int < b[i] as int;
      assert x[..i + 1] == [c] + a[..i] && y[..i + 1] == [c] + b[..i] && x[i + 1] == a[i] && y[i + 1] == b[i];
    }
    if Precedes(x, y) && !(x <= y) {
      var i :| 0 <= i < |x| && i < |y| && x[..i] == y[..i] && x[i] as int < y[i] as int;
      assert i > 0 && a[..i - 1] == x[..i][1..] && b[..i - 1] == y[..i][1..] && a[i - 1] == x[i] && b[i - 1] == y[i];
    }
  }

  lemma {:induction false} OtherHead(a: string, b: string)
    requires a != "" && b != "" && a[0] != b[0]
    ensures Precedes(a, b) <==> a[0] as int < b[0] as int
  {
    assert a[..0] == b[..0];
    if i :| 0 <= i < |a| && i < |b| && a[..i] == b[..i] && a[i] as int < b[i] as int {
      assert i > 0 ==> a[..i][0] == b[..i][0];
    }
  }

  lemma {:induction false} StrLeMeans(a: string, b: string)
    ensures StrLe(a, b) <==> Precedes(a, b)
  {
    if a != "" && b != "" {
      if a[0] == b[0] {
        StrLeMeans(a[1..], b[1..]);
        SameHead(a[0], a[1..], b[1..]);
        assert a == [a[0]] + a[1..] && b == [a[0]] + b[1..];
      } else {
        OtherHead(a, b);
      }
    }
  }

  lemma {:induction false} StrLeReflexive(a: string)
    ensures StrLe(a, a)
  {
    if a != "" {
      StrLeReflexive(a[1..]);
    }
  }

  lemma {:induction false} StrLeTotal(a: string, b: string)
    ensures StrLe(a, b) || StrLe(b, a)
  {
    if a != "" && b != "" && a[0] == b[0] {
      StrLeTotal(a[1..], b[1..]);
    }
  }

  lemma {:induction false} StrLeAntisymmetric(a: string, b: string)
    requires StrLe(a, b) && StrLe(b, a)
    ensures a == b
  {
    if a != "" && b != "" {
      StrLeAntisymmetric(a[1..], b[1..]);
      assert a == [a[0]] + a[1..] && b == [b[0]] + b[1..];
    }
  }

  lemma {:induction false} StrLeTransitive(a: string, b: string, c: string)
    requires StrLe(a, b) && StrLe(b, c)
    ensures StrLe(a, c)
  {
    if a != "" && b != "" && c != "" && a[0] == b[0] && b[0] == c[0] {
      StrLeTransitive(a[1..], b[1..], c[1..]);
    }
  }

  ghost predicate SortedBy<T>(key: T -> string, s: seq<T>) {
    forall i, j | 0 <= i < j < |s| :: StrLe(key(s[i]), key(s[j]))
  }

  function InsertBy<T>(key: T -> string, x: T, s: seq<T>): seq<T> {
    if s == [] then [x]
    else if StrLe(key(x), key(s[0])) then [x] + s
    else [s[0]] + InsertBy(key, x, s[1..])
  }

  /** A stable sort by a string key, as `Array.prototype.sort` with a comparator is. */
  function SortBy<T>(key: T -> string, s: seq<T>): seq<T> {
    if s == [] then [] else InsertBy(key, s[0], SortBy(key, s[1..]))
  }

  lemma {:induction false} InsertByKeeps<T>(key: T -> string, x: T, s: seq<T>)
    ensures multiset(InsertBy(key, x, s)) == multiset{x} + multiset(s)
  {
    if s != [] {
      HeadTail(s);
      InsertByKeeps(key, x, s[1..]);
      if !StrLe(key(x), key(s[0])) {
        HeadTail(InsertBy(key, x, s));
        assert InsertBy(key, x, s)[1..] == InsertBy(key, x, s[1..]);
      }
    }
  }

  lemma PrependSorted<T>(key: T -> string, x: T, t: seq<T>)
    requires SortedBy(key, t) && forall y | y in t :: StrLe(key(x), key(y))
    ensures SortedBy(key, [x] + t)
  {
    var r := [x] + t;
    forall i, j | 0 <= i < j < |r| ensures StrLe(key(r[i]), key(r[j])) {
      assert r[j] == t[j - 1];
    }
  }

  /** The head of a sorted list is least. */
  lemma HeadLeast<T>(key: T -> string, s: seq<T>)
    requires s != [] && SortedBy(key, s)
    ensures SortedBy(key, s[1..]) && forall y | y in s[1..] :: StrLe(key(s[0]), key(y))
  {
    forall y | y in s[1..] ensures StrLe(key(s[0]), key(y)) {
      var i :| 0 <= i < |s[1..]| && s[1..][i] == y;
      assert StrLe(key(s[0]), key(s[i + 1]));
    }
  }

  lemma {:induction false} InsertBySorted<T>(key: T -> string, x: T, s: seq<T>)
    requires SortedBy(key, s)
    ensures SortedBy(key, InsertBy(key, x, s))
  {
    if s == [] {
    } else {
      HeadLeast(key, s);
      if StrLe(key(x), key(s[0])) {
        forall y | y in s ensures StrLe(key(x), key(y)) {
          if y in s[1..] {
            StrLeTransitive(key(x), key(s[0]), key(y));
          }
        }
        PrependSorted(key, x, s);
      } else {
        StrLeTotal(key(x), key(s[0]));
        var t := InsertBy(key, x, s[1..]);
        InsertBySorted(key, x, s[1..]);
        InsertByKeeps(key, x, s[1..]);
        forall y | y in t ensures StrLe(key(s[0]), key(y)) {
          assert y in multiset(t);
          assert y == x || y in s[1..];
        }
        PrependSorted(key, s[0], t);
      }
    }
  }

  /** Sorting reorders and orders. */
  lemma {:induction false} SortByCorrect<T>(key: T -> string, s: seq<T>)
    ensures Perm(s, SortBy(key, s)) && SortedBy(key, SortBy(key, s))
  {
    if s != [] {
      HeadTail(s);
      SortByCorrect(key, s[1..]);
      InsertByKeeps(key, s[0], SortBy(key, s[1..]));
      InsertBySorted(key, s[0], SortBy(key, s[1..]));
    }
  }

  /** A sorted list is determined by its bag when the key tells its items apart. */
  lemma {:induction false} SortedUnique<T>(key: T -> string, a: seq<T>, b: seq<T>)
    requires SortedBy(key, a) && SortedBy(key, b) && Perm(a, b)
    requires forall x, y | x in a && y in a && key(x) == key(y) :: x == y
    ensures a == b
  {
    if a == [] {
      PermMembers(a, b);
    } else {
      var i := FindHead(a, b);
      var j := FindHead(b, a);
      assert a[0] == b[0] by {
        StrLeReflexive(key(a[0]));
        assert StrLe(key(a[0]), key(a[j]));
        assert StrLe(key(b[0]), key(b[i]));
        StrLeAntisymmetric(key(a[0]), key(b[0]));
      }
      HeadTail(a);
      HeadTail(b);
      BagCancel(a[1..], b[1..], a, b, a[0]);
      SortedUnique(key, a[1..], b[1..]);
    }
  }

  /** Reordering the input of a sort with a distinguishing key does not change its result. */
  lemma SortByOrderBlind<T>(key: T -> string, a: seq<T>, b: seq<T>)
    requires Perm(a, b)
    requires forall x, y | x in a && y in a && key(x) == key(y) :: x == y
    ensures SortBy(key, a) == SortBy(key, b)
  {
    var sa, sb := SortBy(key, a), SortBy(key, b);
    assert Perm(sa, sb) && SortedBy(key, sa) && SortedBy(key, sb) && Perm(a, sa) by {
      SortByCorrect(key, a);
      SortByCorrect(key, b);
    }
    PermMembers(a, sa);
    SortedUnique(key, sa, sb);
  }

  ghost predicate KeyKept<A, B>(f: A -> B, key: A -> string, key': B -> string, s: seq<A>) {
    forall a | a in s :: key'(f(a)) == key(a)
  }

  lemma MapPush<A, B>(f: A -> B, x: A, s: seq<A>)
    ensures Map(f, [x] + s) == [f(x)] + Map(f, s)
  {
  }

  lemma {:induction false} InsertByMapped<A, B>(f: A -> B, key: A -> string, key': B -> string, x: A, s: seq<A>)
    requires key'(f(x)) == key(x) && KeyKept(f, key, key', s)
    ensures Map(f, InsertBy(key, x, s)) == InsertBy(key', f(x), Map(f, s))
  {
    if s == [] {
      MapPush(f, x, []);
      assert [x] + [] == [x];
    } else {
      var t := Map(f, s);
      MapCons(f, s);
      assert s[0] in s && t[0] == f(s[0]) && t[1..] == Map(f, s[1..]);
      if StrLe(key(x), key(s[0])) {
        MapPush(f, x, s);
      } else {
        forall a | a in s[1..] ensures key'(f(a)) == key(a) {
          assert a in s;
        }
        InsertByMapped(f, key, key', x, s[1..]);
        MapPush(f, s[0], InsertBy(key, x, s[1..]));
      }
    }
  }

  /** Sorting and mapping commute when the mapping keeps the sort key. */
  lemma {:induction false} SortByMapped<A, B>(f: A -> B, key: A -> string, key': B -> string, s: seq<A>)
    requires KeyKept(f, key, key', s)
    ensures Map(f, SortBy(key, s)) == SortBy(key', Map(f, s))
  {
    if s != [] {
      var x, rest := s[0], s[1..];
      assert x in s;
      KeyKeptByRest(f, key, key', s);
      SortByMapped(f, key, key', rest);
      InsertByMapped(f, key, key', x, SortBy(key, rest));
      assert SortBy(key, s) == InsertBy(key, x, SortBy(key, rest));
      MapCons(f, s);
      assert SortBy(key', [f(x)] + Map(f, rest)) == InsertBy(key', f(x), SortBy(key', Map(f, rest))) by {
        assert ([f(x)] + Map(f, rest))[1..] == Map(f, rest);
      }
    }
  }

  lemma MapCons<A, B>(f: A -> B, s: seq<A>)
    requires s != []
    ensures Map(f, s) == [f(s[0])] + Map(f, s[1..])
  {
  }

  lemma KeyKeptByRest<A, B>(f: A -> B, key: A -> string, key': B -> string, s: seq<A>)
    requires s != [] && KeyKept(f, key, key', s)
    ensures KeyKept(f, key, key', s[1..]) && KeyKept(f, key, key', SortBy(key, s[1..]))
  {
    forall a | a in s[1..] ensures key'(f(a)) == key(a) {
      assert a in s;
    }
    var r := SortBy(key, s[1..]);
    SortByCorrect(key, s[1..]);
    forall a | a in r ensures key'(f(a)) == key(a) {
      assert a in multiset(r) && a in multiset(s[1..]);
      assert a in s[1..] && a in s;
    }
  }

  /** The key that sorts strings by themselves. */
  function Self(s: string): string { s }

  // ----- joining with NUL -----

  function NulJoin(key: seq<string>): string {
    if key == [] then ""
    else if |key| == 1 then key[0]
    else key[0] + "\0" + NulJoin(key[1..])
  }

  predicate NulFree(s: string) {
    forall c | c in s :: c != '\0'
  }

  lemma {:induction false} NulSplit(a: string, b: string, ra: string, rb: string)
    requires NulFree(a) && NulFree(b)
    requires a + "\0" + ra == b + "\0" + rb
    ensures a == b && ra == rb
  {
    var x, y := a + "\0" + ra, b + "\0" + rb;
    assert a != "" ==> x[0] == a[0] && a[0] in a;
    assert b != "" ==> y[0] == b[0] && b[0] in b;
    assert a == "" ==> x[0] == '\0';
    assert b == "" ==> y[0] == '\0';
    if a == "" {
      assert ra == x[1..] && rb == y[1..];
    } else {
      assert a[1..] + "\0" + ra == x[1..] && b[1..] + "\0" + rb == y[1..];
      forall c | c in a[1..] ensures c != '\0' { assert c in a; }
      forall c | c in b[1..] ensures c != '\0' { assert c in b; }
      NulSplit(a[1..], b[1..], ra, rb);
      assert a == [a[0]] + a[1..] && b == [b[0]] + b[1..];
    }
  }

  lemma NulVisible(a: string, b: string, rest: string)
    requires NulFree(a)
    ensures a != b + "\0" + rest
  {
    var x := b + "\0" + rest;
    assert x[|b|] == '\0' && x[|b|] in x;
  }

  /** Joining non-empty lists of NUL-free names with NUL loses nothing. */
  lemma {:induction false} NulJoinInjective(a: seq<string>, b: seq<string>)
    requires a != [] && b != [] && NulJoin(a) == NulJoin(b)
    requires forall s | s in a :: NulFree(s)
    requires forall s | s in b :: NulFree(s)
    ensures a == b
  {
    assert a[0] in a && b[0] in b;
    if |a| == 1 && |b| == 1 {
      assert a == [a[0]] && b == [b[0]];
    } else if |a| == 1 {
      NulVisible(a[0], b[0], NulJoin(b[1..]));
    } else if |b| == 1 {
      NulVisible(b[0], a[0], NulJoin(a[1..]));
    } else {
      NulSplit(a[0], b[0], NulJoin(a[1..]), NulJoin(b[1..]));
      NulJoinInjective(a[1..], b[1..]);
      assert a == [a[0]] + a[1..] && b == [b[0]] + b[1..];
    }
  }
}
