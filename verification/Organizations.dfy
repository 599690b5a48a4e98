/** Which organisations a set of directory grants authorises: the Go loops and the Rust ordered set. */
module Organizations {
  import opened Seqs
  import opened Strings
  import opened Json

  datatype Grant = Grant(organizationId: string, projectIds: Option<seq<string>>, scopes: seq<string>, roles: seq<string>)

  const DIRECTORY_ADMIN_ROLE := "directory_admin"

  predicate Allows(g: Grant, scope: string) {
    DIRECTORY_ADMIN_ROLE in g.roles && scope in g.scopes && '*' !in scope
  }

  predicate Requested(requested: Option<seq<string>>, id: string) {
    requested.None? || id in requested.value
  }

  /** The rule: a directory administrator's grant of exactly this scope, for a whole organisation that was asked for. */
  predicate Authorizes(requested: Option<seq<string>>, scope: string, g: Grant) {
    && (exists role | role in g.roles :: role == "directory_admin")
    && (exists granted | granted in g.scopes :: granted == scope) && (forall c | c in scope :: c != '*')
    && g.projectIds == None
    && match requested { case None => true case Some(ids) => exists id | id in ids :: id == g.organizationId }
  }

  function OrganizationOf(g: Grant): string { g.organizationId }

  /** The reference definition. */
  function Authorized(requested: Option<seq<string>>, scope: string, grants: seq<Grant>): set<string> {
    set g | g in grants && Authorizes(requested, scope, g) :: g.organizationId
  }

  ghost predicate Ascending(ids: seq<string>) {
    forall i, k | 0 <= i < k < |ids| :: StrLt(ids[i], ids[k])
  }

  /** A strictly ascending list is its set. */
  lemma {:induction false} AscendingUnique(a: seq<string>, b: seq<string>)
    requires Ascending(a) && Ascending(b) && ToSet(a) == ToSet(b)
    ensures a == b
  {
    AscendingSorted(a);
    AscendingSorted(b);
    NoDupCounts(a);
    NoDupCounts(b);
    forall x ensures multiset(a)[x] == multiset(b)[x] {
      assert x in a <==> x in ToSet(a);
      assert x in b <==> x in ToSet(b);
      assert x in a <==> x in multiset(a);
      assert x in b <==> x in multiset(b);
    }
    assert multiset(a) == multiset(b);
    SortedUnique(Self, a, b);
  }

  lemma AscendingSorted(a: seq<string>)
    requires Ascending(a)
    ensures SortedBy(Self, a) && NoDup(a)
  {
    forall i, k | 0 <= i < k < |a| ensures StrLe(Self(a[i]), Self(a[k])) && a[i] != a[k] {
      assert StrLt(a[i], a[k]);
    }
  }

  lemma SortedAscending(a: seq<string>)
    requires SortedBy(Self, a) && NoDup(a)
    ensures Ascending(a)
  {
    forall i, k | 0 <= i < k < |a| ensures StrLt(a[i], a[k]) {
      assert StrLe(Self(a[i]), Self(a[k])) && a[i] != a[k];
      if StrLe(a[k], a[i]) {
        StrLeAntisymmetric(a[i], a[k]);
      }
    }
  }

  // ----- Rust: filters into an ordered set -----

  function Filter<T>(keep: T -> bool, items: seq<T>): seq<T> {
    if items == [] then []
    else Filter(keep, items[..|items| - 1]) + if keep(items[|items| - 1]) then [items[|items| - 1]] else []
  }

  lemma {:induction false} FilterMembers<T>(keep: T -> bool, items: seq<T>)
    ensures forall x :: x in Filter(keep, items) <==> x in items && keep(x)
  {
    if items != [] {
      var (rest, last) := (items[..|items| - 1], items[|items| - 1]);
      FilterMembers(keep, rest);
      assert items == rest + [last];
    }
  }

  /** Inserting into an ordered set. */
  function Insert(x: string, ordered: seq<string>): seq<string> {
    if ordered == [] then [x]
    else if x == ordered[0] then ordered
    else if StrLt(x, ordered[0]) then [x] + ordered
    else [ordered[0]] + Insert(x, ordered[1..])
  }

  function Collect(ids: seq<string>): seq<string> {
    if ids == [] then [] else Insert(ids[|ids| - 1], Collect(ids[..|ids| - 1]))
  }

  lemma {:induction false} InsertKeeps(x: string, ordered: seq<string>)
    requires Ascending(ordered)
    ensures Ascending(Insert(x, ordered)) && ToSet(Insert(x, ordered)) == ToSet(ordered) + {x}
  {
    if ordered != [] && x != ordered[0] {
      var (head, rest) := (ordered[0], ordered[1..]);
      assert ordered == [head] + rest;
      if StrLt(x, head) {
        Precedes(x, ordered);
      } else {
        InsertKeeps(x, rest);
        StrLeTotal(x, head);
        var r := Insert(x, rest);
        assert StrLt(head, x);
        forall y | y in r ensures StrLt(head, y) {
          assert y in ToSet(r);
          assert y in ToSet(rest) + {x};
          if y != x {
            assert y in rest;
            HeadPrecedes(ordered, y);
          }
        }
        Prepend(head, r);
      }
    }
  }

  lemma HeadPrecedes(ordered: seq<string>, y: string)
    requires Ascending(ordered) && ordered != [] && y in ordered[1..]
    ensures StrLt(ordered[0], y)
  {
    var k :| 0 <= k < |ordered[1..]| && ordered[1..][k] == y;
    assert StrLt(ordered[0], ordered[k + 1]);
  }

  lemma Prepend(head: string, rest: seq<string>)
    requires Ascending(rest) && forall y | y in rest :: StrLt(head, y)
    ensures Ascending([head] + rest) && ToSet([head] + rest) == ToSet(rest) + {head}
  {
    var all := [head] + rest;
    forall i, k | 0 <= i < k < |all| ensures StrLt(all[i], all[k]) {
      assert all[k] == rest[k - 1];
    }
  }

  lemma Precedes(x: string, ordered: seq<string>)
    requires Ascending(ordered) && ordered != [] && StrLt(x, ordered[0])
    ensures Ascending([x] + ordered) && ToSet([x] + ordered) == ToSet(ordered) + {x}
  {
    forall y | y in ordered ensures StrLt(x, y) {
      var k :| 0 <= k < |ordered| && ordered[k] == y;
      if k > 0 {
        assert StrLt(ordered[0], ordered[k]);
        StrLeTransitive(x, ordered[0], y);
        if x == y {
          StrLeAntisymmetric(x, ordered[0]);
        }
      }
    }
    Prepend(x, ordered);
  }

  lemma {:induction false} CollectIs(ids: seq<string>)
    ensures Ascending(Collect(ids)) && ToSet(Collect(ids)) == ToSet(ids)
  {
    if ids != [] {
      var (rest, last) := (ids[..|ids| - 1], ids[|ids| - 1]);
      CollectIs(rest);
      InsertKeeps(last, Collect(rest));
      assert ids == rest + [last];
    }
  }

  function InRequest(requested: Option<seq<string>>, scope: string): Grant -> bool {
    (g: Grant) => Allows(g, scope) && g.projectIds.None? && Requested(requested, g.organizationId)
  }

  function Rust(requested: Option<seq<string>>, scope: string, grants: seq<Grant>): seq<string> {
    Collect(Map(OrganizationOf, Filter(InRequest(requested, scope), grants)))
  }

  lemma OrganizationsOfFiltered(requested: Option<seq<string>>, scope: string, grants: seq<Grant>)
    ensures ToSet(Map(OrganizationOf, Filter(InRequest(requested, scope), grants))) == Authorized(requested, scope, grants)
  {
    var kept := Filter(InRequest(requested, scope), grants);
    FilterMembers(InRequest(requested, scope), grants);
    forall id | id in Authorized(requested, scope, grants) ensures id in Map(OrganizationOf, kept) {
      var g :| g in grants && Authorizes(requested, scope, g) && g.organizationId == id;
      assert InRequest(requested, scope)(g);
      MapIn(OrganizationOf, kept, g);
    }
    forall id | id in Map(OrganizationOf, kept) ensures id in Authorized(requested, scope, grants) {
      var g := MapInInverse(OrganizationOf, kept, id);
    }
  }

  /** Exactly the authorised organisations, in strictly ascending order. */
  lemma RustIsExact(requested: Option<seq<string>>, scope: string, grants: seq<Grant>)
    ensures Ascending(Rust(requested, scope, grants)) && ToSet(Rust(requested, scope, grants)) == Authorized(requested, scope, grants)
  {
    OrganizationsOfFiltered(requested, scope, grants);
    CollectIs(Map(OrganizationOf, Filter(InRequest(requested, scope), grants)));
  }

  // ----- Go: loops over slices; `None` is a nil slice or set -----

  method FilterSlice<T>(items: Option<seq<T>>, keep: T -> bool) returns (out: Option<seq<T>>)
    ensures out == if items.None? then None else Some(Filter(keep, items.value))
  {
    if items.None? {
      return None;
    }
    var kept := [];
    for i := 0 to |items.value|
      invariant kept == Filter(keep, items.value[..i])
    {
      if keep(items.value[i]) {
        kept := kept + [items.value[i]];
      }
      assert items.value[..i + 1][..i] == items.value[..i];
    }
    assert items.value[..|items.value|] == items.value;
    out := Some(kept);
  }

  method MapSlice<A, B>(items: Option<seq<A>>, f: A -> B) returns (out: Option<seq<B>>)
    ensures out == if items.None? then None else Some(Map(f, items.value))
  {
    if items.None? {
      return None;
    }
    var mapped := [];
    for i := 0 to |items.value|
      invariant mapped == Map(f, items.value)[..i]
    {
      mapped := mapped + [f(items.value[i])];
    }
    assert mapped == Map(f, items.value);
    out := Some(mapped);
  }

  method SetOf(ids: Option<seq<string>>) returns (out: Option<set<string>>)
    ensures out == if ids.None? then None else Some(ToSet(ids.value))
  {
    if ids.None? {
      return None;
    }
    var members: set<string> := {};
    for i := 0 to |ids.value|
      invariant members == ToSet(ids.value[..i])
    {
      members := members + {ids.value[i]};
      assert ids.value[..i + 1] == ids.value[..i] + [ids.value[i]];
    }
    assert ids.value[..|ids.value|] == ids.value;
    out := Some(members);
  }

  lemma ToSetSnoc(ids: seq<string>, id: string)
    ensures ToSet(ids + [id]) == ToSet(ids) + {id}
  {
  }

  /** The set is walked in no particular order before the result is sorted. */
  method SortedUniqueStrings(ids: Option<seq<string>>) returns (out: seq<string>)
    ensures Ascending(out) && ToSet(out) == if ids.None? then {} else ToSet(ids.value)
  {
    var distinct := SetOf(ids);
    var left := if distinct.None? then {} else distinct.value;
    ghost var all := left;
    out := [];
    while left != {}
      invariant left <= all && NoDup(out) && ToSet(out) == all - left
      decreases |left|
    {
      var id :| id in left;
      assert id !in ToSet(out);
      NoDupSnoc(out, id);
      ToSetSnoc(out, id);
      out := out + [id];
      left := left - {id};
    }
    SortedDistinct(out);
    out := SortBy(Self, out);
  }

  lemma SortedDistinct(ids: seq<string>)
    requires NoDup(ids)
    ensures Ascending(SortBy(Self, ids)) && ToSet(SortBy(Self, ids)) == ToSet(ids)
  {
    var sorted := SortBy(Self, ids);
    SortByCorrect(Self, ids);
    PermNoDup(ids, sorted);
    PermMembers(ids, sorted);
    SortedAscending(sorted);
  }

  /** A nil request admits every organisation, any other request its members only. */
  function InSet(requested: Option<set<string>>): string -> bool {
    (id: string) => requested.None? || id in requested.value
  }

  function GrantedIn(inRequest: string -> bool, scope: string): Grant -> bool {
    (g: Grant) => Allows(g, scope) && g.projectIds.None? && inRequest(g.organizationId)
  }

  lemma {:induction false} FilterSame<T>(f: T -> bool, g: T -> bool, items: seq<T>)
    requires forall x | x in items :: f(x) == g(x)
    ensures Filter(f, items) == Filter(g, items)
  {
    if items != [] {
      FilterSame(f, g, items[..|items| - 1]);
      assert items[|items| - 1] in items;
    }
  }

  method AuthorizedDirectoryOrganizations(requested: Option<seq<string>>, scope: string, grants: Option<seq<Grant>>)
    returns (out: seq<string>)
    ensures var given := if grants.None? then [] else grants.value;
            Ascending(out) && ToSet(out) == Authorized(requested, scope, given) && out == Rust(requested, scope, given)
  {
    var members := SetOf(requested);
    var keep := GrantedIn(InSet(members), scope);
    var kept := FilterSlice(grants, keep);
    var ids := MapSlice(kept, OrganizationOf);
    out := SortedUniqueStrings(ids);
    ghost var given := if grants.None? then [] else grants.value;
    forall g | g in given ensures keep(g) == InRequest(requested, scope)(g) {}
    FilterSame(keep, InRequest(requested, scope), given);
    OrganizationsOfFiltered(requested, scope, given);
    RustIsExact(requested, scope, given);
    AscendingUnique(out, Rust(requested, scope, given));
  }

  // ----- what does not matter -----

  /** Repeating or reordering grants changes nothing. */
  lemma GrantOrderDoesNotMatter(requested: Option<seq<string>>, scope: string, a: seq<Grant>, b: seq<Grant>)
    requires forall g :: g in a <==> g in b
    ensures Rust(requested, scope, a) == Rust(requested, scope, b)
  {
    RustIsExact(requested, scope, a);
    RustIsExact(requested, scope, b);
    AscendingUnique(Rust(requested, scope, a), Rust(requested, scope, b));
  }

  /** Asking for more organisations, none of them granted, reveals nothing. */
  lemma UngrantedRequestsDoNotMatter(requested: seq<string>, extra: seq<string>, scope: string, grants: seq<Grant>)
    requires forall id | id in extra :: id !in Authorized(None, scope, grants)
    ensures Rust(Some(requested + extra), scope, grants) == Rust(Some(requested), scope, grants)
  {
    RustIsExact(Some(requested + extra), scope, grants);
    RustIsExact(Some(requested), scope, grants);
    forall g | g in grants
      ensures Authorizes(Some(requested + extra), scope, g) <==> Authorizes(Some(requested), scope, g)
    {
      assert g.organizationId in requested + extra <==> g.organizationId in requested || g.organizationId in extra;
      if Authorizes(Some(requested + extra), scope, g) && g.organizationId in extra {
        assert Authorizes(None, scope, g);
      }
    }
    AscendingUnique(Rust(Some(requested + extra), scope, grants), Rust(Some(requested), scope, grants));
  }
}
