/** JSON instances as validators see them, and the column values that stand for them. */
module Values {
  import opened Characters
  import opened Seqs
  import opened Strings
  import opened Numbers
  import opened Document
  import opened Json

  /** A parsed JSON text that still tells an integer literal from one written with a fraction or an exponent. */
  datatype Instance =
    | JsonNull
    | JsonBool(b: bool)
    | JsonInt(i: int)
    | JsonFloat(x: real)
    | JsonString(s: string)
    | JsonArray(items: seq<Instance>)
    | JsonObject(members: map<string, Instance>)

  predicate IsNumber(j: Instance) { j.JsonInt? || j.JsonFloat? }

  function NumberOf(j: Instance): real
    requires IsNumber(j)
  {
    if j.JsonInt? then j.i as real else j.x
  }

  /** The `integer` of JSON Schema: any number without a fractional part, however it is written. */
  predicate IsWhole(j: Instance) {
    IsNumber(j) && NumberOf(j).Floor as real == NumberOf(j)
  }

  function WholeOf(j: Instance): int
    requires IsWhole(j)
  {
    NumberOf(j).Floor
  }

  // ----- uuid texts -----

  predicate LowerHex(c: char) { Digit(c) || 'a' <= c <= 'f' }
  predicate Hex(c: char) { LowerHex(c) || 'A' <= c <= 'F' }
  predicate HyphenAt(i: int) { i == 8 || i == 13 || i == 18 || i == 23 }

  /** Five groups of hexadecimal digits: 8, 4, 4, 4 and 12. */
  predicate UuidText(s: string) {
    |s| == 36 && forall i | 0 <= i < 36 :: if HyphenAt(i) then s[i] == '-' else Hex(s[i])
  }

  predicate CanonicalUuid(u: string) {
    |u| == 36 && forall i | 0 <= i < 36 :: if HyphenAt(i) then u[i] == '-' else LowerHex(u[i])
  }

  lemma CanonicalIsText(s: string)
    requires CanonicalUuid(s)
    ensures UuidText(s)
  {
    forall i | 0 <= i < 36 ensures if HyphenAt(i) then s[i] == '-' else Hex(s[i]) {
      assert if HyphenAt(i) then s[i] == '-' else LowerHex(s[i]);
    }
  }

  // ----- how PostgreSQL reads a uuid: groups of four digits, a hyphen after any but the last, braces around all -----

  predicate Group(s: string) { |s| >= 4 && Hex(s[0]) && Hex(s[1]) && Hex(s[2]) && Hex(s[3]) }

  /** What follows a group when `n` groups are still to be read, this one included. */
  function AfterGroup(s: string, n: nat): string
    requires |s| >= 4
  {
    if n > 1 && |s| > 4 && s[4] == '-' then s[5..] else s[4..]
  }

  /** The digits of `n` groups in lower case. */
  function Groups(s: string, n: nat): Option<string>
    decreases n
  {
    if n == 0 then if s == "" then Some("") else None
    else if !Group(s) then None
    else
      var rest := Groups(AfterGroup(s, n), n - 1);
      if rest.None? then None else Some(Map(LowerCase, s[..4]) + rest.value)
  }

  function UuidRead(s: string): Option<string> {
    if s == "" || s[0] != '{' then Groups(s, 8)
    else if s[|s| - 1] == '}' then Groups(s[1..|s| - 1], 8)
    else None
  }

  predicate Digits(u: string, n: nat) { |u| == n && forall c | c in u :: LowerHex(c) }

  lemma {:induction false} GroupsDigits(s: string, n: nat)
    requires Groups(s, n).Some?
    ensures Digits(Groups(s, n).value, 4 * n)
    decreases n
  {
    if n > 0 {
      GroupsDigits(AfterGroup(s, n), n - 1);
      GroupDigits(s);
      DigitsPlus(Map(LowerCase, s[..4]), 4, Groups(AfterGroup(s, n), n - 1).value, 4 * (n - 1));
    }
  }

  lemma GroupDigits(s: string)
    requires Group(s)
    ensures Digits(Map(LowerCase, s[..4]), 4)
  {
    assert s[..4] == [s[0], s[1], s[2], s[3]];
    assert Map(LowerCase, s[..4]) == [LowerCase(s[0]), LowerCase(s[1]), LowerCase(s[2]), LowerCase(s[3])];
  }

  lemma DigitsPlus(a: string, m: nat, b: string, n: nat)
    requires Digits(a, m) && Digits(b, n)
    ensures Digits(a + b, m + n)
  {
  }

  /** In the hyphenated form: the group at `p` is followed by a hyphen or by the next group. */
  lemma GroupAt(s: string, p: nat, n: nat)
    requires UuidText(s) && p + 4 <= 36 && n > 0
    requires !HyphenAt(p) && !HyphenAt(p + 1) && !HyphenAt(p + 2) && !HyphenAt(p + 3)
    requires var q := if p + 4 < 36 && HyphenAt(p + 4) then p + 5 else p + 4;
             (HyphenAt(p + 4) ==> n > 1) && Groups(s[q..], n - 1).Some?
    ensures Groups(s[p..], n).Some?
  {
    var t := s[p..];
    assert t[0] == s[p] && t[1] == s[p + 1] && t[2] == s[p + 2] && t[3] == s[p + 3];
    if p + 4 < 36 {
      assert t[4] == s[p + 4] && t[5..] == s[p + 5..];
    }
    assert t[4..] == s[p + 4..];
  }

  lemma LastGroups(s: string)
    requires UuidText(s)
    ensures Groups(s[24..], 3).Some?
  {
    assert s[36..] == "" && Groups(s[36..], 0).Some?;
    GroupAt(s, 32, 1);
    GroupAt(s, 28, 2);
    GroupAt(s, 24, 3);
  }

  lemma MiddleGroups(s: string)
    requires UuidText(s) && Groups(s[24..], 3).Some?
    ensures Groups(s[9..], 6).Some?
  {
    GroupAt(s, 19, 4);
    GroupAt(s, 14, 5);
    GroupAt(s, 9, 6);
  }

  /** The hyphenated form is one of the spellings. */
  lemma UuidTextIsRead(s: string)
    requires UuidText(s)
    ensures UuidRead(s).Some?
  {
    LastGroups(s);
    MiddleGroups(s);
    GroupAt(s, 4, 7);
    GroupAt(s, 0, 8);
    assert s[0..] == s;
    assert !HyphenAt(0) && Hex(s[0]);
  }

  lemma UuidReadDigits(s: string)
    requires UuidRead(s).Some?
    ensures Digits(UuidRead(s).value, 32)
  {
    if s == "" || s[0] != '{' {
      GroupsDigits(s, 8);
    } else {
      GroupsDigits(s[1..|s| - 1], 8);
    }
  }

  // ----- column values -----

  /** A uuid is kept as its thirty-two digits. */
  datatype SqlValue = SqlNull | SqlBool(b: bool) | SqlInt(i: int) | SqlText(s: string) | SqlUuid(u: string)
  datatype Truth = True | False | Unknown

  /** The values of a column type; text holds no NUL and integers have 32 bits. */
  predicate HasType(v: SqlValue, scalar: Scalar) {
    match v
    case SqlNull => true
    case SqlBool(_) => scalar == BooleanType
    case SqlInt(i) => scalar == Int32Type && INT_MIN <= i <= INT_MAX
    case SqlText(s) => scalar == StringType && NulFree(s)
    case SqlUuid(u) => scalar == UuidType && Digits(u, 32)
  }

  function Known(b: bool): Truth { if b then True else False }

  /** The column value stands for the instance, for a uuid in any spelling that is read as its digits. */
  predicate StandsFor(v: SqlValue, j: Instance) {
    match v
    case SqlNull => j.JsonNull?
    case SqlBool(b) => j == JsonBool(b)
    case SqlInt(i) => IsNumber(j) && NumberOf(j) == i as real
    case SqlText(s) => j == JsonString(s)
    case SqlUuid(u) => j.JsonString? && UuidRead(j.s) == Some(u)
  }

  /** What an instance is stored as, if anything. */
  function StoredAs(scalar: Scalar, j: Instance): SqlValue {
    match j
    case JsonNull => SqlNull
    case JsonBool(b) => SqlBool(b)
    case JsonInt(i) => SqlInt(i)
    case JsonFloat(x) => SqlInt(x.Floor)
    case JsonString(s) =>
      if scalar != UuidType then SqlText(s) else if UuidRead(s).Some? then SqlUuid(UuidRead(s).value) else SqlNull
    case _ => SqlNull
  }

  /** The values of a scalar type, whatever its declaration adds. */
  predicate OfScalar(scalar: Scalar, j: Instance) {
    match scalar
    case BooleanType => j.JsonBool?
    case Int32Type => IsWhole(j) && INT_MIN <= WholeOf(j) <= INT_MAX
    case StringType => j.JsonString? && NulFree(j.s)
    case UuidType => j.JsonString? && UuidRead(j.s).Some?
  }

  /** A type holds a value for an instance exactly when the instance is null or of that type. */
  lemma TypeHolds(scalar: Scalar, j: Instance)
    ensures (exists v :: HasType(v, scalar) && StandsFor(v, j)) <==> j.JsonNull? || OfScalar(scalar, j)
    ensures j.JsonNull? || OfScalar(scalar, j) ==> HasType(StoredAs(scalar, j), scalar) && StandsFor(StoredAs(scalar, j), j)
  {
    if j.JsonNull? || OfScalar(scalar, j) {
      if j.JsonString? && scalar == UuidType {
        UuidReadDigits(j.s);
      }
      var v := StoredAs(scalar, j);
      assert HasType(v, scalar) && StandsFor(v, j);
    }
  }

  /** Only one column value stands for an instance. */
  lemma OneValue(scalar: Scalar, v: SqlValue, j: Instance)
    requires HasType(v, scalar) && StandsFor(v, j)
    ensures v == StoredAs(scalar, j)
  {
  }
}
