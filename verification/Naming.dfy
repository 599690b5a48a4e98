/**
 * Constraint names: FNV-1a over 64 bits (section 2 of draft-eastlake-fnv), printed as
 * sixteen hexadecimal digits behind a kind prefix.
 */
module Naming {
  import opened JsonText
  import opened Numbers

  const MODULUS: nat := 0x1_0000_0000_0000_0000
  const PRIME: nat := 0x100000001b3
  const OFFSET: nat := 0xcbf29ce484222325
  /** The inverse of the odd multiplier modulo 2^64. */
  const INVERSE: nat := 0xce965057aff6957b

  type Word = n: nat | n < MODULUS

  /** Bitwise exclusive or. */
  function Xor(a: nat, b: nat): nat {
    if a == 0 && b == 0 then 0
    else 2 * Xor(a / 2, b / 2) + (if a % 2 == b % 2 then 0 else 1)
  }

  lemma {:induction false} XorCancels(a: nat, b: nat)
    ensures Xor(Xor(a, b), b) == a
    decreases a + b
  {
    if a != 0 || b != 0 {
      XorCancels(a / 2, b / 2);
      var x := Xor(a, b);
      assert x / 2 == Xor(a / 2, b / 2) && x % 2 == if a % 2 == b % 2 then 0 else 1;
    }
  }

  lemma {:induction false} XorBounded(a: nat, b: nat, k: nat)
    requires a < Pow2(k) && b < Pow2(k)
    ensures Xor(a, b) < Pow2(k)
    decreases k
  {
    if k > 0 && (a != 0 || b != 0) {
      XorBounded(a / 2, b / 2, k - 1);
    }
  }

  lemma Pow2Quarter()
    ensures Pow2(16) == 0x1_0000
  {
    assert Pow2(4) == 16;
    Pow2Add(4, 4);
    Pow2Add(8, 8);
  }

  lemma Pow2Word()
    ensures Pow2(64) == MODULUS
  {
    Pow2Quarter();
    Pow2Add(16, 16);
    Pow2Add(32, 32);
  }

  lemma {:induction false} Pow2Add(a: nat, b: nat)
    ensures Pow2(a + b) == Pow2(a) * Pow2(b)
  {
    if a > 0 {
      Pow2Add(a - 1, b);
      assert Pow2(a + b) == 2 * Pow2(a + b - 1);
    }
  }

  /** One round: exclusive or with a code point, then multiplication modulo 2^64. */
  function Round(h: Word, c: char): Word {
    Xor(h, c as int) * PRIME % MODULUS
  }

  function Hash(h: Word, source: string): Word
    decreases |source|
  {
    if source == "" then h else Hash(Round(h, source[0]), source[1..])
  }

  function UnRound(h: Word, c: char): Word {
    XorWord(h * INVERSE % MODULUS, c);
    Xor(h * INVERSE % MODULUS, c as int)
  }

  /** The state from which `source` leads to `h`. */
  function UnHash(h: Word, source: string): Word
    decreases |source|
  {
    if source == "" then h else UnHash(UnRound(h, source[|source| - 1]), source[..|source| - 1])
  }

  lemma XorWord(h: Word, c: char)
    ensures Xor(h, c as int) < MODULUS
  {
    Pow2Word();
    assert (c as int) < MODULUS;
    XorBounded(h, c as int, 64);
  }

  lemma ModUnique(x: int, q: int, r: Word)
    requires x == MODULUS * q + r
    ensures x % MODULUS == r
  {
  }

  /** Multiplication by the odd prime is undone by multiplication by its inverse. */
  lemma MultiplyCancels(x: Word)
    ensures x * PRIME % MODULUS * INVERSE % MODULUS == x
    ensures x * INVERSE % MODULUS * PRIME % MODULUS == x
  {
    var d := x * PRIME / MODULUS;
    var r := x * PRIME % MODULUS;
    assert x * PRIME == MODULUS * d + r;
    assert PRIME * INVERSE == MODULUS * INVERSE_CARRY + 1;
    assert r * INVERSE == MODULUS * (INVERSE_CARRY * x - d * INVERSE) + x;
    ModUnique(r * INVERSE, INVERSE_CARRY * x - d * INVERSE, x);
    var e := x * INVERSE / MODULUS;
    var t := x * INVERSE % MODULUS;
    assert x * INVERSE == MODULUS * e + t;
    assert t * PRIME == MODULUS * (INVERSE_CARRY * x - e * PRIME) + x;
    ModUnique(t * PRIME, INVERSE_CARRY * x - e * PRIME, x);
  }

  const INVERSE_CARRY: nat := (PRIME * INVERSE - 1) / MODULUS

  lemma RoundInverse(h: Word, c: char)
    ensures UnRound(Round(h, c), c) == h
    ensures Round(UnRound(h, c), c) == h
  {
    XorWord(h, c);
    MultiplyCancels(Xor(h, c as int));
    XorCancels(h, c as int);
    MultiplyCancels(h);
    XorWord(h * INVERSE % MODULUS, c);
    XorCancels(h * INVERSE % MODULUS, c as int);
  }

  lemma {:induction false} HashSplit(h: Word, a: string, b: string)
    ensures Hash(h, a + b) == Hash(Hash(h, a), b)
    decreases |a|
  {
    if a == "" {
      assert a + b == b;
    } else {
      assert (a + b)[1..] == a[1..] + b;
      HashSplit(Round(h, a[0]), a[1..], b);
    }
  }

  /** For a fixed text the fold is a bijection of the 64-bit state. */
  lemma {:induction false} HashBijective(h: Word, source: string)
    ensures UnHash(Hash(h, source), source) == h
    ensures Hash(UnHash(h, source), source) == h
    decreases |source|
  {
    if source != "" {
      var n := |source| - 1;
      var a, c := source[..n], source[n];
      assert source == a + [c];
      HashBijective(h, a);
      HashSplit(h, a, [c]);
      var g := Hash(h, a);
      assert Hash(g, [c]) == Hash(Round(g, c), "");
      RoundInverse(g, c);
      var u := UnRound(h, c);
      HashBijective(u, a);
      HashSplit(UnHash(u, a), a, [c]);
      assert Hash(u, [c]) == Hash(Round(u, c), "");
      RoundInverse(h, c);
    }
  }

  /** Two sources that differ in exactly one character never have the same hash. */
  lemma OneCharacterChanges(h: Word, prefix: string, c: char, d: char, suffix: string)
    requires c != d
    ensures Hash(h, prefix + [c] + suffix) != Hash(h, prefix + [d] + suffix)
  {
    var g := Hash(h, prefix);
    HashSplit(h, prefix + [c], suffix);
    HashSplit(h, prefix, [c]);
    HashSplit(h, prefix + [d], suffix);
    HashSplit(h, prefix, [d]);
    assert Hash(g, [c]) == Hash(Round(g, c), "") && Hash(g, [d]) == Hash(Round(g, d), "");
    HashBijective(Round(g, c), suffix);
    HashBijective(Round(g, d), suffix);
    RoundDistinguishes(g, c, d);
  }

  lemma RoundDistinguishes(g: Word, c: char, d: char)
    requires c != d
    ensures Round(g, c) != Round(g, d)
  {
    XorWord(g, c);
    XorWord(g, d);
    MultiplyCancels(Xor(g, c as int));
    MultiplyCancels(Xor(g, d as int));
    XorCommutes(g, c as int);
    XorCommutes(g, d as int);
    XorCancels(c as int, g);
    XorCancels(d as int, g);
  }

  lemma {:induction false} XorCommutes(a: nat, b: nat)
    ensures Xor(a, b) == Xor(b, a)
    decreases a + b
  {
    if a != 0 || b != 0 {
      XorCommutes(a / 2, b / 2);
    }
  }

  // ----- hexadecimal text -----

  const DIGITS: string := "0123456789abcdef"

  /** `n.toString(16)` */
  function ToHex(n: nat): (r: string)
    ensures r != ""
  {
    if n < 16 then [DIGITS[n]] else ToHex(n / 16) + [DIGITS[n % 16]]
  }

  function Zeros(n: nat): (r: string)
    ensures |r| == n && forall i | 0 <= i < n :: r[i] == '0'
  {
    if n == 0 then "" else "0" + Zeros(n - 1)
  }

  /** `text.padStart(width, "0")` */
  function PadStart(text: string, width: nat): string {
    if |text| >= width then text else Zeros(width - |text|) + text
  }

  /** The value a text of hexadecimal digits stands for. */
  function DigitValue(c: char): nat {
    if '0' <= c <= '9' then c as int - '0' as int
    else if 'a' <= c <= 'f' then c as int - 'a' as int + 10
    else 0
  }

  function HexValue(s: string): nat {
    if s == "" then 0 else 16 * HexValue(s[..|s| - 1]) + DigitValue(s[|s| - 1])
  }

  lemma DigitRoundTrip(d: nat)
    requires d < 16
    ensures DigitValue(DIGITS[d]) == d
  {
  }

  lemma {:induction false} HexRoundTrip(n: nat)
    ensures HexValue(ToHex(n)) == n
  {
    DigitRoundTrip(n % 16);
    var s := ToHex(n);
    if n < 16 {
      assert s[..0] == "";
    } else {
      HexRoundTrip(n / 16);
      assert s[..|s| - 1] == ToHex(n / 16);
    }
  }

  lemma {:induction false} ZerosAddNothing(k: nat, s: string)
    ensures HexValue(Zeros(k) + s) == HexValue(s)
    decreases |s|
  {
    var t := Zeros(k) + s;
    if s == "" {
      ZerosAreZero(k);
      assert t == Zeros(k);
    } else {
      ZerosAddNothing(k, s[..|s| - 1]);
      assert t[..|t| - 1] == Zeros(k) + s[..|s| - 1];
    }
  }

  lemma {:induction false} ZerosAreZero(k: nat)
    ensures HexValue(Zeros(k)) == 0
  {
    if k > 0 {
      ZerosAreZero(k - 1);
      assert Zeros(k)[..k - 1] == Zeros(k - 1);
    }
  }

  lemma {:induction false} HexWidth(n: nat, k: nat)
    requires n < Pow2(4 * k) && k > 0
    ensures |ToHex(n)| <= k
    decreases k
  {
    if n >= 16 {
      Pow2Add(4, 4 * (k - 1));
      assert Pow2(4) == 16 && Pow2(0) == 1;
      HexWidth(n / 16, k - 1);
    }
  }

  /** Sixteen digits, one text for each word. */
  function HexWord(n: Word): string {
    PadStart(ToHex(n), 16)
  }

  lemma HexWordFaithful(n: Word)
    ensures |HexWord(n)| == 16 && HexValue(HexWord(n)) == n
  {
    Pow2Word();
    PaddedFaithful(n, 16);
  }

  lemma PaddedFaithful(n: nat, k: nat)
    requires n < Pow2(4 * k) && k > 0
    ensures |PadStart(ToHex(n), k)| == k && HexValue(PadStart(ToHex(n), k)) == n
  {
    HexWidth(n, k);
    HexRoundTrip(n);
    ZerosAddNothing(k - |ToHex(n)|, ToHex(n));
    if |ToHex(n)| == k {
      assert Zeros(0) + ToHex(n) == ToHex(n);
    }
  }

  // ----- constraint names -----

  datatype Kind = PrimaryKey | UniqueKey | Foreign

  function KindText(k: Kind): (r: string)
    ensures |r| == 2
  {
    match k case PrimaryKey => "pk" case UniqueKey => "uk" case Foreign => "fk"
  }

  /** What a name is derived from: version, schema, table, kind and the identity of the key. */
  function NameSource(schema: string, table: string, kind: Kind, identity: Term): string {
    Print(List([Text("ores.schema-ir.v1"), Text(schema), Text(table), Text(KindText(kind)), identity]))
  }

  function NameOf(kind: Kind, hash: Word): string {
    "ores_ir_" + KindText(kind) + "_" + HexWord(hash)
  }

  function ConstraintName(schema: string, table: string, kind: Kind, identity: Term): string {
    NameOf(kind, Hash(OFFSET, NameSource(schema, table, kind, identity)))
  }

  /** The hash loop over the characters of the printed source. */
  method ComputeConstraintName(schema: string, table: string, kind: Kind, identity: Term)
    returns (name: string)
    ensures name == ConstraintName(schema, table, kind, identity)
  {
    var source := NameSource(schema, table, kind, identity);
    var hash: Word := OFFSET;
    for i := 0 to |source|
      invariant Hash(hash, source[i..]) == Hash(OFFSET, source)
    {
      assert source[i..][1..] == source[i + 1..];
      hash := Round(hash, source[i]);
    }
    name := NameOf(kind, hash);
  }

  /** Names have 27 characters, and tell apart both kinds and hashes. */
  lemma NameFaithful(k1: Kind, h1: Word, k2: Kind, h2: Word)
    ensures |NameOf(k1, h1)| == 27
    ensures NameOf(k1, h1) == NameOf(k2, h2) <==> k1 == k2 && h1 == h2
  {
    HexWordFaithful(h1);
    HexWordFaithful(h2);
    var a, b := NameOf(k1, h1), NameOf(k2, h2);
    assert a[11..] == HexWord(h1) && b[11..] == HexWord(h2);
    assert a[8..10] == KindText(k1) && b[8..10] == KindText(k2);
    assert KindText(k1)[0] == a[8] && KindText(k2)[0] == b[8];
  }
}
