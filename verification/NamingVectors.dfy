/** The rounds of FNV-1a on ASCII text in plain arithmetic, and the published hash of one letter. */
module NamingVectors {
  import opened Naming
  import opened Numbers
  import JsonText

  /** A character below a power of two reaches only the bits below it. */
  lemma {:induction false} XorLow(n: nat, q: nat, r: nat, c: nat, k: nat)
    requires c < Pow2(k) && r < Pow2(k) && n == Pow2(k) * q + r
    ensures Xor(n, c) == Pow2(k) * q + Xor(r, c)
    decreases k
  {
    if k == 0 {
      XorZero(n);
      assert Xor(0, 0) == 0;
    } else {
      var p := Pow2(k - 1);
      Twice(Pow2(k), p, q);
      Halves(n, p * q, r);
      XorLow(n / 2, q, r / 2, c / 2, k - 1);
      XorParts(n, c);
      XorParts(r, c);
    }
  }

  lemma XorParts(a: nat, c: nat)
    ensures Xor(a, c) == 2 * Xor(a / 2, c / 2) + if a % 2 == c % 2 then 0 else 1
  {
  }

  lemma Halves(n: nat, m: nat, r: nat)
    requires n == 2 * m + r
    ensures n / 2 == m + r / 2 && n % 2 == r % 2
  {
  }

  lemma Twice(d: nat, p: nat, q: nat)
    requires d == 2 * p
    ensures d * q == 2 * (p * q)
  {
  }

  lemma {:induction false} XorZero(a: nat)
    ensures Xor(a, 0) == a
  {
    if a != 0 {
      XorZero(a / 2);
    }
  }

  lemma SevenBits()
    ensures Pow2(7) == 128
  {
    assert Pow2(3) == 8;
    Pow2Add(3, 3);
    assert Pow2(7) == 2 * Pow2(6);
  }

  /** One round on an ASCII character. */
  lemma RoundIs(h: Word, c: char)
    requires c as int < 128
    ensures Round(h, c) == (h - h % 128 + Xor(h % 128, c as int)) * PRIME % MODULUS
  {
    SevenBits();
    XorLow(h, h / 128, h % 128, c as int, 7);
  }

  /** The upper bits and the lowest seven bits of the offset basis. */
  lemma OffsetParts()
    ensures OFFSET / 128 == 0x197e539c9084446 && OFFSET % 128 == 0x25
  {
  }

  lemma SmallXor(a: nat, c: nat)
    requires a == 0x25 && c == 0x61
    ensures Xor(a, c) == 0x44
  {
    XorParts(a, c);
    XorParts(a / 2, c / 2);
    XorParts(a / 4, c / 4);
    XorParts(a / 8, c / 8);
    XorParts(a / 16, c / 16);
    XorParts(a / 32, c / 32);
    XorZero(a / 64);
    XorParts(a / 64, c / 64);
    assert a / 64 == 0 && c / 64 == 1 && Xor(0, 1) == 1;
  }

  lemma Product(upper: nat, x: nat)
    requires upper == 128 * 0x197e539c9084446 && x == 0x44
    ensures (upper + x) * PRIME % MODULUS == 0xaf63dc4c8601ec8c
  {
  }

  lemma PublishedRound(h: Word, c: char)
    requires h / 128 == 0x197e539c9084446 && h % 128 == 0x25 && c as int == 0x61
    ensures Round(h, c) == 0xaf63dc4c8601ec8c
  {
    var upper := h - h % 128;
    RoundIs(h, c);
    SmallXor(h % 128, c as int);
    Product(upper, Xor(h % 128, c as int));
  }

  lemma {:induction false} LetterHash(h: Word, c: char)
    requires h / 128 == 0x197e539c9084446 && h % 128 == 0x25 && c as int == 0x61
    ensures Hash(h, [c]) == 0xaf63dc4c8601ec8c
  {
    PublishedRound(h, c);
    assert [c][1..] == "";
    assert Hash(h, [c]) == Hash(Round(h, c), "");
  }

  /** The published 64-bit FNV-1a hash of the text "a". */
  lemma {:induction false} PublishedHash(h: Word, s: string)
    requires h == OFFSET && s == "a"
    ensures Hash(h, s) == 0xaf63dc4c8601ec8c
  {
    OffsetParts();
    LetterHash(h, s[0]);
    assert s == [s[0]];
  }

  lemma OneMore(t: JsonText.Term, rest: seq<JsonText.Term>, first: bool)
    ensures JsonText.PrintItems([t] + rest, first) ==
              (if first then "" else ",") + (JsonText.Print(t) + JsonText.PrintItems(rest, false))
  {
    assert ([t] + rest)[1..] == rest;
  }

  /** The five parts of the text that is hashed, in the order `JSON.stringify` writes them. */
  lemma SourceText(schema: string, table: string, kind: Kind, identity: JsonText.Term)
    ensures NameSource(schema, table, kind, identity) ==
              "[" + Then(Quoted("ores.schema-ir.v1"), Then(Quoted(schema), Then(Quoted(table),
                Then(Quoted(KindText(kind)), JsonText.Print(identity) + "]"))))
  {
    var (a, b, c, d) := (JsonText.Text("ores.schema-ir.v1"), JsonText.Text(schema), JsonText.Text(table), JsonText.Text(KindText(kind)));
    PrintFive(a, b, c, d, identity);
  }

  /** One more item in front of printed ones. */
  lemma {:induction false} ItemPrinted(t: JsonText.Term, rest: seq<JsonText.Term>, tail: string)
    requires JsonText.PrintItems(rest, false) == "," + tail
    ensures JsonText.PrintItems([t] + rest, false) == "," + Then(JsonText.Print(t), tail)
  {
    OneMore(t, rest, false);
  }

  lemma {:induction false} LastPrinted(t: JsonText.Term)
    ensures JsonText.PrintItems([t], false) == "," + (JsonText.Print(t) + "]")
  {
    assert [t] + [] == [t];
    OneMore(t, [], false);
  }

  lemma {:induction false} FirstPrinted(t: JsonText.Term, rest: seq<JsonText.Term>, tail: string)
    requires JsonText.PrintItems(rest, false) == "," + tail
    ensures JsonText.Print(JsonText.List([t] + rest)) == "[" + Then(JsonText.Print(t), tail)
  {
    OneMore(t, rest, true);
  }

  lemma {:induction false} FourAfter(b: JsonText.Term, c: JsonText.Term, d: JsonText.Term, e: JsonText.Term)
    ensures JsonText.PrintItems([b, c, d, e], false) ==
              "," + Then(JsonText.Print(b), Then(JsonText.Print(c), Then(JsonText.Print(d), JsonText.Print(e) + "]")))
  {
    LastPrinted(e);
    ItemPrinted(d, [e], JsonText.Print(e) + "]");
    assert [d] + [e] == [d, e] && [c] + [d, e] == [c, d, e] && [b] + [c, d, e] == [b, c, d, e];
    ItemPrinted(c, [d, e], Then(JsonText.Print(d), JsonText.Print(e) + "]"));
    ItemPrinted(b, [c, d, e], Then(JsonText.Print(c), Then(JsonText.Print(d), JsonText.Print(e) + "]")));
  }

  lemma {:induction false} PrintFive(a: JsonText.Term, b: JsonText.Term, c: JsonText.Term, d: JsonText.Term, e: JsonText.Term)
    ensures JsonText.Print(JsonText.List([a, b, c, d, e])) ==
              "[" + Then(JsonText.Print(a), Then(JsonText.Print(b), Then(JsonText.Print(c), Then(JsonText.Print(d), JsonText.Print(e) + "]"))))
  {
    FourAfter(b, c, d, e);
    FirstPrinted(a, [b, c, d, e], Then(JsonText.Print(b), Then(JsonText.Print(c), Then(JsonText.Print(d), JsonText.Print(e) + "]"))));
    assert [a] + [b, c, d, e] == [a, b, c, d, e];
  }

  function Then(x: string, rest: string): string { x + ("," + rest) }
  function Quoted(s: string): string { "\"" + s + "\"" }

  lemma {:induction false} SpelledFrom(kind: Kind, hash: Word)
    ensures var name := NameOf(kind, hash);
            && |name| == 27 && name[..8] == "ores_ir_" && name[10] == '_' && HexValue(name[11..]) == hash
            && name[8..10] == match kind { case PrimaryKey => "pk" case UniqueKey => "uk" case Foreign => "fk" }
  {
    HexWordFaithful(hash);
    var name := NameOf(kind, hash);
    assert name[..8] == "ores_ir_" && name[8..10] == KindText(kind) && name[11..] == HexWord(hash);
  }

  /** A name is its prefix, its kind, and in hexadecimal the hash of the five parts from the offset basis. */
  lemma {:induction false} NameSpelled(schema: string, table: string, kind: Kind, identity: JsonText.Term, basis: Word, source: string)
    requires basis == 0xcbf29ce484222325
    requires source == "[" + Then(Quoted("ores.schema-ir.v1"), Then(Quoted(schema), Then(Quoted(table),
               Then(Quoted(match kind { case PrimaryKey => "pk" case UniqueKey => "uk" case Foreign => "fk" }), JsonText.Print(identity) + "]"))))
    ensures var name := ConstraintName(schema, table, kind, identity);
            && |name| == 27 && name[..8] == "ores_ir_" && name[10] == '_' && HexValue(name[11..]) == Hash(basis, source)
            && name[8..10] == match kind { case PrimaryKey => "pk" case UniqueKey => "uk" case Foreign => "fk" }
  {
    SourceText(schema, table, kind, identity);
    SpelledFrom(kind, Hash(basis, source));
  }
}
