/** What a normalised e-mail address is, character by character, and that all four normalisers return it. */
module EmailMeaning {
  import opened Json
  import opened Email

  // ----- the address, by code points -----

  predicate SmallOrDigit(c: char) { 97 <= c as int <= 122 || 48 <= c as int <= 57 }

  /** `atext` of section 3.2.3 of RFC 5322, less the capitals. */
  predicate AtomCharacter(c: char) {
    SmallOrDigit(c) || c as int in [33, 35, 36, 37, 38, 39, 42, 43, 45, 47, 61, 63, 94, 95, 96, 123, 124, 125, 126]
  }

  predicate AtomText(s: string) { |s| >= 1 && forall c | c in s :: AtomCharacter(c) }

  /** Letters, digits and inner hyphens. */
  predicate LabelText(s: string) {
    1 <= |s| <= 63 && s[0] as int != 45 && s[|s| - 1] as int != 45 && forall c | c in s :: SmallOrDigit(c) || c as int == 45
  }

  ghost predicate LocalPart(s: string) {
    |s| <= 64 && exists atoms: seq<string> :: |atoms| >= 1 && (forall p | p in atoms :: AtomText(p)) && Join(atoms, '.') == s
  }

  ghost predicate DomainPart(s: string) {
    |s| <= 255 && exists labels: seq<string> :: |labels| >= 2 && (forall p | p in labels :: LabelText(p)) && Join(labels, '.') == s
  }

  ghost predicate IsAddress(s: string) {
    exists local: string, domain: string :: s == local + "@" + domain && LocalPart(local) && DomainPart(domain)
  }

  // ----- the normal form -----

  predicate IsBlank(c: char) { c as int in [9, 10, 13, 32] }
  predicate Blanks(s: string) { forall c | c in s :: IsBlank(c) }
  predicate Bare(s: string) { s != "" && !IsBlank(s[0]) && !IsBlank(s[|s| - 1]) }

  predicate SmallOf(r: string, s: string) {
    |r| == |s| && forall i | 0 <= i < |s| :: r[i] as int == if 65 <= s[i] as int <= 90 then s[i] as int + 32 else s[i] as int
  }

  /** Without the blanks around it and with small letters, the value is this address. */
  ghost predicate Normalises(value: string, r: string) {
    exists before: string, core: string, after: string ::
      && value == before + core + after && Blanks(before) && Blanks(after) && Bare(core)
      && (forall c | c in core :: c as int < 128) && SmallOf(r, core) && IsAddress(r)
  }

  // ----- the same grammar -----

  lemma {:induction false} SymbolCodes(c: char)
    ensures c in SYMBOLS <==> c as int in [33, 35, 36, 37, 38, 39, 42, 43, 45, 47, 61, 63, 94, 95, 96, 123, 124, 125, 126]
  {
    assert SYMBOLS == ['!', '#', '$', '%', '&', '\'', '*', '+', '-', '/', '=', '?', '^', '_', '`', '{', '|', '}', '~'];
  }

  lemma {:induction false} AtomIs(s: string)
    ensures Atom(s) <==> AtomText(s)
  {
    forall c | c in s ensures Atext(c) <==> AtomCharacter(c) {
      SymbolCodes(c);
    }
  }

  lemma {:induction false} LabelIs(s: string)
    ensures Label(s) <==> LabelText(s)
  {
  }

  lemma {:induction false} LocalIs(s: string)
    ensures DotAtomText(s) && |s| <= 64 <==> LocalPart(s)
  {
    forall p: string ensures Atom(p) <==> AtomText(p) { AtomIs(p); }
    if DotAtomText(s) {
      var parts: seq<string> :| parts != [] && (forall p | p in parts :: Atom(p)) && Join(parts, '.') == s;
      assert |parts| >= 1 && forall p | p in parts :: AtomText(p);
    }
    if LocalPart(s) {
      var atoms: seq<string> :| |atoms| >= 1 && (forall p | p in atoms :: AtomText(p)) && Join(atoms, '.') == s;
      assert atoms != [] && forall p | p in atoms :: Atom(p);
    }
  }

  lemma {:induction false} DomainIs(s: string)
    ensures Domain(s) <==> DomainPart(s)
  {
    forall p: string ensures Label(p) <==> LabelText(p) { LabelIs(p); }
    if Domain(s) {
      var labels: seq<string> :| |labels| >= 2 && (forall p | p in labels :: Label(p)) && Join(labels, '.') == s;
      assert forall p | p in labels :: LabelText(p);
    }
    if DomainPart(s) {
      var labels: seq<string> :| |labels| >= 2 && (forall p | p in labels :: LabelText(p)) && Join(labels, '.') == s;
      assert forall p | p in labels :: Label(p);
    }
  }

  lemma {:induction false} AddressIs(s: string)
    ensures Address(s) <==> IsAddress(s)
  {
    if Address(s) {
      var local: string, domain: string :| s == local + "@" + domain && DotAtomText(local) && |local| <= 64 && Domain(domain);
      LocalIs(local);
      DomainIs(domain);
    }
    if IsAddress(s) {
      var local: string, domain: string :| s == local + "@" + domain && LocalPart(local) && DomainPart(domain);
      LocalIs(local);
      DomainIs(domain);
    }
  }

  // ----- trimming and folding -----

  lemma {:induction false} TrimStartLeaves(s: string) returns (before: string)
    ensures s == before + TrimStart(s) && Blanks(before)
    ensures TrimStart(s) != "" ==> !IsBlank(TrimStart(s)[0])
  {
    if s != "" && Blank(s[0]) {
      var rest := TrimStartLeaves(s[1..]);
      before := [s[0]] + rest;
    } else {
      before := "";
    }
  }

  lemma {:induction false} TrimEndLeaves(s: string) returns (after: string)
    ensures s == TrimEnd(s) + after && Blanks(after)
    ensures TrimEnd(s) != "" ==> !IsBlank(TrimEnd(s)[|TrimEnd(s)| - 1]) && TrimEnd(s)[0] == s[0]
  {
    if s != "" && Blank(s[|s| - 1]) {
      var rest := TrimEndLeaves(s[..|s| - 1]);
      after := rest + [s[|s| - 1]];
    } else {
      after := "";
    }
  }

  lemma {:induction false} TrimStartSkips(before: string, rest: string)
    requires Blanks(before) && rest != "" && !IsBlank(rest[0])
    ensures TrimStart(before + rest) == rest
  {
    if before == "" {
      assert before + rest == rest;
    } else {
      assert before[0] in before;
      assert (before + rest)[1..] == before[1..] + rest;
      TrimStartSkips(before[1..], rest);
    }
  }

  lemma {:induction false} TrimEndSkips(rest: string, after: string)
    requires Blanks(after) && rest != "" && !IsBlank(rest[|rest| - 1])
    ensures TrimEnd(rest + after) == rest
    decreases |after|
  {
    if after == "" {
      assert rest + after == rest;
    } else {
      var n := |after| - 1;
      assert after[n] in after;
      assert (rest + after)[..|rest| + n] == rest + after[..n];
      TrimEndSkips(rest, after[..n]);
    }
  }

  /** Trimming leaves what stands between the blanks. */
  lemma {:induction false} TrimIs(before: string, core: string, after: string)
    requires Blanks(before) && Blanks(after) && Bare(core)
    ensures Trim(before + core + after) == core
  {
    assert before + core + after == before + (core + after);
    TrimStartSkips(before, core + after);
    TrimEndSkips(core, after);
  }

  lemma {:induction false} LowerIs(s: string)
    ensures SmallOf(Lower(s), s) && forall r :: SmallOf(r, s) ==> r == Lower(s)
  {
    forall r | SmallOf(r, s) ensures r == Lower(s) {
      forall i | 0 <= i < |s| ensures r[i] == Lower(s)[i] {}
    }
  }

  // ----- the main result -----

  lemma {:induction false} TrimLeaves(value: string) returns (before: string, after: string)
    ensures value == before + Trim(value) + after && Blanks(before) && Blanks(after)
    ensures Trim(value) != "" ==> Bare(Trim(value))
  {
    before := TrimStartLeaves(value);
    after := TrimEndLeaves(TrimStart(value));
  }

  lemma {:induction false} HasForm(value: string, r: string)
    requires Ascii(Trim(value)) && r == Lower(Trim(value)) && IsAddress(r)
    ensures Normalises(value, r)
  {
    var before, after := TrimLeaves(value);
    LowerIs(Trim(value));
    assert r != "";
    assert Bare(Trim(value)) && forall c | c in Trim(value) :: c as int < 128;
  }

  lemma {:induction false} FormIs(value: string, r: string)
    requires Normalises(value, r)
    ensures Ascii(Trim(value)) && r == Lower(Trim(value)) && IsAddress(r)
  {
    var before: string, core: string, after: string :|
      && value == before + core + after && Blanks(before) && Blanks(after) && Bare(core)
      && (forall c | c in core :: c as int < 128) && SmallOf(r, core) && IsAddress(r);
    TrimIs(before, core, after);
    LowerIs(core);
  }

  lemma {:induction false} NormalIs(value: string, r: string)
    ensures Normal(value) == Some(r) <==> Normalises(value, r)
  {
    AddressIs(r);
    if Normal(value) == Some(r) {
      HasForm(value, r);
    }
    if Normalises(value, r) {
      FormIs(value, r);
    }
  }

  /** Each normaliser returns the normal form of a value that has one, and nothing for any other value. */
  lemma {:induction false} NormalisersAreRight(
    goFold: string -> string, tsFold: string -> string, dartFold: string -> string, value: string, r: string)
    requires FoldsAscii(goFold) && FoldsAscii(tsFold) && FoldsAscii(dartFold)
    ensures Rust(value) == Some(r) <==> Normalises(value, r)
    ensures Go(goFold, value) == Some(r) <==> Normalises(value, r)
    ensures Script(tsFold, value) == Some(r) <==> Normalises(value, r)
    ensures Script(dartFold, value) == Some(r) <==> Normalises(value, r)
  {
    NormalIs(value, r);
    RustIsNormal(value);
    GoIsNormal(goFold, value);
    ScriptIsNormal(tsFold, value);
    ScriptIsNormal(dartFold, value);
  }
}
