/** Four normalisers of e-mail addresses, in Rust, Go, TypeScript and Dart, and the one grammar they accept. */
module Email {
  import opened Characters
  import opened Json

  // ----- text -----

  predicate Blank(c: char) { c == ' ' || c == '\t' || c == '\r' || c == '\n' }

  function TrimStart(s: string): string {
    if s != "" && Blank(s[0]) then TrimStart(s[1..]) else s
  }

  function TrimEnd(s: string): string {
    if s != "" && Blank(s[|s| - 1]) then TrimEnd(s[..|s| - 1]) else s
  }

  function Trim(s: string): string { TrimEnd(TrimStart(s)) }

  predicate Ascii(s: string) { forall c | c in s :: c as int <= 127 }

  function Lower(s: string): (r: string)
    ensures |r| == |s| && forall i | 0 <= i < |s| :: r[i] == LowerCase(s[i])
  {
    if s == "" then "" else [LowerCase(s[0])] + Lower(s[1..])
  }

  function Utf8Width(c: char): nat {
    if c as int < 0x80 then 1 else if c as int < 0x800 then 2 else if c as int < 0x10000 then 3 else 4
  }

  function Utf16Width(c: char): nat { if c as int < 0x10000 then 1 else 2 }

  function Bytes(s: string): nat { if s == "" then 0 else Utf8Width(s[0]) + Bytes(s[1..]) }
  function CodeUnits(s: string): nat { if s == "" then 0 else Utf16Width(s[0]) + CodeUnits(s[1..]) }

  lemma {:induction false} AsciiWidths(s: string)
    requires Ascii(s)
    ensures Bytes(s) == |s| && CodeUnits(s) == |s|
  {
    if s != "" {
      forall c | c in s[1..] ensures c as int <= 127 {
        assert c in s;
      }
      assert s[0] in s;
      AsciiWidths(s[1..]);
    }
  }

  /** The parts between the separators; always at least one. */
  function Split(s: string, c: char): (r: seq<string>)
    ensures r != []
  {
    if s == "" then [""]
    else
      var rest := Split(s[1..], c);
      if s[0] == c then [""] + rest else [[s[0]] + rest[0]] + rest[1..]
  }

  function Join(parts: seq<string>, c: char): string {
    if parts == [] then "" else if |parts| == 1 then parts[0] else parts[0] + [c] + Join(parts[1..], c)
  }

  function Occurrences(s: string, c: char): nat {
    if s == "" then 0 else (if s[0] == c then 1 else 0) + Occurrences(s[1..], c)
  }

  /** The text before and after the first separator. */
  function SplitOnce(s: string, c: char): Option<(string, string)> {
    if s == "" then None
    else if s[0] == c then Some(("", s[1..]))
    else
      var rest := SplitOnce(s[1..], c);
      if rest.None? then None else Some(([s[0]] + rest.value.0, rest.value.1))
  }

  lemma {:induction false} JoinSplit(s: string, c: char)
    ensures Join(Split(s, c), c) == s
    ensures forall p | p in Split(s, c) :: c !in p
  {
    if s != "" {
      var rest := Split(s[1..], c);
      JoinSplit(s[1..], c);
      assert s == [s[0]] + s[1..];
      if s[0] == c {
        JoinCons("", rest, c);
      } else {
        JoinHead(s[0], rest, c);
        assert rest[0] in rest;
      }
    }
  }

  lemma JoinCons(x: string, rest: seq<string>, c: char)
    requires rest != []
    ensures Join([x] + rest, c) == x + [c] + Join(rest, c)
  {
    assert ([x] + rest)[1..] == rest;
  }

  lemma JoinHead(x: char, rest: seq<string>, c: char)
    requires rest != []
    ensures Join([[x] + rest[0]] + rest[1..], c) == [x] + Join(rest, c)
  {
    var parts := [[x] + rest[0]] + rest[1..];
    assert parts[1..] == rest[1..];
    if |rest| > 1 {
      assert [x] + (rest[0] + [c] + Join(rest[1..], c)) == [x] + rest[0] + [c] + Join(rest[1..], c);
    }
  }

  lemma {:induction false} SplitPlain(s: string, c: char)
    requires c !in s
    ensures Split(s, c) == [s] && Occurrences(s, c) == 0 && SplitOnce(s, c) == None
  {
    if s != "" {
      assert s == [s[0]] + s[1..];
      SplitPlain(s[1..], c);
    }
  }

  lemma {:induction false} SplitAfter(a: string, c: char, b: string)
    requires c !in a
    ensures Split(a + [c] + b, c) == [a] + Split(b, c)
    ensures Occurrences(a + [c] + b, c) == 1 + Occurrences(b, c)
    ensures SplitOnce(a + [c] + b, c) == Some((a, b))
  {
    var s := a + [c] + b;
    if a == "" {
      assert s == [c] + b && s[1..] == b;
    } else {
      assert s[0] == a[0] && s[1..] == a[1..] + [c] + b;
      assert a[0] in a;
      SplitAfter(a[1..], c, b);
      assert [a[0]] + a[1..] == a;
    }
  }

  lemma {:induction false} SplitJoin(parts: seq<string>, c: char)
    requires parts != [] && forall p | p in parts :: c !in p
    ensures Split(Join(parts, c), c) == parts
  {
    assert parts[0] in parts;
    if |parts| == 1 {
      SplitPlain(parts[0], c);
    } else {
      SplitJoin(parts[1..], c);
      SplitAfter(parts[0], c, Join(parts[1..], c));
      assert parts == [parts[0]] + parts[1..];
    }
  }

  lemma FindSeparator(s: string, c: char) returns (a: string, b: string)
    requires c in s
    ensures s == a + [c] + b && c !in a
  {
    if s[0] == c {
      a, b := "", s[1..];
    } else {
      a, b := FindSeparator(s[1..], c);
      a := [s[0]] + a;
    }
  }

  // ----- the grammar -----

  predicate LowerAlnum(c: char) { 'a' <= c <= 'z' || '0' <= c <= '9' }
  const SYMBOLS := "!#$%&'*+-/=?^_`{|}~"

  /** `atext` of RFC 5322, section 3.2.3, in lower case. */
  predicate Atext(c: char) { LowerAlnum(c) || c in SYMBOLS }

  predicate Atom(s: string) { s != "" && forall c | c in s :: Atext(c) }

  /** `dot-atom-text = 1*atext *("." 1*atext)` */
  ghost predicate DotAtomText(s: string) {
    exists parts: seq<string> :: parts != [] && (forall p | p in parts :: Atom(p)) && Join(parts, '.') == s
  }

  predicate Label(s: string) {
    1 <= |s| <= 63 && s[0] != '-' && s[|s| - 1] != '-' && forall c | c in s :: LowerAlnum(c) || c == '-'
  }

  ghost predicate Domain(s: string) {
    |s| <= 255 &&
    exists labels: seq<string> :: |labels| >= 2 && (forall p | p in labels :: Label(p)) && Join(labels, '.') == s
  }

  /** A local part of at most 64 characters (section 4.5.3.1.1 of RFC 5321), `@`, and a dotted domain. */
  ghost predicate Address(s: string) {
    exists local: string, domain: string ::
      s == local + "@" + domain && DotAtomText(local) && |local| <= 64 && Domain(domain)
  }

  // ----- the checks the implementations make -----

  predicate DoubleDot(s: string) { exists i | 0 <= i < |s| - 1 :: s[i] == '.' && s[i + 1] == '.' }

  predicate LocalChar(c: char) { Atext(c) || c == '.' }

  predicate LocalOk(s: string) {
    s != "" && |s| <= 64 && s[0] != '.' && s[|s| - 1] != '.' && !DoubleDot(s) && forall c | c in s :: LocalChar(c)
  }

  predicate DomainOk(s: string) {
    |s| <= 255 && |Split(s, '.')| >= 2 && forall p | p in Split(s, '.') :: Label(p)
  }

  // ----- Rust -----

  predicate AlnumEither(c: char) { LowerAlnum(c) || 'A' <= c <= 'Z' }

  predicate RustLabel(s: string) {
    s != "" && |s| <= 63 && s[0] != '-' && s[|s| - 1] != '-' && forall c | c in s :: AlnumEither(c) || c == '-'
  }

  function Rust(value: string): Option<string> {
    var trimmed := Trim(value);
    if trimmed == "" || Bytes(trimmed) > 320 || !Ascii(trimmed) then None
    else
      var normalized := Lower(trimmed);
      var pair := SplitOnce(normalized, '@');
      if pair.None? then None
      else
        var (local, domain) := pair.value;
        if local == "" || domain == "" || '@' in domain then None
        else if |local| > 64 || local[0] == '.' || local[|local| - 1] == '.' || DoubleDot(local)
                || exists c | c in local :: !(AlnumEither(c) || c == '.' || c in SYMBOLS) then None
        else if |domain| > 255 || '.' !in domain || exists p | p in Split(domain, '.') :: !RustLabel(p) then None
        else Some(normalized)
  }

  // ----- Go, TypeScript and Dart: case folding of all of Unicode, known on ASCII text only -----

  ghost predicate FoldsAscii(fold: string -> string) {
    forall s | Ascii(s) :: fold(s) == Lower(s)
  }

  function Go(fold: string -> string, value: string): Option<string> {
    var trimmed := Trim(value);
    if trimmed == "" || Bytes(trimmed) > 320 || !Ascii(trimmed) then None
    else
      var normalized := fold(trimmed);
      if Occurrences(normalized, '@') != 1 || SplitOnce(normalized, '@').None? then None
      else
        var (local, domain) := SplitOnce(normalized, '@').value;
        if |local| == 0 || |local| > 64 || local[0] == '.' || local[|local| - 1] == '.' || DoubleDot(local)
           || exists c | c in local :: !LocalChar(c) then None
        else
          var labels := Split(domain, '.');
          if |domain| > 255 || |labels| < 2 || exists p | p in labels :: !Label(p) then None else Some(normalized)
  }

  /** TypeScript and Dart split at every `@` and count lengths in UTF-16 code units. */
  function Script(fold: string -> string, value: string): Option<string> {
    var trimmed := Trim(value);
    if |trimmed| == 0 || CodeUnits(trimmed) > 320 || !Ascii(trimmed) then None
    else
      var normalized := fold(trimmed);
      var parts := Split(normalized, '@');
      if |parts| != 2 || parts[0] == "" || parts[1] == "" then None
      else
        var (local, domain) := (parts[0], parts[1]);
        if |local| > 64 || local[0] == '.' || local[|local| - 1] == '.' || DoubleDot(local)
           || exists c | c in local :: !LocalChar(c) then None
        else
          var labels := Split(domain, '.');
          if |domain| > 255 || |labels| < 2 || exists p | p in labels :: !Label(p) then None else Some(normalized)
  }

  // ----- the checks are the grammar -----

  lemma {:induction false} EmptyTail(s: string)
    ensures (exists i | 1 <= i < |Split(s, '.')| :: Split(s, '.')[i] == "") <==> (s != "" && s[|s| - 1] == '.') || DoubleDot(s)
  {
    if s != "" {
      var (parts, rest) := (Split(s, '.'), Split(s[1..], '.'));
      EmptyTail(s[1..]);
      FirstPart(s[1..]);
      DoubleDotStep(s);
      if s[0] == '.' {
        assert forall i | 1 <= i < |parts| :: parts[i] == rest[i - 1];
        assert forall i | 0 <= i < |rest| :: rest[i] == parts[i + 1];
      } else {
        assert |parts| == |rest| && forall i | 1 <= i < |parts| :: parts[i] == rest[i];
      }
    }
  }

  lemma FirstPart(s: string)
    ensures Split(s, '.')[0] == "" <==> s == "" || s[0] == '.'
  {
  }

  lemma DoubleDotStep(s: string)
    requires s != ""
    ensures DoubleDot(s) <==> (|s| > 1 && s[0] == '.' && s[1] == '.') || DoubleDot(s[1..])
  {
    var rest := s[1..];
    if DoubleDot(s) {
      var i :| 0 <= i < |s| - 1 && s[i] == '.' && s[i + 1] == '.';
      if i > 0 {
        assert rest[i - 1] == '.' && rest[i - 1 + 1] == '.';
      }
    }
    if DoubleDot(rest) {
      var i :| 0 <= i < |rest| - 1 && rest[i] == '.' && rest[i + 1] == '.';
      assert s[i + 1] == '.' && s[i + 1 + 1] == '.';
    }
  }

  lemma {:induction false} SplitChars(s: string, c: char)
    ensures (forall x | x in s :: Atext(x) || x == c) <==> forall p, x | p in Split(s, c) && x in p :: Atext(x) || x == c
  {
    if s != "" {
      var rest := Split(s[1..], c);
      SplitChars(s[1..], c);
      assert s == [s[0]] + s[1..];
      if s[0] == c {
        assert forall p :: p in Split(s, c) <==> p == "" || p in rest;
      } else {
        var first := [s[0]] + rest[0];
        assert Split(s, c) == [first] + rest[1..] && rest == [rest[0]] + rest[1..];
        assert first[0] == s[0] && first in Split(s, c);
        assert forall p :: p in Split(s, c) <==> p == first || p in rest[1..];
        assert forall p :: p in rest <==> p == rest[0] || p in rest[1..];
        assert forall x :: x in first <==> x == s[0] || x in rest[0];
      }
    }
  }

  lemma PartsDecide(s: string)
    ensures (forall p | p in Split(s, '.') :: Atom(p)) <==>
              s != "" && s[0] != '.' && s[|s| - 1] != '.' && !DoubleDot(s) && forall x | x in s :: LocalChar(x)
  {
    JoinSplit(s, '.');
    EmptyTail(s);
    FirstPart(s);
    SplitChars(s, '.');
    AtomsAre(s, Split(s, '.'));
  }

  /** No leading, trailing or doubled dot: exactly the dot-atom-texts. */
  lemma LocalIsDotAtom(s: string)
    ensures LocalOk(s) <==> DotAtomText(s) && |s| <= 64
  {
    JoinSplit(s, '.');
    PartsDecide(s);
    if DotAtomText(s) {
      var ps: seq<string> :| ps != [] && (forall p | p in ps :: Atom(p)) && Join(ps, '.') == s;
      assert forall p | p in ps :: '.' !in p;
      SplitJoin(ps, '.');
    }
  }

  lemma AtomsAre(s: string, parts: seq<string>)
    requires parts == Split(s, '.') && forall p | p in parts :: '.' !in p
    requires (exists i | 1 <= i < |parts| :: parts[i] == "") <==> (s != "" && s[|s| - 1] == '.') || DoubleDot(s)
    requires parts[0] == "" <==> s == "" || s[0] == '.'
    requires (forall x | x in s :: LocalChar(x)) <==> forall p, x | p in parts && x in p :: LocalChar(x)
    ensures (forall p | p in parts :: Atom(p)) <==>
              s != "" && s[0] != '.' && s[|s| - 1] != '.' && !DoubleDot(s) && forall x | x in s :: LocalChar(x)
  {
    NonEmptyParts(parts);
    AtextParts(parts);
  }

  lemma AtextParts(parts: seq<string>)
    requires forall p | p in parts :: '.' !in p
    ensures (forall p | p in parts :: forall x | x in p :: Atext(x)) <==> forall p, x | p in parts && x in p :: LocalChar(x)
  {
    forall p, x | p in parts && x in p ensures Atext(x) <==> LocalChar(x) {
      assert '.' !in p;
    }
  }

  lemma NonEmptyParts(parts: seq<string>)
    requires parts != []
    ensures (forall p | p in parts :: p != "") <==> parts[0] != "" && !exists i | 1 <= i < |parts| :: parts[i] == ""
  {
    forall i | 0 <= i < |parts| ensures parts[i] in parts {}
    if parts[0] != "" && !exists i | 1 <= i < |parts| :: parts[i] == "" {
      forall p | p in parts ensures p != "" {
        var i :| 0 <= i < |parts| && parts[i] == p;
      }
    }
  }

  lemma DomainIsDotted(s: string)
    ensures DomainOk(s) <==> Domain(s)
  {
    JoinSplit(s, '.');
    if Domain(s) {
      var labels: seq<string> :| |labels| >= 2 && (forall p | p in labels :: Label(p)) && Join(labels, '.') == s;
      assert forall p | p in labels :: '.' !in p;
      SplitJoin(labels, '.');
    }
  }

  /** An address has one `@`, with the local part before it and the domain after it. */
  ghost predicate Parsed(s: string) {
    Occurrences(s, '@') == 1 && SplitOnce(s, '@').Some? &&
    LocalOk(SplitOnce(s, '@').value.0) && DomainOk(SplitOnce(s, '@').value.1)
  }

  lemma NoAt(local: string, domain: string)
    requires LocalOk(local) && Domain(domain)
    ensures '@' !in local && '@' !in domain
  {
    var labels: seq<string> :| |labels| >= 2 && (forall p | p in labels :: Label(p)) && Join(labels, '.') == domain;
    assert forall p | p in labels :: '@' !in p;
    JoinWithout(labels, '.', '@');
  }

  lemma {:induction false} JoinWithout(parts: seq<string>, c: char, x: char)
    requires x != c && forall p | p in parts :: x !in p
    ensures x !in Join(parts, c)
  {
    if |parts| > 1 {
      assert parts[0] in parts;
      JoinWithout(parts[1..], c, x);
    }
  }

  lemma {:induction false} NoneCounted(s: string, c: char)
    requires Occurrences(s, c) == 0
    ensures c !in s
  {
    if s != "" {
      NoneCounted(s[1..], c);
      assert s == [s[0]] + s[1..];
    }
  }

  lemma ParsedIsAddress(s: string)
    ensures Parsed(s) <==> Address(s)
  {
    if Address(s) {
      var local: string, domain: string :|
        s == local + "@" + domain && DotAtomText(local) && |local| <= 64 && Domain(domain);
      AddressIsParsed(s, local, domain);
    }
    if Parsed(s) {
      ParsedParts(s);
    }
  }

  lemma AddressIsParsed(s: string, local: string, domain: string)
    requires s == local + "@" + domain && DotAtomText(local) && |local| <= 64 && Domain(domain)
    ensures Parsed(s)
  {
    LocalIsDotAtom(local);
    DomainIsDotted(domain);
    NoAt(local, domain);
    SplitAfter(local, '@', domain);
    SplitPlain(domain, '@');
  }

  lemma ParsedParts(s: string)
    requires Parsed(s)
    ensures Address(s)
  {
    if '@' !in s {
      SplitPlain(s, '@');
    }
    var local, domain := FindSeparator(s, '@');
    SplitAfter(local, '@', domain);
    LocalIsDotAtom(local);
    DomainIsDotted(domain);
  }

  // ----- every implementation accepts the grammar -----

  /** What all four compute. */
  ghost function Normal(value: string): Option<string> {
    var trimmed := Trim(value);
    if Ascii(trimmed) && Address(Lower(trimmed)) then Some(Lower(trimmed)) else None
  }

  lemma AddressFits(s: string)
    requires Address(s)
    ensures 1 <= |s| <= 320
  {
  }

  lemma LowerHasNoUpper(s: string)
    ensures forall c | c in Lower(s) :: !('A' <= c <= 'Z')
  {
    forall c | c in Lower(s) ensures !('A' <= c <= 'Z') {
      var i :| 0 <= i < |s| && Lower(s)[i] == c;
      assert c == LowerCase(s[i]);
    }
  }

  lemma CountsAndParts(s: string)
    ensures |Split(s, '@')| == Occurrences(s, '@') + 1
    ensures Occurrences(s, '@') == 1 ==> SplitOnce(s, '@') == Some((Split(s, '@')[0], Split(s, '@')[1]))
    ensures SplitOnce(s, '@').Some? <==> '@' in s
    ensures SplitOnce(s, '@').Some? ==> (Occurrences(s, '@') == 1 <==> '@' !in SplitOnce(s, '@').value.1)
  {
    CountIsParts(s, '@');
    if '@' in s {
      var a, b := FindSeparator(s, '@');
      SplitAfter(a, '@', b);
      if Occurrences(b, '@') == 0 {
        NoneCounted(b, '@');
        SplitPlain(b, '@');
      }
      if '@' !in b {
        SplitPlain(b, '@');
      }
    } else {
      SplitPlain(s, '@');
    }
  }

  lemma {:induction false} CountIsParts(s: string, c: char)
    ensures |Split(s, c)| == Occurrences(s, c) + 1
  {
    if s != "" {
      CountIsParts(s[1..], c);
    }
  }

  lemma GoIsNormal(fold: string -> string, value: string)
    requires FoldsAscii(fold)
    ensures Go(fold, value) == Normal(value)
  {
    var trimmed := Trim(value);
    if Ascii(trimmed) {
      AsciiWidths(trimmed);
      ParsedIsAddress(Lower(trimmed));
      if Address(Lower(trimmed)) {
        AddressFits(Lower(trimmed));
      }
    }
  }

  lemma ScriptIsNormal(fold: string -> string, value: string)
    requires FoldsAscii(fold)
    ensures Script(fold, value) == Normal(value)
  {
    var trimmed := Trim(value);
    if Ascii(trimmed) {
      AsciiWidths(trimmed);
      CountsAndParts(Lower(trimmed));
      ParsedIsAddress(Lower(trimmed));
      if Address(Lower(trimmed)) {
        AddressFits(Lower(trimmed));
      }
    }
  }

  lemma DottedHasParts(s: string)
    ensures |Split(s, '.')| >= 2 <==> '.' in s
  {
    CountIsParts(s, '.');
    if '.' !in s {
      SplitPlain(s, '.');
    } else if Occurrences(s, '.') == 0 {
      NoneCounted(s, '.');
    }
  }

  lemma {:induction false} SplitWithin(s: string, c: char)
    ensures forall p, x | p in Split(s, c) && x in p :: x in s
  {
    if s != "" {
      SplitWithin(s[1..], c);
      assert s == [s[0]] + s[1..];
      var rest := Split(s[1..], c);
      assert rest[0] in rest;
    }
  }

  /** On text without capitals the wider character tests of the Rust form are the narrow ones. */
  lemma RustChecks(local: string, domain: string)
    requires forall c | c in local + domain :: !('A' <= c <= 'Z')
    ensures (exists c | c in local :: !(AlnumEither(c) || c == '.' || c in SYMBOLS)) <==> exists c | c in local :: !LocalChar(c)
    ensures (exists p | p in Split(domain, '.') :: !RustLabel(p)) <==> exists p | p in Split(domain, '.') :: !Label(p)
  {
    SplitWithin(domain, '.');
    forall c | c in local ensures !('A' <= c <= 'Z') {
      assert c in local + domain;
    }
    forall p | p in Split(domain, '.') ensures RustLabel(p) <==> Label(p) {
      forall c | c in p ensures !('A' <= c <= 'Z') {
        assert c in local + domain;
      }
    }
  }

  lemma SplitOnceParts(s: string, c: char)
    requires SplitOnce(s, c).Some?
    ensures s == SplitOnce(s, c).value.0 + [c] + SplitOnce(s, c).value.1
  {
    if c !in s {
      SplitPlain(s, c);
    }
    var a, b := FindSeparator(s, c);
    SplitAfter(a, c, b);
  }

  lemma RustIsNormal(value: string)
    ensures Rust(value) == Normal(value)
  {
    var trimmed := Trim(value);
    if Ascii(trimmed) {
      var n := Lower(trimmed);
      AsciiWidths(trimmed);
      CountsAndParts(n);
      ParsedIsAddress(n);
      LowerHasNoUpper(trimmed);
      if SplitOnce(n, '@').Some? {
        var (local, domain) := SplitOnce(n, '@').value;
        SplitOnceParts(n, '@');
        forall c | c in local + domain ensures !('A' <= c <= 'Z') {
          assert c in n;
        }
        RustChecks(local, domain);
        DottedHasParts(domain);
      }
      if Address(n) {
        AddressFits(n);
      }
    }
  }

  /** All four accept the same strings and return the same text, and that text is an address of the grammar. */
  lemma NormalisersAgree(goFold: string -> string, tsFold: string -> string, dartFold: string -> string, value: string)
    requires FoldsAscii(goFold) && FoldsAscii(tsFold) && FoldsAscii(dartFold)
    ensures Rust(value) == Go(goFold, value) == Script(tsFold, value) == Script(dartFold, value)
    ensures Rust(value).Some? <==> Ascii(Trim(value)) && Address(Lower(Trim(value)))
    ensures Rust(value).Some? ==> Rust(value).value == Lower(Trim(value))
  {
    RustIsNormal(value);
    GoIsNormal(goFold, value);
    ScriptIsNormal(tsFold, value);
    ScriptIsNormal(dartFold, value);
  }

  /** Normalising a normalised address changes nothing. */
  lemma NormalIsFixed(value: string)
    requires Rust(value).Some?
    ensures Rust(Rust(value).value) == Rust(value)
  {
    RustIsNormal(value);
    var trimmed := Trim(value);
    NormalEnds(Lower(trimmed));
    LowerOfLower(trimmed);
    LowerAscii(trimmed);
    RustIsNormal(Lower(trimmed));
  }

  lemma LowerAscii(s: string)
    requires Ascii(s)
    ensures Ascii(Lower(s))
  {
    forall c | c in Lower(s) ensures c as int <= 127 {
      var i :| 0 <= i < |s| && Lower(s)[i] == c;
      assert s[i] in s;
    }
  }

  lemma LowerOfLower(s: string)
    ensures Lower(Lower(s)) == Lower(s)
  {
  }

  lemma NothingToTrim(s: string)
    requires s != "" && !Blank(s[0]) && !Blank(s[|s| - 1])
    ensures Trim(s) == s
  {
  }

  lemma EndsOf(local: string, domain: string)
    requires local != "" && domain != ""
    ensures var s := local + ['@'] + domain; s != "" && s[0] == local[0] && s[|s| - 1] == domain[|domain| - 1]
  {
  }

  lemma PartsOf(s: string) returns (local: string, domain: string)
    requires Address(s)
    ensures s == local + ['@'] + domain && LocalOk(local) && DomainOk(domain)
  {
    ParsedIsAddress(s);
    local, domain := SplitOnce(s, '@').value.0, SplitOnce(s, '@').value.1;
    SplitOnceParts(s, '@');
  }

  lemma AtextNotBlank(c: char)
    requires LocalChar(c)
    ensures !Blank(c)
  {
  }

  lemma FirstChar(local: string)
    requires LocalOk(local)
    ensures local != "" && !Blank(local[0])
  {
    assert local[0] in local;
    AtextNotBlank(local[0]);
  }

  lemma NormalEnds(s: string)
    requires Address(s)
    ensures Trim(s) == s
  {
    var local, domain := PartsOf(s);
    LastLabel(domain);
    FirstChar(local);
    EndsOf(local, domain);
    NothingToTrim(s);
  }

  lemma LastLabel(s: string)
    requires DomainOk(s)
    ensures s != "" && !Blank(s[|s| - 1])
  {
    var parts := Split(s, '.');
    JoinSplit(s, '.');
    var last := parts[|parts| - 1];
    assert last in parts && Label(last);
    assert last[|last| - 1] in last;
    JoinLast(parts, '.');
  }

  lemma {:induction false} JoinLast(parts: seq<string>, c: char)
    requires parts != [] && parts[|parts| - 1] != ""
    ensures Join(parts, c) != ""
    ensures Join(parts, c)[|Join(parts, c)| - 1] == parts[|parts| - 1][|parts[|parts| - 1]| - 1]
  {
    if |parts| > 1 {
      JoinLast(parts[1..], c);
    }
  }
}
