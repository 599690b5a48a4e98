/** The text `JSON.stringify` gives for nested arrays and objects of identifier strings and nulls. */
module JsonText {

  datatype Term = Nil | Text(text: string) | List(items: seq<Term>) | Record(entries: seq<Entry>)
  datatype Entry = Entry(key: string, value: Term)

  /** A string that JSON writes between quotes without any escape. */
  predicate Plain(s: string) {
    forall c | c in s :: ' ' <= c && c != '"' && c != '\\'
  }

  predicate PlainTerm(t: Term) {
    match t
    case Nil => true
    case Text(s) => Plain(s)
    case List(items) => forall x | x in items :: PlainTerm(x)
    case Record(entries) => forall e | e in entries :: Plain(e.key) && PlainTerm(e.value)
  }

  function Print(t: Term): string
    decreases t, 1
  {
    match t
    case Nil => "null"
    case Text(s) => "\"" + s + "\""
    case List(items) => "[" + PrintItems(items, true)
    case Record(entries) => "{" + PrintEntries(entries, true)
  }

  function PrintItems(items: seq<Term>, first: bool): string
    decreases items, 0
  {
    if items == [] then "]"
    else (if first then "" else ",") + (Print(items[0]) + PrintItems(items[1..], false))
  }

  function PrintEntries(entries: seq<Entry>, first: bool): string
    decreases entries, 0
  {
    if entries == [] then "}"
    else (if first then "" else ",") + (PrintEntry(entries[0]) + PrintEntries(entries[1..], false))
  }

  function PrintEntry(e: Entry): string
    decreases e, 2
  {
    "\"" + e.key + "\":" + Print(e.value)
  }

  function Texts(ss: seq<string>): (r: seq<Term>)
    ensures |r| == |ss|
    ensures forall i | 0 <= i < |ss| :: r[i] == Text(ss[i])
  {
    seq(|ss|, i requires 0 <= i < |ss| => Text(ss[i]))
  }

  lemma TextsInjective(a: seq<string>, b: seq<string>)
    requires Texts(a) == Texts(b)
    ensures a == b
  {
    assert |a| == |b|;
    forall i | 0 <= i < |a| ensures a[i] == b[i] {
      assert Texts(a)[i] == Texts(b)[i];
    }
  }

  lemma {:induction false} QuotedPrefix(a: string, b: string, ra: string, rb: string)
    requires Plain(a) && Plain(b)
    requires a + "\"" + ra == b + "\"" + rb
    ensures a == b && ra == rb
  {
    var x, y := a + "\"" + ra, b + "\"" + rb;
    assert a != "" ==> x[0] == a[0] && a[0] in a;
    assert b != "" ==> y[0] == b[0] && b[0] in b;
    assert a == "" ==> x[0] == '"';
    assert b == "" ==> y[0] == '"';
    if a == "" {
      assert ra == x[1..] && rb == y[1..];
    } else {
      assert a[1..] + "\"" + ra == x[1..] && b[1..] + "\"" + rb == y[1..];
      forall c | c in a[1..] ensures ' ' <= c && c != '"' && c != '\\' { assert c in a; }
      forall c | c in b[1..] ensures ' ' <= c && c != '"' && c != '\\' { assert c in b; }
      QuotedPrefix(a[1..], b[1..], ra, rb);
      assert a == [a[0]] + a[1..] && b == [b[0]] + b[1..];
    }
  }

  /** The first character of a printed term names its kind. */
  lemma PrintHead(t: Term, r: string)
    ensures |Print(t)| > 0
    ensures (Print(t) + r)[0] == match t case Nil => 'n' case Text(_) => '"' case List(_) => '[' case Record(_) => '{'
  {
  }

  /** What follows that character. */
  lemma Opened(t: Term, r: string)
    ensures (Print(t) + r)[1..] ==
              match t
              case Nil => "ull" + r
              case Text(s) => s + "\"" + r
              case List(items) => PrintItems(items, true) + r
              case Record(entries) => PrintEntries(entries, true) + r
  {
  }

  /** Printed terms are self-delimiting, so printing is injective even inside a longer text. */
  lemma {:induction false} PrintPrefix(a: Term, b: Term, ra: string, rb: string)
    requires PlainTerm(a) && PlainTerm(b)
    requires Print(a) + ra == Print(b) + rb
    ensures a == b && ra == rb
    decreases a, 1
  {
    PrintHead(a, ra);
    PrintHead(b, rb);
    match a
    case Nil =>
      Opened(a, ra);
      Opened(b, rb);
      assert ("ull" + ra)[3..] == ra && ("ull" + rb)[3..] == rb;
    case Text(s) =>
      Opened(a, ra);
      Opened(b, rb);
      QuotedPrefix(s, b.text, ra, rb);
    case List(items) =>
      Opened(a, ra);
      Opened(b, rb);
      ItemsPrefix(items, b.items, true, ra, rb);
    case Record(entries) =>
      Opened(a, ra);
      Opened(b, rb);
      EntriesPrefix(entries, b.entries, true, ra, rb);
  }

  lemma ItemsHead(items: seq<Term>, first: bool, r: string)
    ensures |PrintItems(items, first)| > 0
    ensures items == [] <==> (PrintItems(items, first) + r)[0] == ']'
  {
    if items != [] {
      PrintHead(items[0], PrintItems(items[1..], false) + r);
      PrintHead(items[0], "");
    }
  }

  lemma ItemsSplit(a: seq<Term>, first: bool, r: string)
    requires a != []
    ensures (PrintItems(a, first) + r)[if first then 0 else 1..] == Print(a[0]) + (PrintItems(a[1..], false) + r)
  {
    AfterLead(if first then "" else ",", Print(a[0]), PrintItems(a[1..], false), r);
  }

  lemma AfterLead(lead: string, x: string, y: string, r: string)
    ensures ((lead + (x + y)) + r)[|lead|..] == x + (y + r)
  {
  }

  lemma {:induction false} ItemsPrefix(a: seq<Term>, b: seq<Term>, first: bool, ra: string, rb: string)
    requires forall x | x in a :: PlainTerm(x)
    requires forall x | x in b :: PlainTerm(x)
    requires PrintItems(a, first) + ra == PrintItems(b, first) + rb
    ensures a == b && ra == rb
    decreases a, 0
  {
    ItemsHead(a, first, ra);
    ItemsHead(b, first, rb);
    if a == [] {
      assert (PrintItems(a, first) + ra)[1..] == ra && (PrintItems(b, first) + rb)[1..] == rb;
    } else {
      var ta, tb := PrintItems(a[1..], false) + ra, PrintItems(b[1..], false) + rb;
      ItemsSplit(a, first, ra);
      ItemsSplit(b, first, rb);
      PrintPrefix(a[0], b[0], ta, tb);
      ItemsPrefix(a[1..], b[1..], false, ra, rb);
      assert a == [a[0]] + a[1..] && b == [b[0]] + b[1..];
    }
  }

  lemma {:induction false} EntryPrefix(a: Entry, b: Entry, ra: string, rb: string)
    requires Plain(a.key) && PlainTerm(a.value) && Plain(b.key) && PlainTerm(b.value)
    requires PrintEntry(a) + ra == PrintEntry(b) + rb
    ensures a == b && ra == rb
    decreases a, 2
  {
    var va, vb := Print(a.value) + ra, Print(b.value) + rb;
    assert (PrintEntry(a) + ra)[1..] == a.key + "\"" + (":" + va);
    assert (PrintEntry(b) + rb)[1..] == b.key + "\"" + (":" + vb);
    QuotedPrefix(a.key, b.key, ":" + va, ":" + vb);
    assert (":" + va)[1..] == va && (":" + vb)[1..] == vb;
    PrintPrefix(a.value, b.value, ra, rb);
  }

  lemma EntriesHead(entries: seq<Entry>, first: bool, r: string)
    ensures |PrintEntries(entries, first)| > 0
    ensures entries == [] <==> (PrintEntries(entries, first) + r)[0] == '}'
  {
  }

  lemma EntriesSplit(a: seq<Entry>, first: bool, r: string)
    requires a != []
    ensures (PrintEntries(a, first) + r)[if first then 0 else 1..] == PrintEntry(a[0]) + (PrintEntries(a[1..], false) + r)
  {
    AfterLead(if first then "" else ",", PrintEntry(a[0]), PrintEntries(a[1..], false), r);
  }

  lemma {:induction false} EntriesPrefix(a: seq<Entry>, b: seq<Entry>, first: bool, ra: string, rb: string)
    requires forall e | e in a :: Plain(e.key) && PlainTerm(e.value)
    requires forall e | e in b :: Plain(e.key) && PlainTerm(e.value)
    requires PrintEntries(a, first) + ra == PrintEntries(b, first) + rb
    ensures a == b && ra == rb
    decreases a, 0
  {
    EntriesHead(a, first, ra);
    EntriesHead(b, first, rb);
    if a == [] {
      assert (PrintEntries(a, first) + ra)[1..] == ra && (PrintEntries(b, first) + rb)[1..] == rb;
    } else {
      var ta, tb := PrintEntries(a[1..], false) + ra, PrintEntries(b[1..], false) + rb;
      EntriesSplit(a, first, ra);
      EntriesSplit(b, first, rb);
      EntryPrefix(a[0], b[0], ta, tb);
      EntriesPrefix(a[1..], b[1..], false, ra, rb);
      assert a == [a[0]] + a[1..] && b == [b[0]] + b[1..];
    }
  }

  /** Equal text means equal term: a printed signature identifies what it was made from. */
  lemma PrintInjective(a: Term, b: Term)
    requires PlainTerm(a) && PlainTerm(b)
    ensures Print(a) == Print(b) <==> a == b
  {
    if Print(a) == Print(b) {
      assert Print(a) + "" == Print(b) + "";
      PrintPrefix(a, b, "", "");
    }
  }
}
