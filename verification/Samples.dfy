/** Distinct names, for inputs that need many of them. */
module Samples {
  import Document

  function Letter(i: int): char
    requires 0 <= i < 16
  {
    "abcdefghijklmnop"[i]
  }

  function Suffix(i: int): string
    requires 0 <= i < 256
  {
    [Letter(i / 16), Letter(i % 16)]
  }

  lemma LetterValue(i: int)
    requires 0 <= i < 16
    ensures Letter(i) as int == 97 + i
  {
  }

  lemma SuffixInjective(i: int, k: int)
    requires 0 <= i < 256 && 0 <= k < 256 && Suffix(i) == Suffix(k)
    ensures i == k
  {
    LetterValue(i / 16);
    LetterValue(k / 16);
    LetterValue(i % 16);
    LetterValue(k % 16);
    assert Suffix(i)[0] == Suffix(k)[0] && Suffix(i)[1] == Suffix(k)[1];
  }

  function Repeat(c: char, n: nat): (s: string)
    ensures |s| == n && forall i | 0 <= i < n :: s[i] == c
  {
    seq(n, i => c)
  }

  /** Fifteen characters: longer than any reserved word. */
  function NameAt(letter: char, i: int): (s: string)
    requires 0 <= i < 256
    ensures |s| == 15 && s[0] == letter && s[13..] == Suffix(i)
  {
    Repeat(letter, 13) + Suffix(i)
  }

  lemma NamedInjective(letter: char, i: int, k: int)
    requires 0 <= i < 256 && 0 <= k < 256 && NameAt(letter, i) == NameAt(letter, k)
    ensures i == k
  {
    SuffixInjective(i, k);
  }

  lemma NamedLetters(letter: char, i: int)
    requires 0 <= i < 256
    ensures forall c | c in NameAt(letter, i) :: c == letter || 'a' <= c <= 'p'
  {
    LetterValue(i / 16);
    LetterValue(i % 16);
  }

  lemma SystemColumnsAreShort(s: string)
    requires s in Document.SYSTEM_COLUMNS
    ensures |s| < 15
  {
  }
}
