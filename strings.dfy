/**
 * Character and string helpers shared by the date parser and the file-name
 * logic: ASCII decimal digits, zero-padded decimal numerals, the whitespace
 * that Python's `str.split()` splits on, and ASCII lower-casing.
 */
module Strings {

  /** An ASCII decimal digit. */
  predicate IsDigit(c: char) {
    '0' <= c <= '9'
  }

  predicate AllDigits(s: string) {
    forall i :: 0 <= i < |s| ==> IsDigit(s[i])
  }

  function DigitValue(c: char): (n: nat)
    requires IsDigit(c)
    ensures n < 10
  {
    c as int - '0' as int
  }

  function DigitChar(n: nat): (c: char)
    requires n < 10
    ensures IsDigit(c) && DigitValue(c) == n
  {
    ('0' as int + n) as char
  }

  function Pow10(w: nat): (p: nat)
    ensures p >= 1
  {
    if w == 0 then 1 else 10 * Pow10(w - 1)
  }

  /** The number that the decimal numeral s denotes, most significant digit first. */
  function Value(s: string): nat
    requires AllDigits(s)
  {
    if s == [] then 0 else 10 * Value(s[..|s| - 1]) + DigitValue(s[|s| - 1])
  }

  /** The low `width` decimal digits of n, zero-padded on the left. */
  function Pad(n: nat, width: nat): (s: string)
    ensures |s| == width && AllDigits(s)
  {
    if width == 0 then [] else Pad(n / 10, width - 1) + [DigitChar(n % 10)]
  }

  /** Reading back a padded numeral gives the number, whenever it fits the width. */
  lemma {:induction false} ValueOfPad(n: nat, width: nat)
    requires n < Pow10(width)
    ensures Value(Pad(n, width)) == n
  {
    if width > 0 {
      var s := Pad(n, width);
      assert s[..|s| - 1] == Pad(n / 10, width - 1);
      ValueOfPad(n / 10, width - 1);
    }
  }

  /** Every numeral is the padded form of its value at its own width. */
  lemma {:induction false} PadOfValue(s: string)
    requires AllDigits(s)
    ensures Value(s) < Pow10(|s|)
    ensures Pad(Value(s), |s|) == s
  {
    if s != [] {
      var init, last := s[..|s| - 1], s[|s| - 1];
      PadOfValue(init);
      var n := Value(s);
      assert n == 10 * Value(init) + DigitValue(last);
      assert n / 10 == Value(init) && n % 10 == DigitValue(last);
      assert DigitChar(DigitValue(last)) == last;
      assert s == init + [last];
    }
  }

  /** A string is what comes before position i, the character at i, and what follows it. */
  lemma SplitAt(s: string, i: nat)
    requires i < |s|
    ensures s == s[..i] + [s[i]] + s[i + 1..]
  {
    assert s[..i + 1] == s[..i] + [s[i]];
    assert s == s[..i + 1] + s[i + 1..];
  }

  /**
   * Whitespace as Python's `str.split()` without arguments recognises it:
   * U+0009..U+000D, U+001C..U+0020, U+0085, U+00A0, U+1680, U+2000..U+200A,
   * U+2028, U+2029, U+202F, U+205F and U+3000.
   */
  predicate IsSpace(c: char) {
    var n := c as int;
    (9 <= n <= 13) || (28 <= n <= 32) || n == 0x85 || n == 0xA0 || n == 0x1680
    || (0x2000 <= n <= 0x200A) || n == 0x2028 || n == 0x2029 || n == 0x202F
    || n == 0x205F || n == 0x3000
  }

  /** Length of the run of whitespace that s starts with. */
  function LeadingSpaces(s: string): (k: nat)
    ensures k <= |s|
    ensures forall i :: 0 <= i < k ==> IsSpace(s[i])
    ensures k < |s| ==> !IsSpace(s[k])
  {
    if s == [] || !IsSpace(s[0]) then 0 else 1 + LeadingSpaces(s[1..])
  }

  /** Length of the run of non-whitespace that s starts with. */
  function WordLength(s: string): (n: nat)
    ensures n <= |s|
    ensures forall i :: 0 <= i < n ==> !IsSpace(s[i])
    ensures n < |s| ==> IsSpace(s[n])
  {
    if s == [] || IsSpace(s[0]) then 0 else 1 + WordLength(s[1..])
  }

  /**
   * `s.split()[0]`: the first maximal run of non-whitespace in s, or the empty
   * string when s is all whitespace (where Python's list would be empty).
   */
  function FirstWord(s: string): (w: string)
    ensures w == [] <==> forall i :: 0 <= i < |s| ==> IsSpace(s[i])
    ensures forall i :: 0 <= i < |w| ==> !IsSpace(w[i])
    ensures exists k :: WordAt(s, k, w)
  {
    var k := LeadingSpaces(s);
    var t := s[k..];
    var n := WordLength(t);
    var w := s[k..k + n];
    assert forall i :: 0 <= i < n ==> w[i] == t[i];
    assert k < |s| ==> t[0] == s[k] && n > 0;
    assert WordAt(s, k, w);
    w
  }

  /** w occurs in s at k, preceded only by whitespace and followed by whitespace or the end. */
  ghost predicate WordAt(s: string, k: nat, w: string) {
    k + |w| <= |s| && s[k..k + |w|] == w
    && (forall i :: 0 <= i < k ==> IsSpace(s[i]))
    && (k + |w| < |s| ==> IsSpace(s[k + |w|]))
  }

  /**
   * The first word of a value is the text up to its first whitespace when that
   * text is non-empty: whatever follows the separator never matters.
   */
  lemma FirstWordBeforeSpace(word: string, sep: char, rest: string)
    requires word != [] && forall i :: 0 <= i < |word| ==> !IsSpace(word[i])
    requires IsSpace(sep)
    ensures FirstWord(word + [sep] + rest) == word
  {
    var s := word + [sep] + rest;
    assert s[0] == word[0];
    assert LeadingSpaces(s) == 0;
    assert s[0..] == s;
    var n := WordLength(s);
    assert s[|word|] == sep;
    assert n == |word|;
    assert s[..n] == word;
  }

  function LowerChar(c: char): char {
    if 'A' <= c <= 'Z' then (c as int + 32) as char else c
  }

  /**
   * ASCII lower-casing. Python's `str.lower()` also lower-cases non-ASCII
   * letters; for comparisons against ASCII-only names that makes no difference.
   */
  function Lower(s: string): (r: string)
    ensures |r| == |s|
    ensures forall i :: 0 <= i < |s| ==> r[i] == LowerChar(s[i])
  {
    seq(|s|, i requires 0 <= i < |s| => LowerChar(s[i]))
  }

  /**
   * The result of lower-casing has no ASCII capital letter, every character
   * that is not one is kept as it is, and lower-casing again changes nothing.
   */
  lemma LowerCase(s: string)
    ensures forall i :: 0 <= i < |s| ==> !('A' <= Lower(s)[i] <= 'Z')
    ensures forall i :: 0 <= i < |s| && !('A' <= s[i] <= 'Z') ==> Lower(s)[i] == s[i]
    ensures Lower(Lower(s)) == Lower(s)
  {
  }
}
