/**
 Character and string primitives the analyzer relies on: Python's whitespace
 set (what `\s` in a str pattern matches and what `str.strip()` removes),
 `str.strip()` itself, literal matching with and without `re.IGNORECASE`,
 ASCII lower-casing of a path and the decimal rendering of a line number.
 */
module Text {

  /** The characters Python's `str.isspace()` accepts. `\s` in a str pattern
      and `str.strip()` without arguments use this same set. */
  predicate IsSpace(c: char)
  {
    || ('\t' <= c <= '\r')                  // tab, line feed, vertical tab, form feed, carriage return
    || ('\U{1C}' <= c <= '\U{1F}')          // file, group, record and unit separators
    || c == ' ' || c == '\U{85}' || c == '\U{A0}' || c == '\U{1680}'
    || ('\U{2000}' <= c <= '\U{200A}')
    || c == '\U{2028}' || c == '\U{2029}' || c == '\U{202F}' || c == '\U{205F}' || c == '\U{3000}'
  }

  /** Every character of `s[a..b]` is whitespace. */
  predicate SpaceBetween(s: string, a: nat, b: nat)
  {
    a <= b <= |s| && forall k :: a <= k < b ==> IsSpace(s[k])
  }

  /** The end of the longest run of characters satisfying `p` that starts at `i`. */
  function SkipWhile(s: string, i: nat, p: char -> bool): (j: nat)
    requires i <= |s|
    ensures i <= j <= |s|
    ensures forall k :: i <= k < j ==> p(s[k])
    ensures j < |s| ==> !p(s[j])
    decreases |s| - i
  {
    if i < |s| && p(s[i]) then SkipWhile(s, i + 1, p) else i
  }

  /** The end of the whitespace run starting at `i`: what a greedy `\s*` consumes. */
  function SkipSpace(s: string, i: nat): (j: nat)
    requires i <= |s|
    ensures SpaceBetween(s, i, j)
    ensures j < |s| ==> !IsSpace(s[j])
  {
    SkipWhile(s, i, IsSpace)
  }

  /** A whitespace run from `i` to `j` that is followed by a non-space
      character (or the end) is exactly the run `SkipSpace` finds. */
  lemma SkipSpaceUnique(s: string, i: nat, j: nat)
    requires SpaceBetween(s, i, j)
    requires j < |s| ==> !IsSpace(s[j])
    ensures SkipSpace(s, i) == j
  {
  }

  /** The start of the trailing whitespace of `s[lo..b]`. */
  function TrimEnd(s: string, lo: nat, b: nat): (e: nat)
    requires lo <= b <= |s|
    ensures lo <= e <= b
    ensures SpaceBetween(s, e, b)
    ensures e > lo ==> !IsSpace(s[e - 1])
    decreases b
  {
    if b > lo && IsSpace(s[b - 1]) then TrimEnd(s, lo, b - 1) else b
  }

  /** Python's `str.strip()`: `s` without its leading and trailing whitespace. */
  function Strip(s: string): (r: string)
    ensures r == [] || (!IsSpace(r[0]) && !IsSpace(r[|r| - 1]))
    ensures exists a: nat :: SpaceBetween(s, 0, a) && a + |r| <= |s| && s[a..a + |r|] == r
                        && SpaceBetween(s, a + |r|, |s|)
  {
    var a := SkipSpace(s, 0);
    var b := TrimEnd(s, a, |s|);
    assert SpaceBetween(s, 0, a) && s[a..b] == s[a..a + |s[a..b]|];
    s[a..b]
  }

  /** `w` occurs in `s` at offset `i`, character for character. */
  predicate StartsWithAt(s: string, i: nat, w: string)
  {
    i + |w| <= |s| && s[i..i + |w|] == w
  }

  predicate IsAsciiLower(c: char) { 'a' <= c <= 'z' }

  predicate IsAsciiUpper(c: char) { 'A' <= c <= 'Z' }

  predicate IsAsciiLetter(c: char) { IsAsciiLower(c) || IsAsciiUpper(c) }

  predicate IsAsciiDigit(c: char) { '0' <= c <= '9' }

  function AsciiUpper(c: char): char
    requires IsAsciiLower(c)
  {
    (c as int - 32) as char
  }

  function AsciiLower(c: char): (r: char)
    ensures IsAsciiUpper(c) ==> IsAsciiLower(r) && AsciiUpper(r) == c
    ensures !IsAsciiUpper(c) ==> r == c
  {
    if IsAsciiUpper(c) then (c as int + 32) as char else c
  }

  /** Whether `c` matches the pattern character `lit` (a lower-case letter,
      a digit or punctuation) under `re.IGNORECASE` in a str pattern. Python
      compares simple lower-case forms and adds a few equivalences, so besides
      the ASCII case pair 'i' also matches U+0130 and U+0131, 's' matches
      U+017F (long s) and 'k' matches U+212A (Kelvin sign). */
  predicate FoldMatches(c: char, lit: char)
  {
    || c == lit
    || (IsAsciiLower(lit) && c == AsciiUpper(lit))
    || (lit == 'i' && (c == '\U{130}' || c == '\U{131}'))
    || (lit == 's' && c == '\U{17F}')
    || (lit == 'k' && c == '\U{212A}')
  }

  /** Whatever a letter matches under `re.IGNORECASE` is not whitespace. */
  lemma FoldLetterNotSpace(c: char, lit: char)
    requires IsAsciiLetter(lit) && FoldMatches(c, lit)
    ensures !IsSpace(c)
  {
  }

  /** `w` (lower case) occurs in `s` at offset `i` under `re.IGNORECASE`. */
  predicate FoldStartsWithAt(s: string, i: nat, w: string)
  {
    i + |w| <= |s| && forall k :: 0 <= k < |w| ==> FoldMatches(s[i + k], w[k])
  }

  /** `suffix` is a suffix of `s`: Python's `s.endswith(suffix)`. */
  predicate EndsWith(s: string, suffix: string)
  {
    |suffix| <= |s| && s[|s| - |suffix|..] == suffix
  }

  /** `s` with its ASCII capitals lowered. For the path suffixes the analyzer
      tests (".yaml", ".yml", ".json") this agrees with Python's full
      `str.lower()`: no other character lower-cases to a string ending in one
      of their letters. */
  function LowerAscii(s: string): (r: string)
    ensures |r| == |s|
    ensures forall k :: 0 <= k < |s| ==> r[k] == AsciiLower(s[k])
  {
    seq(|s|, k requires 0 <= k < |s| => AsciiLower(s[k]))
  }

  /** Lower-casing distributes over concatenation. */
  lemma LowerAsciiConcat(a: string, b: string)
    ensures LowerAscii(a + b) == LowerAscii(a) + LowerAscii(b)
  {
    var l, r := LowerAscii(a + b), LowerAscii(a) + LowerAscii(b);
    assert |l| == |r|;
    forall k | 0 <= k < |l| ensures l[k] == r[k] {
      if k < |a| {
        assert (a + b)[k] == a[k];
      } else {
        assert (a + b)[k] == b[k - |a|];
      }
    }
  }

  predicate IsDigits(s: string)
  {
    forall k :: 0 <= k < |s| ==> IsAsciiDigit(s[k])
  }

  function DigitChar(d: nat): (c: char)
    requires d < 10
    ensures IsAsciiDigit(c) && c as int - '0' as int == d
  {
    ('0' as int + d) as char
  }

  /** The number a string of decimal digits denotes. */
  function DecimalValue(s: string): nat
    requires IsDigits(s)
    decreases |s|
  {
    if s == [] then 0
    else DecimalValue(s[..|s| - 1]) * 10 + (s[|s| - 1] as int - '0' as int)
  }

  /** Python's `str(n)` for a non-negative integer: decimal digits without
      leading zeros, denoting `n`. */
  function NatToString(n: nat): (r: string)
    ensures |r| >= 1 && IsDigits(r)
    ensures |r| > 1 ==> r[0] != '0'
    ensures DecimalValue(r) == n
    decreases n
  {
    if n < 10 then [DigitChar(n)]
    else
      var prefix := NatToString(n / 10);
      var r := prefix + [DigitChar(n % 10)];
      assert r[..|r| - 1] == prefix;
      r
  }
}
