/**
 The three regular expressions the analyzer runs over each line with
 `re.search`:

   marker     `(#|\/\/|\/\*)\s*(TODO|FIXME|XXX)`                 case-sensitive
   outdated   `(#|\/\/|\/\*)\s*(deprecated|obsolete|old)`        re.IGNORECASE
   secret     `(api_key|apikey|password|secret)\s*[:=]\s*["']?[a-zA-Z0-9_-]{20,}["']?`
                                                                 re.IGNORECASE

 Each pattern is given twice: once as what the regular expression means (there
 are offsets at which its pieces match one after the other), and once as a
 deterministic scanner that tries each offset, consumes each `\s*` greedily and
 never backtracks. The lemmas show that the two agree on every line.
 */
module Patterns {
  import opened Wrappers
  import opened Text

  const CommentTokens: seq<string> := ["#", "//", "/*"]
  const MarkerWords: seq<string> := ["TODO", "FIXME", "XXX"]
  const OutdatedWords: seq<string> := ["deprecated", "obsolete", "old"]
  const SecretKeys: seq<string> := ["api_key", "apikey", "password", "secret"]

  /** The `{20,}` bound of the secret pattern. */
  const SecretMinLength: nat := 20

  /** `w` occurs at offset `j`, case-sensitively or under `re.IGNORECASE`. */
  predicate WordAt(s: string, j: nat, w: string, fold: bool)
  {
    if fold then FoldStartsWithAt(s, j, w) else StartsWithAt(s, j, w)
  }

  /** The words of an alternation all begin with an ASCII letter. */
  predicate LetterWords(words: seq<string>)
  {
    forall w :: 0 <= w < |words| ==> |words[w]| > 0 && IsAsciiLetter(words[w][0])
  }

  // ---------------------------------------------------------------------
  // What the patterns mean

  /** `(#|//|/\*)\s*(w0|w1|...)` matches `s` from offset `i`: a comment
      token, then whitespace up to some offset `j`, then one of the words. */
  ghost predicate CommentPatternAt(s: string, i: nat, words: seq<string>, fold: bool)
  {
    exists t, j: nat, w :: 0 <= t < |CommentTokens| && 0 <= w < |words|
      && StartsWithAt(s, i, CommentTokens[t])
      && SpaceBetween(s, i + |CommentTokens[t]|, j)
      && WordAt(s, j, words[w], fold)
  }

  /** `re.search` of that pattern succeeds on `s`. */
  ghost predicate CommentPatternSearch(s: string, words: seq<string>, fold: bool)
  {
    exists i: nat :: i <= |s| && CommentPatternAt(s, i, words, fold)
  }

  predicate IsSeparator(c: char) { c == ':' || c == '=' }

  predicate IsQuote(c: char) { c == '"' || c == '\'' }

  /** The class `[a-zA-Z0-9_-]` under `re.IGNORECASE`: besides the ASCII
      letters, digits, '_' and '-' it admits U+0130, U+0131, U+017F and U+212A. */
  predicate IsTokenChar(c: char)
  {
    || IsAsciiLetter(c) || IsAsciiDigit(c) || c == '_' || c == '-'
    || c == '\U{130}' || c == '\U{131}' || c == '\U{17F}' || c == '\U{212A}'
  }

  /** At least `SecretMinLength` token characters start at offset `m`. */
  predicate LongTokenAt(s: string, m: nat)
  {
    m + SecretMinLength <= |s| && forall k :: m <= k < m + SecretMinLength ==> IsTokenChar(s[k])
  }

  /** `["']?[a-zA-Z0-9_-]{20,}` matches from offset `j`: at least
      `SecretMinLength` token characters, with or without a quote before them.
      The trailing `["']?` of the pattern matches the empty string, so it adds
      nothing. */
  predicate QuotedLongTokenAt(s: string, j: nat)
  {
    LongTokenAt(s, j) || (j < |s| && IsQuote(s[j]) && LongTokenAt(s, j + 1))
  }

  /** The part of the secret pattern after the key, `\s*[:=]\s*["']?[a-zA-Z0-9_-]{20,}`,
      matches from offset `p`: whitespace up to the separator at `j1`, then
      whitespace up to `j2`, where the (optionally quoted) token starts. */
  ghost predicate AssignmentPatternAt(s: string, p: nat)
  {
    exists j1: nat, j2: nat ::
      && SpaceBetween(s, p, j1) && j1 < |s| && IsSeparator(s[j1])
      && SpaceBetween(s, j1 + 1, j2) && QuotedLongTokenAt(s, j2)
  }

  /** The secret pattern with the key alternation `keys` matches `s` from
      offset `i`: a key, ignoring case, then the assignment part. */
  ghost predicate SecretPatternAt(s: string, i: nat, keys: seq<string>)
  {
    exists key: nat :: key < |keys| && KeyPatternAt(s, i, keys, key)
  }

  /** Key number `key` of the alternation, ignoring case, at offset `i`,
      and the assignment part of the pattern right after it. */
  ghost predicate KeyPatternAt(s: string, i: nat, keys: seq<string>, key: nat)
  {
    key < |keys| && FoldStartsWithAt(s, i, keys[key]) && AssignmentPatternAt(s, i + |keys[key]|)
  }

  ghost predicate SecretPatternSearch(s: string)
  {
    exists i: nat :: i <= |s| && SecretPatternAt(s, i, SecretKeys)
  }

  // ---------------------------------------------------------------------
  // The scanners

  /** How a one- or two-character token at offset `i` reads in terms of
      the characters there. */
  lemma TokenCharacters(s: string, i: nat)
    ensures StartsWithAt(s, i, "#") <==> i < |s| && s[i] == '#'
    ensures StartsWithAt(s, i, "//") <==> i + 1 < |s| && s[i] == '/' && s[i + 1] == '/'
    ensures StartsWithAt(s, i, "/*") <==> i + 1 < |s| && s[i] == '/' && s[i + 1] == '*'
  {
    if i < |s| {
      assert s[i..i + 1] == [s[i]];
    }
    if i + 1 < |s| {
      assert s[i..i + 2] == [s[i], s[i + 1]];
    }
  }

  /** Where the comment token starting at offset `i` ends, if one starts there. */
  function CommentTokenEnd(s: string, i: nat): (r: Option<nat>)
    ensures forall t :: 0 <= t < |CommentTokens| && StartsWithAt(s, i, CommentTokens[t]) ==>
              r == Some(i + |CommentTokens[t]|)
    ensures r.Some? ==> exists t :: 0 <= t < |CommentTokens| && StartsWithAt(s, i, CommentTokens[t])
                                    && r.value == i + |CommentTokens[t]|
  {
    TokenCharacters(s, i);
    if StartsWithAt(s, i, CommentTokens[0]) then Some(i + |CommentTokens[0]|)
    else if StartsWithAt(s, i, CommentTokens[1]) then Some(i + |CommentTokens[1]|)
    else if StartsWithAt(s, i, CommentTokens[2]) then Some(i + |CommentTokens[2]|)
    else None
  }

  /** One of `words` occurs at offset `j`. */
  predicate AnyWordAt(s: string, j: nat, words: seq<string>, fold: bool)
  {
    exists w :: 0 <= w < |words| && WordAt(s, j, words[w], fold)
  }

  /** A comment token at `i`, the greedy whitespace run after it, then a word. */
  predicate CommentWordAt(s: string, i: nat, words: seq<string>, fold: bool)
  {
    match CommentTokenEnd(s, i)
    case None => false
    case Some(p) => p <= |s| && AnyWordAt(s, SkipSpace(s, p), words, fold)
  }

  /** The marker test of main.py:44. */
  predicate HasMarker(line: string)
  {
    exists i :: 0 <= i < |line| && CommentWordAt(line, i, MarkerWords, false)
  }

  /** The outdated-comment test of main.py:48. */
  predicate HasOutdated(line: string)
  {
    exists i :: 0 <= i < |line| && CommentWordAt(line, i, OutdatedWords, true)
  }

  /** The length of the run of token characters starting at `m`. */
  function TokenRun(s: string, m: nat): (n: nat)
    requires m <= |s|
    ensures m + n <= |s|
    ensures forall k :: m <= k < m + n ==> IsTokenChar(s[k])
    ensures m + n < |s| ==> !IsTokenChar(s[m + n])
  {
    SkipWhile(s, m, IsTokenChar) - m
  }

  /** After a key ending at `p`: whitespace, a separator, whitespace, an
      optional quote and a run of at least 20 token characters. */
  predicate AssignsLongToken(s: string, p: nat)
    requires p <= |s|
  {
    var j1 := SkipSpace(s, p);
    j1 < |s| && IsSeparator(s[j1]) &&
    var j2 := SkipSpace(s, j1 + 1);
    var m := if j2 < |s| && IsQuote(s[j2]) then j2 + 1 else j2;
    TokenRun(s, m) >= SecretMinLength
  }

  /** One of `keys` at offset `i`, ignoring case, and an assignment of a
      long token after it. */
  predicate SecretAt(s: string, i: nat, keys: seq<string>)
  {
    exists key: nat :: key < |keys| && KeyAssignsAt(s, i, keys, key)
  }

  /** Key number `key` at offset `i`, ignoring case, and an accepted
      assignment right after it. */
  predicate KeyAssignsAt(s: string, i: nat, keys: seq<string>, key: nat)
  {
    key < |keys| && FoldStartsWithAt(s, i, keys[key]) && AssignsLongToken(s, i + |keys[key]|)
  }

  /** The credential test of main.py:155. */
  predicate HasSecret(line: string)
  {
    exists i :: 0 <= i < |line| && SecretAt(line, i, SecretKeys)
  }

  // ---------------------------------------------------------------------
  // The scanners decide exactly what the patterns mean

  /** What the greedy comment scanner finds at an offset, the pattern matches there. */
  lemma CommentWordAtMatchesPattern(s: string, i: nat, words: seq<string>, fold: bool)
    requires CommentWordAt(s, i, words, fold)
    ensures CommentPatternAt(s, i, words, fold)
  {
    var p := CommentTokenEnd(s, i).value;
    var t :| 0 <= t < |CommentTokens| && StartsWithAt(s, i, CommentTokens[t])
             && p == i + |CommentTokens[t]|;
    var j := SkipSpace(s, p);
    var w :| 0 <= w < |words| && WordAt(s, j, words[w], fold);
    assert SpaceBetween(s, i + |CommentTokens[t]|, j);
  }

  /** Where the pattern matches at an offset, the greedy scanner finds it:
      every word begins with a letter, so the whitespace run the pattern
      skips ends where the greedy `\s*` stops. */
  lemma PatternMatchesCommentWordAt(s: string, i: nat, words: seq<string>, fold: bool)
    requires LetterWords(words) && CommentPatternAt(s, i, words, fold)
    ensures CommentWordAt(s, i, words, fold)
  {
    var t, j: nat, w :| 0 <= t < |CommentTokens| && 0 <= w < |words|
      && StartsWithAt(s, i, CommentTokens[t])
      && SpaceBetween(s, i + |CommentTokens[t]|, j)
      && WordAt(s, j, words[w], fold);
    var p := i + |CommentTokens[t]|;
    assert CommentTokenEnd(s, i) == Some(p);
    var lit := words[w][0];
    if fold {
      assert FoldMatches(s[j + 0], lit);
      FoldLetterNotSpace(s[j], lit);
    } else {
      assert s[j..j + |words[w]|][0] == lit;
    }
    SkipSpaceUnique(s, p, j);
    assert AnyWordAt(s, SkipSpace(s, p), words, fold);
  }

  /** At one offset, the greedy comment scanner agrees with the pattern. */
  lemma CommentWordAtIsPattern(s: string, i: nat, words: seq<string>, fold: bool)
    requires LetterWords(words)
    ensures CommentWordAt(s, i, words, fold) <==> CommentPatternAt(s, i, words, fold)
  {
    if CommentWordAt(s, i, words, fold) {
      CommentWordAtMatchesPattern(s, i, words, fold);
    }
    if CommentPatternAt(s, i, words, fold) {
      PatternMatchesCommentWordAt(s, i, words, fold);
    }
  }

  /** The comment scanner and `re.search` of the comment pattern agree. */
  lemma CommentScanIsPatternSearch(s: string, words: seq<string>, fold: bool)
    requires LetterWords(words)
    ensures (exists i :: 0 <= i < |s| && CommentWordAt(s, i, words, fold))
            <==> CommentPatternSearch(s, words, fold)
  {
    if exists i :: 0 <= i < |s| && CommentWordAt(s, i, words, fold) {
      var i :| 0 <= i < |s| && CommentWordAt(s, i, words, fold);
      CommentWordAtIsPattern(s, i, words, fold);
    }
    if CommentPatternSearch(s, words, fold) {
      var i: nat :| i <= |s| && CommentPatternAt(s, i, words, fold);
      CommentWordAtIsPattern(s, i, words, fold);
      assert CommentTokenEnd(s, i).Some?;
    }
  }

  /** `HasMarker` is exactly `re.search(r"(#|\/\/|\/\*)\s*(TODO|FIXME|XXX)", line)`. */
  lemma HasMarkerIsPatternSearch(line: string)
    ensures HasMarker(line) <==> CommentPatternSearch(line, MarkerWords, false)
  {
    CommentScanIsPatternSearch(line, MarkerWords, false);
  }

  /** `HasOutdated` is exactly the case-insensitive search for
      `(#|\/\/|\/\*)\s*(deprecated|obsolete|old)` in `line`. */
  lemma HasOutdatedIsPatternSearch(line: string)
    ensures HasOutdated(line) <==> CommentPatternSearch(line, OutdatedWords, true)
  {
    CommentScanIsPatternSearch(line, OutdatedWords, true);
  }

  /** What the greedy assignment scanner accepts, the pattern matches. */
  lemma AssignsLongTokenMatchesPattern(s: string, p: nat)
    requires p <= |s| && AssignsLongToken(s, p)
    ensures AssignmentPatternAt(s, p)
  {
    var j1 := SkipSpace(s, p);
    var j2 := SkipSpace(s, j1 + 1);
    var m := if j2 < |s| && IsQuote(s[j2]) then j2 + 1 else j2;
    assert TokenRun(s, m) >= SecretMinLength;
    assert LongTokenAt(s, m);
    assert QuotedLongTokenAt(s, j2);
  }

  /** Separators, quotes and token characters are not whitespace, and a
      quote is not a token character. */
  lemma CharacterClassesDisjoint(c: char)
    ensures IsSeparator(c) || IsQuote(c) || IsTokenChar(c) ==> !IsSpace(c)
    ensures IsQuote(c) ==> !IsTokenChar(c)
  {
  }

  /** An optionally quoted long token starts with a character that is not
      whitespace, and the scanner's token run after the optional quote is
      long enough. */
  lemma QuotedLongTokenScan(s: string, j: nat)
    requires QuotedLongTokenAt(s, j)
    ensures j < |s| && !IsSpace(s[j])
    ensures var m := if IsQuote(s[j]) then j + 1 else j;
            m <= |s| && TokenRun(s, m) >= SecretMinLength
  {
    var c := s[j];
    CharacterClassesDisjoint(c);
    var m := if IsQuote(c) then j + 1 else j;
    assert LongTokenAt(s, m) by {
      if LongTokenAt(s, j) { assert IsTokenChar(c); }
    }
  }

  /** The scanner accepts the text after a key once its two whitespace runs
      end at `j1` (a separator) and `j2`, and a long enough token run
      follows the optional quote at `j2`. */
  lemma AssignsLongTokenWitness(s: string, p: nat, j1: nat, j2: nat)
    requires p <= |s| && SkipSpace(s, p) == j1 && j1 < |s| && IsSeparator(s[j1])
    requires SkipSpace(s, j1 + 1) == j2 && j2 < |s|
    requires var m := if IsQuote(s[j2]) then j2 + 1 else j2;
             m <= |s| && TokenRun(s, m) >= SecretMinLength
    ensures AssignsLongToken(s, p)
  {
  }

  /** Whatever the assignment pattern matches, the greedy scanner accepts:
      each `\s*` is followed by a character that is not whitespace, and the
      optional quote is never a token character. */
  lemma PatternMatchesAssignsLongToken(s: string, p: nat)
    requires p <= |s| && AssignmentPatternAt(s, p)
    ensures AssignsLongToken(s, p)
  {
    var j1: nat, j2: nat :|
      && SpaceBetween(s, p, j1) && j1 < |s| && IsSeparator(s[j1])
      && SpaceBetween(s, j1 + 1, j2) && QuotedLongTokenAt(s, j2);
    assert SkipSpace(s, p) == j1 by {
      CharacterClassesDisjoint(s[j1]);
      SkipSpaceUnique(s, p, j1);
    }
    QuotedLongTokenScan(s, j2);
    assert SkipSpace(s, j1 + 1) == j2 by {
      SkipSpaceUnique(s, j1 + 1, j2);
    }
    AssignsLongTokenWitness(s, p, j1, j2);
  }

  /** The assignment scanner and the assignment pattern agree after a key. */
  lemma AssignsLongTokenIsPattern(s: string, p: nat)
    requires p <= |s|
    ensures AssignsLongToken(s, p) <==> AssignmentPatternAt(s, p)
  {
    if AssignsLongToken(s, p) {
      AssignsLongTokenMatchesPattern(s, p);
    }
    if AssignmentPatternAt(s, p) {
      PatternMatchesAssignsLongToken(s, p);
    }
  }

  /** After the same key, the scanner and the pattern agree. */
  lemma KeyAssignsAtIsPattern(s: string, i: nat, keys: seq<string>, key: nat)
    ensures KeyAssignsAt(s, i, keys, key) <==> KeyPatternAt(s, i, keys, key)
  {
    if key < |keys| && FoldStartsWithAt(s, i, keys[key]) {
      AssignsLongTokenIsPattern(s, i + |keys[key]|);
    }
  }

  /** At one offset, the greedy secret scanner agrees with the pattern,
      whatever the key alternation. */
  lemma SecretAtIsPattern(s: string, i: nat, keys: seq<string>)
    ensures SecretAt(s, i, keys) <==> SecretPatternAt(s, i, keys)
  {
    if SecretAt(s, i, keys) {
      var key: nat :| key < |keys| && KeyAssignsAt(s, i, keys, key);
      KeyAssignsAtIsPattern(s, i, keys, key);
    }
    if SecretPatternAt(s, i, keys) {
      var key: nat :| key < |keys| && KeyPatternAt(s, i, keys, key);
      KeyAssignsAtIsPattern(s, i, keys, key);
    }
  }

  /** `HasSecret` is exactly the case-insensitive `re.search` of the
      credential pattern of main.py:155 in `line`. */
  lemma HasSecretIsPatternSearch(line: string)
    ensures HasSecret(line) <==> SecretPatternSearch(line)
  {
    if HasSecret(line) {
      var i :| 0 <= i < |line| && SecretAt(line, i, SecretKeys);
      SecretAtIsPattern(line, i, SecretKeys);
    }
    if SecretPatternSearch(line) {
      var i: nat :| i <= |line| && SecretPatternAt(line, i, SecretKeys);
      SecretAtIsPattern(line, i, SecretKeys);
      assert i < |line|;
    }
  }
}
