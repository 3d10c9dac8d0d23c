/**
 Concrete lines and what the scanners make of them, chosen to show the
 edges of the three patterns as main.py writes them.
 */
module Examples {
  import opened Wrappers
  import opened Text
  import opened Patterns
  import opened Scanners

  /** `old` is matched ignoring case and needs no word boundary, so a
      comment starting with "Older" is reported as outdated. */
  lemma OlderIsOutdated()
    ensures HasOutdated("# Older layout")
  {
    var s := "# Older layout";
    TokenCharacters(s, 0);
    assert CommentTokenEnd(s, 0) == Some(1);
    SkipSpaceUnique(s, 1, 2);
    assert WordAt(s, 2, OutdatedWords[2], true);
    assert CommentWordAt(s, 0, OutdatedWords, true);
  }

  /** The marker words are matched case-sensitively. */
  lemma LowerCaseTodoIsNoMarker()
    ensures !HasMarker("# todo")
  {
    var s := "# todo";
    TokenCharacters(s, 0);
    assert CommentTokenEnd(s, 0) == Some(1);
    SkipSpaceUnique(s, 1, 2);
    assert !AnyWordAt(s, 2, MarkerWords, false) by {
      forall w | 0 <= w < |MarkerWords| ensures !WordAt(s, 2, MarkerWords[w], false) {
        assert MarkerWords[w][0] in {'T', 'F', 'X'};
        assert s[2] == 't';
      }
    }
    forall i | 0 < i < |s| ensures CommentTokenEnd(s, i) == None {
      assert s[i] != '#' && s[i] != '/';
      TokenCharacters(s, i);
    }
  }

  /** Only the first character of "# TODO deprecated" can start a comment token. */
  lemma TodoDeprecatedTokens(i: nat)
    requires 0 < i < |"# TODO deprecated"|
    ensures CommentTokenEnd("# TODO deprecated", i) == None
  {
    var s := "# TODO deprecated";
    assert s[i] != '#' && s[i] != '/';
    TokenCharacters(s, i);
  }

  lemma TodoDeprecatedIsMarker()
    ensures HasMarker("# TODO deprecated")
  {
    var s := "# TODO deprecated";
    TokenCharacters(s, 0);
    assert CommentTokenEnd(s, 0) == Some(1);
    SkipSpaceUnique(s, 1, 2);
    assert WordAt(s, 2, MarkerWords[0], false);
    assert CommentWordAt(s, 0, MarkerWords, false);
  }

  lemma TodoDeprecatedIsNotOutdated()
    ensures !HasOutdated("# TODO deprecated")
  {
    var s := "# TODO deprecated";
    TokenCharacters(s, 0);
    assert CommentTokenEnd(s, 0) == Some(1);
    SkipSpaceUnique(s, 1, 2);
    assert !AnyWordAt(s, 2, OutdatedWords, true) by {
      forall w | 0 <= w < |OutdatedWords| ensures !WordAt(s, 2, OutdatedWords[w], true) {
        assert OutdatedWords[w][0] in {'d', 'o'};
        assert !FoldMatches(s[2], OutdatedWords[w][0]);
      }
    }
    forall i | 0 < i < |s| ensures !CommentWordAt(s, i, OutdatedWords, true) {
      TodoDeprecatedTokens(i);
    }
  }

  /** The keyword has to follow the comment token and its whitespace
      directly: in "# TODO deprecated" only the marker is found, so the
      line yields one warning, not two. */
  lemma MarkerBeforeOutdatedWord(n: nat)
    ensures CommentLineWarnings(n, "# TODO deprecated") == [LineMessage(MarkerPrefix, n, "# TODO deprecated")]
  {
    TodoDeprecatedIsMarker();
    TodoDeprecatedIsNotOutdated();
  }

  lemma PasswordTokenIsLong()
    ensures LongTokenAt("password = \"abcdefghijklmnopqrstuvwxyz\"", 12)
  {
    var s := "password = \"abcdefghijklmnopqrstuvwxyz\"";
    forall k | 12 <= k < 12 + SecretMinLength ensures IsTokenChar(s[k]) {
      assert IsAsciiLower(s[k]);
    }
  }

  lemma PasswordAssignment()
    ensures AssignmentPatternAt("password = \"abcdefghijklmnopqrstuvwxyz\"", 8)
  {
    var s := "password = \"abcdefghijklmnopqrstuvwxyz\"";
    PasswordTokenIsLong();
    assert QuotedLongTokenAt(s, 11);
    assert SpaceBetween(s, 8, 9) && IsSeparator(s[9]) && SpaceBetween(s, 10, 11);
  }

  /** A quoted 26-character token after `password =` is a secret. */
  lemma QuotedPasswordIsSecret()
    ensures HasSecret("password = \"abcdefghijklmnopqrstuvwxyz\"")
  {
    var s := "password = \"abcdefghijklmnopqrstuvwxyz\"";
    assert SecretKeys[2] == "password";
    assert FoldStartsWithAt(s, 0, SecretKeys[2]);
    PasswordAssignment();
    PatternMatchesAssignsLongToken(s, 8);
    assert KeyAssignsAt(s, 0, SecretKeys, 2);
    assert SecretAt(s, 0, SecretKeys);
  }

  /** The separator is not optional: a line without ':' or '=' is never
      reported, however long the token after the key. */
  lemma SeparatorRequired(line: string)
    requires forall k :: 0 <= k < |line| ==> !IsSeparator(line[k])
    ensures !HasSecret(line)
  {
  }
}
