/**
 The two per-line scanners of main.py: `analyze_comments` (marker and
 outdated comments) and `find_secrets` (credential-like assignments). Both
 walk the lines of the file in order and append 1-based, stripped-line
 messages to a list.
 */
module Scanners {
  import opened Text
  import opened Patterns
  import opened Files

  // ---------------------------------------------------------------------
  // Messages

  /** The common start of both comment-scan messages. */
  const CommentScanPrefix := "Warning: Potential "
  const MarkerPrefix := CommentScanPrefix + "TODO/FIXME/XXX found on line "
  const OutdatedPrefix := CommentScanPrefix + "outdated comment found on line "
  const SecretPrefix := "Potential secret found on line "

  /** The message shape of every scanner: prefix, 1-based line number, ": ",
      then the line stripped of surrounding whitespace. */
  function LineMessage(prefix: string, n: nat, line: string): (m: string)
    ensures prefix <= m
  {
    var m := prefix + (NatToString(n) + ": " + Strip(line));
    assert m[..|prefix|] == prefix;
    m
  }

  predicate IsCommentScanMessage(m: string) { CommentScanPrefix <= m }

  predicate IsSecretMessage(m: string) { SecretPrefix <= m }

  /** A message that begins with `prefix` begins with every prefix of it. */
  lemma PrefixTransitive(a: string, b: string, m: string)
    requires a <= b && b <= m
    ensures a <= m
  {
    assert m[..|a|] == b[..|a|];
  }

  // ---------------------------------------------------------------------
  // Scanning lines in order

  /** The messages a scanner appends while walking `lines`, where `f(n, line)`
      is what it appends for line number `n`. */
  function ScanLines(lines: seq<string>, f: (nat, string) -> seq<string>): seq<string>
    decreases |lines|
  {
    if lines == [] then []
    else
      var k := |lines| - 1;
      ScanLines(lines[..k], f) + f(k + 1, lines[k])
  }

  /** Scanning one more line appends that line's messages. */
  lemma ScanLinesStep(lines: seq<string>, f: (nat, string) -> seq<string>, i: nat)
    requires i < |lines|
    ensures ScanLines(lines[..i + 1], f) == ScanLines(lines[..i], f) + f(i + 1, lines[i])
  {
    assert lines[..i + 1][..i] == lines[..i];
  }

  /** A message is produced exactly when some line, numbered from 1,
      produces it. */
  lemma {:induction false} ScanLinesMembership(lines: seq<string>, f: (nat, string) -> seq<string>, m: string)
    ensures m in ScanLines(lines, f) <==> exists i :: 0 <= i < |lines| && m in f(i + 1, lines[i])
    decreases |lines|
  {
    if lines != [] {
      var k := |lines| - 1;
      var prefix := lines[..k];
      ScanLinesMembership(prefix, f, m);
      if m in ScanLines(lines, f) && m !in f(k + 1, lines[k]) {
        var i :| 0 <= i < |prefix| && m in f(i + 1, prefix[i]);
        assert prefix[i] == lines[i];
      }
      if exists i :: 0 <= i < |lines| && m in f(i + 1, lines[i]) {
        var i :| 0 <= i < |lines| && m in f(i + 1, lines[i]);
        if i < k {
          assert prefix[i] == lines[i];
        }
      }
    }
  }

  /** Lines are scanned in file order: the messages of the first `k` lines
      come first, followed directly by those of line `k + 1`. */
  lemma {:induction false} ScanLinesPrefix(lines: seq<string>, f: (nat, string) -> seq<string>, k: nat)
    requires k < |lines|
    ensures ScanLines(lines[..k], f) + f(k + 1, lines[k]) <= ScanLines(lines, f)
    decreases |lines|
  {
    var last := |lines| - 1;
    assert lines[..last + 1] == lines;
    if k < last {
      var prefix := lines[..last];
      assert prefix[..k] == lines[..k] && prefix[k] == lines[k];
      ScanLinesPrefix(prefix, f, k);
    }
  }

  /** With at most `bound` messages per line, `lines` yields at most
      `bound * |lines|` messages. */
  lemma {:induction false} ScanLinesBound(lines: seq<string>, f: (nat, string) -> seq<string>, bound: nat)
    requires forall n: nat, line: string :: |f(n, line)| <= bound
    ensures |ScanLines(lines, f)| <= bound * |lines|
    decreases |lines|
  {
    if lines != [] {
      var k := |lines| - 1;
      ScanLinesBound(lines[..k], f, bound);
      assert bound * k + bound == bound * |lines|;
    }
  }

  // ---------------------------------------------------------------------
  // analyze_comments

  /** What `analyze_comments` appends for line number `n`: the marker
      warning, then the outdated warning. */
  function CommentLineWarnings(n: nat, line: string): (r: seq<string>)
    ensures |r| == (if HasMarker(line) then 1 else 0) + (if HasOutdated(line) then 1 else 0)
    ensures HasMarker(line) ==> r[0] == LineMessage(MarkerPrefix, n, line)
    ensures HasOutdated(line) ==> r[|r| - 1] == LineMessage(OutdatedPrefix, n, line)
  {
    (if HasMarker(line) then [LineMessage(MarkerPrefix, n, line)] else [])
    + (if HasOutdated(line) then [LineMessage(OutdatedPrefix, n, line)] else [])
  }

  function CommentWarnings(lines: seq<string>): seq<string>
  {
    ScanLines(lines, CommentLineWarnings)
  }

  /** The result of `analyze_comments` for a file. */
  function CommentScan(file: FileState): seq<string>
  {
    if file.Readable? then CommentWarnings(file.lines) else ReadError(file)
  }

  /** main.py:44-49: the two tests on one line, each appending its warning. */
  method AppendCommentWarnings(warnings: seq<string>, n: nat, line: string) returns (result: seq<string>)
    ensures result == warnings + CommentLineWarnings(n, line)
  {
    result := warnings;
    if HasMarker(line) {
      result := result + [LineMessage(MarkerPrefix, n, line)];
    }
    if HasOutdated(line) {
      result := result + [LineMessage(OutdatedPrefix, n, line)];
    }
  }

  /** main.py:29-59: reads the file line by line and appends a marker warning
      and an outdated warning for every line whose tests succeed. */
  method AnalyzeComments(file: FileState) returns (warnings: seq<string>)
    ensures warnings == CommentScan(file)
  {
    if !file.Readable? {
      return if file.Missing? then [FileNotFoundMessage] else [ReadFailedMessage];
    }
    var lines := file.lines;
    warnings := [];
    var i := 0;
    while i < |lines|
      invariant 0 <= i <= |lines|
      invariant warnings == CommentWarnings(lines[..i])
    {
      ScanLinesStep(lines, CommentLineWarnings, i);
      warnings := AppendCommentWarnings(warnings, i + 1, lines[i]);
      i := i + 1;
    }
    assert lines[..i] == lines;
  }

  /** The comment scan in terms of its lines: an empty file gives no
      warnings; each line gives at most two; and a message is produced
      exactly when some numbered line produces it. */
  lemma CommentWarningsShape(lines: seq<string>, m: string)
    ensures CommentWarnings([]) == []
    ensures |CommentWarnings(lines)| <= 2 * |lines|
    ensures m in CommentWarnings(lines) <==>
              exists i :: 0 <= i < |lines| && m in CommentLineWarnings(i + 1, lines[i])
  {
    ScanLinesBound(lines, CommentLineWarnings, 2);
    ScanLinesMembership(lines, CommentLineWarnings, m);
  }

  /** Line `k + 1`'s comment warnings follow those of the lines before it. */
  lemma CommentWarningsOrder(lines: seq<string>, k: nat)
    requires k < |lines|
    ensures CommentWarnings(lines[..k]) + CommentLineWarnings(k + 1, lines[k]) <= CommentWarnings(lines)
  {
    ScanLinesPrefix(lines, CommentLineWarnings, k);
  }

  /** Every message of the comment scan of a readable file is a
      comment-scan warning. */
  lemma CommentWarningsAreCommentMessages(lines: seq<string>)
    ensures forall m :: m in CommentWarnings(lines) ==> IsCommentScanMessage(m)
  {
    forall m | m in CommentWarnings(lines) ensures IsCommentScanMessage(m) {
      ScanLinesMembership(lines, CommentLineWarnings, m);
      var i :| 0 <= i < |lines| && m in CommentLineWarnings(i + 1, lines[i]);
      assert CommentScanPrefix <= MarkerPrefix && CommentScanPrefix <= OutdatedPrefix;
      if m == LineMessage(MarkerPrefix, i + 1, lines[i]) {
        PrefixTransitive(CommentScanPrefix, MarkerPrefix, m);
      } else {
        PrefixTransitive(CommentScanPrefix, OutdatedPrefix, m);
      }
    }
  }

  // ---------------------------------------------------------------------
  // find_secrets

  /** What `find_secrets` appends for line number `n`. */
  function SecretLineWarnings(n: nat, line: string): (r: seq<string>)
    ensures r != [] <==> HasSecret(line)
    ensures r != [] ==> r == [LineMessage(SecretPrefix, n, line)]
  {
    if HasSecret(line) then [LineMessage(SecretPrefix, n, line)] else []
  }

  function SecretWarnings(lines: seq<string>): seq<string>
  {
    ScanLines(lines, SecretLineWarnings)
  }

  /** The result of `find_secrets` for a file. */
  function SecretScan(file: FileState): seq<string>
  {
    if file.Readable? then SecretWarnings(file.lines) else ReadError(file)
  }

  /** main.py:145-164: reads the file line by line and appends one message for
      every line the credential test flags. */
  method FindSecrets(file: FileState) returns (secretsFound: seq<string>)
    ensures secretsFound == SecretScan(file)
  {
    if !file.Readable? {
      return if file.Missing? then [FileNotFoundMessage] else [ReadFailedMessage];
    }
    var lines := file.lines;
    secretsFound := [];
    var i := 0;
    while i < |lines|
      invariant 0 <= i <= |lines|
      invariant secretsFound == SecretWarnings(lines[..i])
    {
      ScanLinesStep(lines, SecretLineWarnings, i);
      if HasSecret(lines[i]) {
        secretsFound := secretsFound + [LineMessage(SecretPrefix, i + 1, lines[i])];
      }
      i := i + 1;
    }
    assert lines[..i] == lines;
  }

  /** The secret scan in terms of its lines: each line is flagged at most
      once, and a message is produced exactly for the flagged lines. */
  lemma SecretWarningsShape(lines: seq<string>, m: string)
    ensures SecretWarnings([]) == []
    ensures |SecretWarnings(lines)| <= |lines|
    ensures m in SecretWarnings(lines) <==>
              exists i :: 0 <= i < |lines| && HasSecret(lines[i]) && m == LineMessage(SecretPrefix, i + 1, lines[i])
  {
    ScanLinesBound(lines, SecretLineWarnings, 1);
    ScanLinesMembership(lines, SecretLineWarnings, m);
  }

  /** Lines are reported in file order: line `k + 1`'s message follows those
      of the lines before it. */
  lemma SecretWarningsOrder(lines: seq<string>, k: nat)
    requires k < |lines|
    ensures SecretWarnings(lines[..k]) + SecretLineWarnings(k + 1, lines[k]) <= SecretWarnings(lines)
  {
    ScanLinesPrefix(lines, SecretLineWarnings, k);
  }

  /** Every message of the secret scan of a readable file is a secret
      message. */
  lemma SecretWarningsAreSecretMessages(lines: seq<string>)
    ensures forall m :: m in SecretWarnings(lines) ==> IsSecretMessage(m)
  {
    forall m | m in SecretWarnings(lines) ensures IsSecretMessage(m) {
      ScanLinesMembership(lines, SecretLineWarnings, m);
    }
  }
}
