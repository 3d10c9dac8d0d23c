# Configuration analyzer: a Dafny model

`main.py` is a small command-line tool that reviews a configuration file and
reports its findings:

- **Type resolution.** With `--filetype auto`, the lower-cased path suffix picks YAML
  (`.yaml`, `.yml`) or JSON (`.json`). A file of any other type falls back to a
  comment scan.
- **Structured files.** YAML and JSON files are parsed and then run through their
  external linter, yamllint or jsonlint. Last comes one semantic rule:
  `api_version: v1` for YAML, `"debug": true` for JSON.
- **Comment scan.** Each line is searched for marker comments (`TODO`, `FIXME`, `XXX`)
  and for outdated comments (`deprecated`, `obsolete`, `old`).
- **Secret scan.** With `--find-secrets`, each line is also searched for assignments
  that look like credentials.
- **Output.** `main` prints the findings under a header, or "No issues found.".
  It exits with status 1 when the file does not exist.

The model takes the outside world as input:

- **The file** (`Files.FileState`): missing, unreadable, or the sequence of lines
  that iterating over it yields.
- **What each parser returns** (`Analysis.ParseOutcome`): a tree, the parser's own
  error with its text, or any other exception.
- **What each linter run gives** (`Lint.LintOutcome`): tool not installed, some other
  launch failure, or the exit code with stdout and stderr.

Everything else is the source's own string and list logic:

- **Patterns** holds the three regular expressions. Each appears twice:
  - as an existential reading of the pattern (the "pattern semantics": there is a
    comment token, a whitespace run and a word, or a key, separator, whitespace and
    token).
  - as a deterministic scanner that consumes whitespace greedily.

  Lemmas prove that the two agree on every line.
- **Scanners** holds the two line loops, as methods. Each is proved equal to a function
  of the lines, and lemmas state the shape of that function: order, bounds, and which
  lines produce which messages.
- **Documents** holds the parsed tree and the two rules.
- **Lint** holds how a linter outcome becomes warnings.
- **Analysis** holds `analyze_file_content` and the part of `main` that assembles the
  result, each as a method proved equal to a function. Lemmas state their branch
  structure and message order.
- **Examples** holds concrete lines that show where the patterns' edges lie.

Python's `\s` and `str.strip()` are modelled with the exact `str.isspace()` set. That
set includes the Unicode spaces, not only the ASCII ones.

`re.IGNORECASE` is modelled exactly for the literals involved: besides the ASCII case
pairs, 'i' also matches U+0130 and U+0131, 's' matches U+017F and 'k' matches U+212A.
For the same reason, the class `[a-zA-Z0-9_-]` under that flag also admits these four
characters.

The model follows the code as written; in particular:

- comment scanning runs only when auto-detection fails, so YAML and JSON files are
  never comment-scanned.
- the lint warning comes before the rule warning.
- each linter run yields at most one warning, which carries one stream in full: stdout, or stderr for a failing jsonlint run.
- a parse error skips both the linter and the rule.
- the secret pattern needs a `:` or `=` between key and token.
- the outdated keyword must follow the comment token directly, so "# TODO deprecated"
  yields one warning, not two.

## Model

| member | source | states |
|---|---|---|
| Text.Strip | main.py:45 | `line.strip()`: the result has no whitespace at either end, and it is the segment of the line left when a whitespace prefix and a whitespace suffix are removed |
| Text.SkipSpace | main.py:44 | a greedy `\s*` from an offset: everything it consumes is whitespace, and the character after the run is not whitespace |
| Text.SkipSpaceUnique | main.py:44 | a whitespace run that ends before a non-space character (or at the end of the line) is exactly what the greedy `\s*` consumes |
| Text.TrimEnd | main.py:45 | the start of the trailing whitespace of a segment: everything after it is whitespace, and the character before it is not |
| Text.LowerAscii | main.py:82-84 | `filepath.lower()` on the characters it can change for these suffixes: same length, each character lowered |
| Text.LowerAsciiConcat | main.py:82-84 | lower-casing a path distributes over stem and suffix |
| Text.NatToString | main.py:45 | `{i+1}` in the message: decimal digits without a leading zero that denote the line number |
| Patterns.CommentTokenEnd | main.py:44 | the comment-token alternation (`#`, `//` or `/*`) at an offset: if a token starts there, the result is where that token ends, and a result always comes from such a token |
| Patterns.TokenRun | main.py:155 | the run of `[a-zA-Z0-9_-]` characters under IGNORECASE from an offset: every character in the run is in the class, and the character after it is not |
| Patterns.CommentWordAtMatchesPattern | main.py:44 | what the greedy comment scanner finds at an offset, the comment pattern matches there |
| Patterns.PatternMatchesCommentWordAt | main.py:44 | where the comment pattern matches at an offset, the greedy scanner finds it, because no word starts with whitespace |
| Patterns.CommentWordAtIsPattern | main.py:44 | at a fixed offset, the greedy scanner for token, whitespace and word succeeds exactly when the pattern matches there |
| Patterns.CommentScanIsPatternSearch | main.py:44 | scanning every offset agrees with `re.search` of the comment pattern, for any alternation of letter-initial words |
| Patterns.HasMarkerIsPatternSearch | main.py:44 | a line is flagged as a marker exactly when a comment token, optional whitespace and then `TODO`, `FIXME` or `XXX` occur in it, case-sensitively |
| Patterns.HasOutdatedIsPatternSearch | main.py:48 | a line is flagged as outdated exactly when a comment token, optional whitespace and then `deprecated`, `obsolete` or `old` occur in it, ignoring case |
| Patterns.CharacterClassesDisjoint | main.py:155 | separators, quotes and token characters are never whitespace, and a quote is never a token character, so the greedy reading of the pattern is forced |
| Patterns.QuotedLongTokenScan | main.py:155 | where `["']?[a-zA-Z0-9_-]{20,}` matches, the next character is not whitespace, and the run of token characters after the optional quote has length at least 20 |
| Patterns.AssignsLongTokenMatchesPattern | main.py:155 | whenever the scanner accepts the text after a key, `\s*[:=]\s*["']?[a-zA-Z0-9_-]{20,}["']?` matches there |
| Patterns.PatternMatchesAssignsLongToken | main.py:155 | whenever that part of the pattern matches after a key, the scanner accepts it |
| Patterns.AssignsLongTokenWitness | main.py:155 | the scanner accepts the text after a key once a separator ends the first whitespace run and a run of at least 20 token characters follows the optional quote |
| Patterns.AssignsLongTokenIsPattern | main.py:155 | the scanner and the pattern agree on the text after a key |
| Patterns.KeyAssignsAtIsPattern | main.py:155 | after the same key of the alternation, the scanner and the pattern agree |
| Patterns.SecretAtIsPattern | main.py:155 | at an offset, the scanner accepts exactly when the whole secret pattern matches there, key included, for any key alternation |
| Patterns.HasSecretIsPatternSearch | main.py:155 | a line is flagged exactly when `re.search` of the secret pattern with IGNORECASE succeeds on it |
| Files.ReadError | main.py:52-57 | a failed read gives a single error, "File not found." exactly when the file is missing |
| Scanners.LineMessage | main.py:45 | every scanner message `prefix + str(i+1) + ": " + line.strip()` starts with its fixed prefix |
| Scanners.ScanLinesMembership | main.py:42 | a message is produced by a scan over the lines exactly when some numbered line produces it |
| Scanners.ScanLinesPrefix | main.py:42 | a scan reports each line after all the lines before it, in file order |
| Scanners.ScanLinesBound | main.py:42 | a scan giving at most `b` messages per line gives at most `b` times the number of lines |
| Scanners.ScanLinesStep | main.py:42 | scanning one more line appends exactly that line's messages |
| Scanners.CommentLineWarnings | main.py:44-49 | a line yields one warning per pattern that matches it: the marker warning first, the outdated warning last |
| Scanners.AppendCommentWarnings | main.py:44-49 | the two tests on one line extend the list by exactly that line's comment warnings |
| Scanners.AnalyzeComments | main.py:29-59 | the loop returns the comment scan of the file's lines, or a single error when the read fails |
| Scanners.CommentWarningsShape | main.py:39-59 | an empty file gives no warnings; each line gives at most two; a message is produced exactly when some numbered line produces it |
| Scanners.CommentWarningsOrder | main.py:41-49 | lines are reported in file order: a line's warnings follow those of every earlier line |
| Scanners.CommentWarningsAreCommentMessages | main.py:45-49 | every comment-scan message starts with "Warning: Potential " |
| Scanners.SecretLineWarnings | main.py:155-156 | a line yields a warning exactly when the secret pattern matches it, and then just one |
| Scanners.FindSecrets | main.py:145-164 | the loop returns the secret scan of the file's lines, or a single error when the read fails |
| Scanners.SecretWarningsShape | main.py:150-164 | an empty file gives no messages; each line is flagged at most once, and a message is produced exactly for the flagged lines |
| Scanners.SecretWarningsOrder | main.py:153-156 | lines are reported in file order: a flagged line's message follows those of every earlier line |
| Scanners.SecretWarningsAreSecretMessages | main.py:156 | every secret-scan message starts with "Potential secret found on line " |
| Documents.Lookup | main.py:104-105 | `key in d` then `d[key]`: absent exactly when no entry has that string key, otherwise the value of such an entry |
| Documents.LookupFindsEntry | main.py:104-105 | in a dict without repeated keys, the lookup yields `v` exactly when `(key, v)` is an entry |
| Documents.ApiVersionRule | main.py:104-106 | the YAML rule fires exactly on a mapping with the entry `api_version: "v1"`; any other document never fires |
| Documents.DebugRule | main.py:126-127 | the JSON rule fires exactly on a mapping with the entry `"debug": true`; `1`, `"true"` and `false` do not fire it |
| Lint.LintWarnings | main.py:94-101 | no warning when the tool is missing, an escaping error on any other launch failure, one "found issues" warning with stdout (yamllint) or stderr (jsonlint) on a non-zero exit, one "reported" warning when a clean exit printed something, and nothing else |
| Analysis.AnalyzeFileContent | main.py:63-141 | resolving the type step by step, then parsing, linting and checking the rule, returns the content warnings the branch functions define |
| Analysis.LowerSuffix | main.py:82-84 | the lower-cased path ends with the lower-cased suffix |
| Analysis.ResolveBySuffix | main.py:80-88 | with "auto", a suffix lower-casing to `.yaml`/`.yml` gives YAML and one lower-casing to `.json` gives JSON; an explicit "yaml"/"json" is never overridden; any other type is invalid |
| Analysis.DocumentWarningsShape | main.py:90-130 | a parsed document gives at most two warnings; the rule warning is present exactly when the rule fires, and it is then last; the lint warning comes first |
| Analysis.ContentWarningsCases | main.py:76-141 | a read failure is a singleton error; an undetected type gives exactly the comment scan; an invalid type gives exactly "Error: Invalid filetype specified."; a parse error gives exactly one "Error parsing …" and no lint or rule warning; an escaping exception gives the single read error |
| Analysis.DocumentMessagesStart | main.py:97-130 | every warning of a structured file is non-empty and starts with 'E', 'W' or the whole name of that format's linter, and none reads as a comment-scan warning |
| Analysis.StructuredFilesNotCommentScanned | main.py:80-90 | a file resolved as YAML or JSON never receives a comment-scan warning |
| Analysis.ContentNeverSecret | main.py:63-141 | no content warning looks like a secret-scan message |
| Analysis.Run | main.py:177-197 | the assembly returns the result `Report` defines: exit 1 with one error when the file is missing, otherwise the header with the findings, or "No issues found." |
| Analysis.ReportAssembly | main.py:184-197 | without the flag, no secret message is printed; with it, the secret scan's messages are the last lines printed; "No issues found." is printed exactly when there are no findings; the exit status is non-zero exactly when the file is missing |
| Analysis.UnreadableReport | main.py:184-197 | an existing but unreadable file prints the header and the read error, twice when the secret scan runs too |
| Examples.OlderIsOutdated | main.py:48 | "# Older layout" is reported as outdated, because `old` is matched ignoring case and needs no word boundary |
| Examples.LowerCaseTodoIsNoMarker | main.py:44 | "# todo" is not a marker: the marker words are case-sensitive |
| Examples.TodoDeprecatedIsMarker | main.py:44 | "# TODO deprecated" has a marker comment |
| Examples.TodoDeprecatedIsNotOutdated | main.py:48 | "# TODO deprecated" has no outdated comment, since `deprecated` does not follow the token directly |
| Examples.MarkerBeforeOutdatedWord | main.py:44-49 | "# TODO deprecated" yields only the marker warning, because the outdated word does not follow the comment token directly |
| Examples.QuotedPasswordIsSecret | main.py:155 | `password = "` followed by a 26-letter token and a closing quote is flagged |
| Examples.SeparatorRequired | main.py:155 | a line without ':' or '=' is never flagged, however long its tokens |

## Left out

- Argument parsing (main.py:14-26) is not modelled: `path`, `filetype` and the `--find-secrets` flag are parameters. The verbose flag only changes logging.
- Logging (main.py:11, 53, 56, 87, 101, 123, 135, 138, 158, 161, 173-175, 179) is not modelled: it writes nothing the tool reports.
- File I/O is not modelled (`open`, `read`, iteration over lines, `os.path.exists`). The outcome of reading is an input: missing, unreadable, or the lines with their terminators. All four reads of one file share that outcome.
- The model does not check that the lines concatenate to the content the parsers read: the parse result is an input and is not derived from the lines.
- `yaml.safe_load` and `json.loads` are not modelled: their result is an input, and the parser's error text is an opaque string.
- `subprocess.run` of yamllint and jsonlint is not modelled: its outcome is an input.
- `sys.exit(1)` becomes the exit code of `Analysis.Run`. Normal termination is exit code 0.
- `print` is modelled as the sequence of printed lines only.
- Analysis.ResolveBySuffix: `str.lower()` is modelled as ASCII lowering, which decides `endswith` for `.yaml`, `.yml` and `.json` exactly as Python does. The rest of the path is not fully lower-cased.
- Floats, timestamps and other scalars of the parsed tree are one opaque `Other` case. No rule inspects them: main.py:105 compares with the str 'v1' and main.py:126 tests identity with `is True`, so neither test can be satisfied by one.
