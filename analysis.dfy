/**
 `analyze_file_content` and the result assembly of `main`: the file type is
 resolved from the explicit choice or the path suffix, then either the comment
 scan runs (type not detected), or the document is parsed, linted and checked
 against its format's rule; `main` appends the secret scan on request and
 renders the list.
 */
module Analysis {
  import opened Text
  import opened Files
  import opened Scanners
  import opened Documents
  import opened Lint

  /** The outcome of `yaml.safe_load(content)` or `json.loads(content)`:
      a tree, the parser's own error (YAMLError, JSONDecodeError) with its
      text, or any other exception, which only the outer handler catches. */
  datatype ParseOutcome =
    | Parsed(doc: Tree)
    | ParseError(message: string)
    | ParseAborted

  /** Everything the analysis learns from outside: the file, what each
      parser makes of its content and what each linter does with the path. */
  datatype Env = Env(
    file: FileState,
    yamlParse: ParseOutcome,
    jsonParse: ParseOutcome,
    yamllint: LintOutcome,
    jsonlint: LintOutcome)

  datatype Format = Yaml | Json

  /** What the type resolution of main.py:80-88 and the dispatch of
      main.py:90, 110 and 131 decide. */
  datatype Resolution =
    | Structured(format: Format)
    | PlainText
    | InvalidType

  const InvalidTypeMessage := "Error: Invalid filetype specified."
  const ApiVersionMessage := "Warning: api_version is v1, " + "consider upgrading to a newer version."
  const DebugMessage := "Warning: Debug mode is enabled. " + "Disable in production."

  /** The `filetype` argument resolved: "auto" looks at the lower-cased path
      suffix; "yaml" and "json" are taken as given; anything else is invalid. */
  function Resolve(path: string, filetype: string): Resolution
  {
    if filetype == "auto" then
      var lower := LowerAscii(path);
      if EndsWith(lower, ".yaml") || EndsWith(lower, ".yml") then Structured(Yaml)
      else if EndsWith(lower, ".json") then Structured(Json)
      else PlainText
    else if filetype == "yaml" then Structured(Yaml)
    else if filetype == "json" then Structured(Json)
    else InvalidType
  }

  function LinterFor(format: Format): Linter
  {
    match format
    case Yaml => Yamllint
    case Json => Jsonlint
  }

  function ParseFor(format: Format, env: Env): ParseOutcome
  {
    match format
    case Yaml => env.yamlParse
    case Json => env.jsonParse
  }

  function LintFor(format: Format, env: Env): LintOutcome
  {
    match format
    case Yaml => env.yamllint
    case Json => env.jsonlint
  }

  predicate RuleFires(format: Format, doc: Tree)
  {
    match format
    case Yaml => ApiVersionIsV1(doc)
    case Json => DebugIsTrue(doc)
  }

  function RuleMessage(format: Format): string
  {
    match format
    case Yaml => ApiVersionMessage
    case Json => DebugMessage
  }

  function ParseErrorPrefix(format: Format): string
  {
    match format
    case Yaml => "Error parsing YAML: "
    case Json => "Error parsing JSON: "
  }

  /** The warnings of a structured file: parse, then lint, then the rule. */
  function DocumentWarnings(format: Format, parse: ParseOutcome, lint: LintOutcome): seq<string>
  {
    match parse
    case ParseAborted => [ReadFailedMessage]
    case ParseError(e) => [ParseErrorPrefix(format) + e]
    case Parsed(doc) =>
      match LintWarnings(LinterFor(format), lint)
      case None => [ReadFailedMessage]
      case Some(lintWarnings) => lintWarnings + (if RuleFires(format, doc) then [RuleMessage(format)] else [])
  }

  /** The result of `analyze_file_content(path, filetype)`. */
  function ContentWarnings(path: string, filetype: string, env: Env): seq<string>
  {
    if !env.file.Readable? then ReadError(env.file)
    else
      match Resolve(path, filetype)
      case PlainText => CommentScan(env.file)
      case InvalidType => [InvalidTypeMessage]
      case Structured(format) => DocumentWarnings(format, ParseFor(format, env), LintFor(format, env))
  }

  /** main.py:63-141: reads the file, replaces "auto" by the detected type
      (or falls back to the comment scan), then for YAML and JSON parses,
      lints and applies the rule, appending warnings in that order. */
  method AnalyzeFileContent(path: string, filetype: string, env: Env) returns (warnings: seq<string>)
    ensures warnings == ContentWarnings(path, filetype, env)
  {
    warnings := [];
    if !env.file.Readable? {
      return if env.file.Missing? then [FileNotFoundMessage] else [ReadFailedMessage];
    }
    var ft := filetype;
    if ft == "auto" {
      var lower := LowerAscii(path);
      if EndsWith(lower, ".yaml") || EndsWith(lower, ".yml") {
        ft := "yaml";
      } else if EndsWith(lower, ".json") {
        ft := "json";
      } else {
        warnings := AnalyzeComments(env.file);
        return;
      }
    }
    if ft == "yaml" {
      match env.yamlParse
      case ParseAborted =>
        return [ReadFailedMessage];
      case ParseError(e) =>
        warnings := warnings + ["Error parsing YAML: " + e];
      case Parsed(data) =>
        var lint := LintWarnings(Yamllint, env.yamllint);
        if lint.None? {
          return [ReadFailedMessage];
        }
        warnings := warnings + lint.value;
        if ApiVersionIsV1(data) {
          warnings := warnings + [ApiVersionMessage];
        }
    } else if ft == "json" {
      match env.jsonParse
      case ParseAborted =>
        return [ReadFailedMessage];
      case ParseError(e) =>
        warnings := warnings + ["Error parsing JSON: " + e];
      case Parsed(data) =>
        var lint := LintWarnings(Jsonlint, env.jsonlint);
        if lint.None? {
          return [ReadFailedMessage];
        }
        warnings := warnings + lint.value;
        if DebugIsTrue(data) {
          warnings := warnings + [DebugMessage];
        }
    } else {
      warnings := warnings + [InvalidTypeMessage];
    }
  }

  // ---------------------------------------------------------------------
  // main

  const ResultsHeader := "Analysis Results:"
  const NoIssuesMessage := "No issues found."
  const MissingFilePrefix := "Error: File not found: "

  /** The exit status of the process and the lines it prints on standard
      output, in order. */
  datatype RunResult = RunResult(exitCode: int, output: seq<string>)

  /** The list `main` assembles: the content warnings, then the secret scan
      when `--find-secrets` is given. */
  function Findings(path: string, filetype: string, findSecrets: bool, env: Env): seq<string>
  {
    ContentWarnings(path, filetype, env) + (if findSecrets then SecretScan(env.file) else [])
  }

  /** What a run of main.py prints and how it exits. */
  function Report(path: string, filetype: string, findSecrets: bool, env: Env): RunResult
  {
    if env.file.Missing? then RunResult(1, [MissingFilePrefix + path])
    else
      var findings := Findings(path, filetype, findSecrets, env);
      RunResult(0, if findings == [] then [NoIssuesMessage] else [ResultsHeader] + findings)
  }

  /** main.py:177-197: stops with status 1 if the file does not exist,
      otherwise extends the content warnings by the secret scan on request
      and prints the list, or "No issues found." when it is empty. */
  method Run(path: string, filetype: string, findSecrets: bool, env: Env)
    returns (exitCode: int, output: seq<string>)
    ensures RunResult(exitCode, output) == Report(path, filetype, findSecrets, env)
  {
    if env.file.Missing? {
      return 1, [MissingFilePrefix + path];
    }
    var analysisResults := AnalyzeFileContent(path, filetype, env);
    if findSecrets {
      var secrets := FindSecrets(env.file);
      analysisResults := analysisResults + secrets;
    }
    if analysisResults != [] {
      output := [ResultsHeader] + analysisResults;
    } else {
      output := [NoIssuesMessage];
    }
    exitCode := 0;
  }

  // ---------------------------------------------------------------------
  // Properties

  /** The lower-cased path ends with the lower-cased suffix. */
  lemma LowerSuffix(stem: string, ext: string)
    ensures EndsWith(LowerAscii(stem + ext), LowerAscii(ext))
  {
    LowerAsciiConcat(stem, ext);
    var lower := LowerAscii(stem + ext);
    assert lower[|lower| - |ext|..] == LowerAscii(ext);
  }

  /** Auto-detection looks only at the lower-cased suffix: a path ending in
      ".yaml" or ".yml" in any letter case is YAML, one ending in ".json" is
      JSON. An explicit "yaml" or "json" is never overridden by the path, and
      any other explicit type is invalid. */
  lemma ResolveBySuffix(stem: string, ext: string, filetype: string)
    ensures LowerAscii(ext) in {".yaml", ".yml"} ==> Resolve(stem + ext, "auto") == Structured(Yaml)
    ensures LowerAscii(ext) == ".json" ==> Resolve(stem + ext, "auto") == Structured(Json)
    ensures filetype == "yaml" ==> Resolve(stem + ext, filetype) == Structured(Yaml)
    ensures filetype == "json" ==> Resolve(stem + ext, filetype) == Structured(Json)
    ensures filetype !in {"auto", "yaml", "json"} ==> Resolve(stem + ext, filetype) == InvalidType
  {
    LowerSuffix(stem, ext);
    var lower := LowerAscii(stem + ext);
    if LowerAscii(ext) == ".json" {
      assert !EndsWith(lower, ".yaml") && !EndsWith(lower, ".yml") by {
        assert lower[|lower| - 1] == 'n';
      }
    }
  }

  /** The rule messages are warnings, and neither reads as a comment-scan
      warning. */
  lemma RuleMessageShape(format: Format)
    ensures RuleMessage(format)[0] == 'W'
    ensures !IsCommentScanMessage(RuleMessage(format))
  {
    assert CommentScanPrefix[9] == 'P';
    match format
    case Yaml => assert ApiVersionMessage[9] == 'a';
    case Json => assert DebugMessage[9] == 'D';
  }

  /** A linter message starts with the linter's name, so with 'y' or 'j'. */
  lemma ToolNameStart(tool: Linter)
    ensures |ToolName(tool)| > 0 && ToolName(tool)[0] in {'y', 'j'}
  {
    match tool
    case Yamllint => assert ToolName(tool)[0] == 'y';
    case Jsonlint => assert ToolName(tool)[0] == 'j';
  }

  /** The lint part and the rule part of a parsed document's warnings. */
  lemma DocumentWarningsShape(format: Format, parse: ParseOutcome, lint: LintOutcome)
    requires parse.Parsed? && !lint.LaunchFailed?
    ensures var r := DocumentWarnings(format, parse, lint);
      && |r| <= 2
      && (RuleMessage(format) in r <==> RuleFires(format, parse.doc))
      && (RuleFires(format, parse.doc) ==> r[|r| - 1] == RuleMessage(format))
      && (r != [] && r[0] != RuleMessage(format) ==> ToolName(LinterFor(format)) <= r[0])
      && (|r| == 2 ==> r[0] == LintWarnings(LinterFor(format), lint).value[0])
  {
    var lintWarnings := LintWarnings(LinterFor(format), lint).value;
    if lintWarnings != [] {
      var m := lintWarnings[0];
      assert m[0] == ToolName(LinterFor(format))[0];
      ToolNameStart(LinterFor(format));
      RuleMessageShape(format);
    }
  }

  /** main.py:76-141, branch by branch: a read failure is a single error; an
      undetected type gives exactly the comment scan; an invalid type a single
      error; a parse error a single "Error parsing ..." warning and no lint or
      rule warning; a parsed document at most one lint warning followed by at
      most one rule warning; an exception past the parser's or the linter's
      own handler the single read-failure error. */
  lemma ContentWarningsCases(path: string, filetype: string, env: Env)
    ensures var r := ContentWarnings(path, filetype, env);
      && (env.file.Missing? ==> r == [FileNotFoundMessage])
      && (env.file.Unreadable? ==> r == [ReadFailedMessage])
      && (env.file.Readable? && Resolve(path, filetype) == PlainText ==> r == CommentScan(env.file))
      && (env.file.Readable? && Resolve(path, filetype) == InvalidType ==> r == [InvalidTypeMessage])
      && (env.file.Readable? && Resolve(path, filetype).Structured? ==>
            var format := Resolve(path, filetype).format;
            var parse := ParseFor(format, env);
            var lint := LintFor(format, env);
            && (parse.ParseError? ==> r == [ParseErrorPrefix(format) + parse.message])
            && (parse.ParseAborted? || (parse.Parsed? && lint.LaunchFailed?) ==> r == [ReadFailedMessage])
            && (parse.Parsed? && !lint.LaunchFailed? ==>
                  && |r| <= 2
                  && (RuleMessage(format) in r <==> RuleFires(format, parse.doc))
                  && (RuleFires(format, parse.doc) ==> r[|r| - 1] == RuleMessage(format))))
  {
    if env.file.Readable? && Resolve(path, filetype).Structured? {
      var format := Resolve(path, filetype).format;
      if ParseFor(format, env).Parsed? && !LintFor(format, env).LaunchFailed? {
        DocumentWarningsShape(format, ParseFor(format, env), LintFor(format, env));
      }
    }
  }

  /** How every warning of a structured file begins: with 'E' for an error,
      'W' for a rule warning, or the name of that format's linter. */
  predicate DocumentMessageStart(format: Format, m: string)
  {
    m != [] && (m[0] in {'E', 'W'} || ToolName(LinterFor(format)) <= m)
  }

  lemma DocumentMessagesStart(format: Format, parse: ParseOutcome, lint: LintOutcome)
    ensures forall m :: m in DocumentWarnings(format, parse, lint) ==> DocumentMessageStart(format, m)
    ensures forall m :: m in DocumentWarnings(format, parse, lint) ==> !IsCommentScanMessage(m)
  {
    var r := DocumentWarnings(format, parse, lint);
    forall m | m in r ensures DocumentMessageStart(format, m) && !IsCommentScanMessage(m) {
      if parse.ParseError? && m == ParseErrorPrefix(format) + parse.message {
        assert m[0] == 'E';
      } else if parse.Parsed? && LintWarnings(LinterFor(format), lint).Some?
                && m in LintWarnings(LinterFor(format), lint).value {
        assert m == LintWarnings(LinterFor(format), lint).value[0];
        assert m[0] == ToolName(LinterFor(format))[0];
        ToolNameStart(LinterFor(format));
      } else if m == RuleMessage(format) {
        RuleMessageShape(format);
      }
    }
  }

  /** As the code is written, a file detected or declared as YAML or JSON is
      never comment-scanned: none of its warnings is a comment-scan warning,
      whatever comments its lines hold. */
  lemma StructuredFilesNotCommentScanned(path: string, filetype: string, env: Env)
    requires Resolve(path, filetype).Structured?
    ensures forall m :: m in ContentWarnings(path, filetype, env) ==> !IsCommentScanMessage(m)
  {
    if env.file.Readable? {
      var format := Resolve(path, filetype).format;
      assert ContentWarnings(path, filetype, env) == DocumentWarnings(format, ParseFor(format, env), LintFor(format, env));
      DocumentMessagesStart(format, ParseFor(format, env), LintFor(format, env));
    } else {
      assert ReadError(env.file)[0][0] == 'E';
    }
  }

  /** No message of the content analysis looks like a secret-scan message. */
  lemma ContentNeverSecret(path: string, filetype: string, env: Env)
    ensures forall m :: m in ContentWarnings(path, filetype, env) ==> !IsSecretMessage(m)
  {
    var r := ContentWarnings(path, filetype, env);
    assert SecretPrefix[0] == 'P';
    if env.file.Readable? {
      match Resolve(path, filetype)
      case PlainText =>
        CommentWarningsAreCommentMessages(env.file.lines);
        forall m | m in r ensures !IsSecretMessage(m) {
          assert m[0] == CommentScanPrefix[0];
        }
      case InvalidType =>
      case Structured(format) =>
        DocumentMessagesStart(format, ParseFor(format, env), LintFor(format, env));
    }
  }

  /** main.py:186-197: without `--find-secrets` nothing printed is a secret
      finding; with it, the secret scan's messages are the last lines
      printed, after the content warnings. Whether anything was found decides
      between the result list and "No issues found.", and only a missing file
      exits with a non-zero status. */
  lemma ReportAssembly(path: string, filetype: string, findSecrets: bool, env: Env)
    ensures var out := Report(path, filetype, findSecrets, env).output;
      && (!findSecrets ==> forall m :: m in out ==> !IsSecretMessage(m))
      && (findSecrets && !env.file.Missing? ==>
            var secrets := SecretScan(env.file);
            |secrets| <= |out| && out[|out| - |secrets|..] == secrets)
      && (!env.file.Missing? ==> (out == [NoIssuesMessage] <==> Findings(path, filetype, findSecrets, env) == []))
      && (Report(path, filetype, findSecrets, env).exitCode != 0 <==> env.file.Missing?)
  {
    var rep := Report(path, filetype, findSecrets, env);
    if !findSecrets {
      ContentNeverSecret(path, filetype, env);
      forall m | m in rep.output ensures !IsSecretMessage(m) {
        if env.file.Missing? {
          assert m[0] == 'E';
        } else if m == NoIssuesMessage || m == ResultsHeader {
          assert m[0] != 'P';
        } else {
          assert m in ContentWarnings(path, filetype, env);
        }
      }
    }
  }

  /** An unreadable file that exists prints the read-failure error once, or
      twice when the secret scan also runs. */
  lemma UnreadableReport(path: string, filetype: string, findSecrets: bool, env: Env)
    requires env.file.Unreadable?
    ensures Report(path, filetype, findSecrets, env)
            == RunResult(0, [ResultsHeader, ReadFailedMessage] + (if findSecrets then [ReadFailedMessage] else []))
  {
  }
}
