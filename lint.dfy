/**
 The external linters main.py runs on structured files (yamllint for YAML,
 jsonlint for JSON) and how their outcome becomes warnings. Running the
 process is not modelled: its outcome is an input.
 */
module Lint {
  import opened Wrappers

  datatype Linter = Yamllint | Jsonlint

  /** The outcome of `subprocess.run([tool, filepath], capture_output=True,
      text=True)`. `NotInstalled`: the call raises FileNotFoundError.
      `LaunchFailed`: it raises anything else (a permission error, undecodable
      output), which no handler near the call catches. `Completed`: the
      process ran. */
  datatype LintOutcome =
    | NotInstalled
    | LaunchFailed
    | Completed(returnCode: int, stdout: string, stderr: string)

  function ToolName(tool: Linter): string
  {
    match tool
    case Yamllint => "yamllint"
    case Jsonlint => "jsonlint"
  }

  /** The stream a failing run's diagnostics are read from: yamllint writes
      them to stdout, jsonlint to stderr. */
  function DiagnosticStream(tool: Linter, stdout: string, stderr: string): string
  {
    match tool
    case Yamllint => stdout
    case Jsonlint => stderr
  }

  /** main.py:94-101 and main.py:114-123: the warnings a lint run adds, or
      `None` when the call raises past its handler. A missing tool adds
      nothing; a non-zero exit adds one "found issues" warning carrying the
      diagnostic stream; a clean exit adds one "reported" warning carrying
      stdout, unless stdout is empty. */
  function LintWarnings(tool: Linter, outcome: LintOutcome): (r: Option<seq<string>>)
    ensures r.None? <==> outcome.LaunchFailed?
    ensures r.Some? ==> |r.value| <= 1
    ensures r.Some? && r.value != [] <==>
              outcome.Completed? && (outcome.returnCode != 0 || outcome.stdout != "")
    ensures r.Some? && r.value != [] ==> ToolName(tool) <= r.value[0]
    ensures r.Some? && r.value != [] ==>
              r.value[0] == ToolName(tool)
                + (if outcome.returnCode != 0
                   then " found issues:\n" + DiagnosticStream(tool, outcome.stdout, outcome.stderr)
                   else " reported:\n" + outcome.stdout)
  {
    match outcome
    case NotInstalled => Some([])
    case LaunchFailed => None
    case Completed(code, out, err) =>
      var name := ToolName(tool);
      if code != 0 then
        var m := name + (" found issues:\n" + DiagnosticStream(tool, out, err));
        assert m[..|name|] == name;
        Some([m])
      else if out != "" then
        var m := name + (" reported:\n" + out);
        assert m[..|name|] == name;
        Some([m])
      else Some([])
  }
}
