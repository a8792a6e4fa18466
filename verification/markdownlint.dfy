/** The `markdownlint` adapter: the command line that runs markdownlint-cli
    with JSON output, and the translation of its flat list of findings,
    which it writes to standard error, into per-file results. */
module Markdownlint {
  import opened Util
  import opened Text
  import opened Api
  import opened Grouping

  /** One finding of markdownlint's JSON report. `errorRange` is a start
      column and a length, and may be absent. */
  datatype Record = Record(
    fileName: string,
    lineNumber: int,
    ruleNames: seq<string>,
    ruleDescription: string,
    ruleInformation: string,
    errorRange: Nullable<(int, int)>)

  /** The parts of the command line: `markdownlint --json`, then
      `--config <file>` when a non-empty configuration path is given, then
      every file name in double quotes, in order. */
  function Argv(filenames: seq<string>, rule: ConfigRule): (argv: seq<string>)
    ensures |argv| == 2 + (if HasText(rule.configFilePath) then 2 else 0) + |filenames|
    ensures argv[..2] == ["markdownlint", "--json"]
    ensures HasText(rule.configFilePath) ==> argv[2] == "--config" && argv[3] == rule.configFilePath.value
    ensures forall i :: 0 <= i < |filenames| ==> argv[|argv| - |filenames| + i] == DoubleQuoted(filenames[i])
    ensures "--config" in argv <==> HasText(rule.configFilePath)
  {
    var options := if HasText(rule.configFilePath) then ["--config", rule.configFilePath.value] else [];
    var argv := ["markdownlint", "--json"] + options + DoubleQuotedAll(filenames);
    forall i | 0 <= i < |filenames| {
      QuotedIsNotFlag(filenames[i], "--config");
    }
    assert forall i :: 2 + |options| <= i < |argv| ==> argv[i] == DoubleQuoted(filenames[i - 2 - |options|]);
    argv
  }

  /** `commandBuilder`: pushes the parts onto a list and joins them with spaces. */
  method CommandBuilder(filenames: seq<string>, config: Config, rule: ConfigRule) returns (command: string)
    ensures command == Join(Argv(filenames, rule), " ")
  {
    var cmd := ["markdownlint", "--json"];
    if !IsNil(rule.configFilePath) && |rule.configFilePath.value| > 0 {
      cmd := cmd + ["--config", rule.configFilePath.value];
    }
    cmd := cmd + DoubleQuotedAll(filenames);
    command := Join(cmd, " ");
  }

  /** One finding as a message of its file. Every finding is an error; the
      finding spans one line, from the start column of its range to that
      column plus the range's length; a missing range counts as `[0, 0]`. */
  function ToFileMessage(r: Record): (m: FileMessage)
    ensures m.filePath == r.fileName && m.ruleIds == r.ruleNames
    ensures m.message == r.ruleDescription && m.contextUrl == Some(r.ruleInformation)
    ensures m.severity == Error
    ensures m.startPosition.Some? && m.endPosition.Some?
    ensures m.startPosition.value.line == r.lineNumber && m.endPosition.value.line == r.lineNumber
    ensures IsNil(r.errorRange) ==> m.startPosition.value.column == 0 && m.endPosition.value.column == 0
    ensures !IsNil(r.errorRange) ==>
      && m.startPosition.value.column == r.errorRange.value.0
      && m.endPosition.value.column - m.startPosition.value.column == r.errorRange.value.1
  {
    var errorRange := Coalesce(r.errorRange, (0, 0));
    FileMessage(r.fileName, r.ruleNames, r.ruleDescription, Some(r.ruleInformation), Error,
      Some(CodePosition(r.lineNumber, errorRange.0)),
      Some(CodePosition(r.lineNumber, errorRange.0 + errorRange.1)))
  }

  /** The findings as messages, in report order. */
  function FileMessages(output: seq<Record>): (fms: seq<FileMessage>)
    ensures |fms| == |output|
    ensures forall i :: 0 <= i < |output| ==> fms[i] == ToFileMessage(output[i])
  {
    seq(|output|, i requires 0 <= i < |output| => ToFileMessage(output[i]))
  }

  /** What the interpreter returns for a decoded report: the findings
      grouped by file, `errorCount` the number of findings, no warnings. */
  function Translate(output: seq<Record>): (r: LinterOutput)
    ensures r.files == Grouped(FileMessages(output))
    ensures r.errorCount == |output| && r.warningCount == 0
  {
    var messages := FileMessages(output);
    LinterOutput(Grouped(messages), |messages|, 0)
  }

  /** The translated report is consistent: each file's error count is its
      number of messages, it has no warnings, and the top-level error count,
      the number of findings, is the sum of the files' error counts. */
  lemma TranslateConsistent(output: seq<Record>)
    ensures ConsistentOutput(Translate(output))
    ensures TotalMessages(Translate(output).files) == |output|
  {
    UniformOutputConsistent(FileMessages(output), Error);
    GroupedConservation(FileMessages(output));
  }

  /** `outputInterpreter`: decodes standard ERROR as markdownlint's report
      and translates it; a report that does not decode is the failure thrown. */
  function OutputInterpreter(parse: string -> Result<seq<Record>, LintError>, processOutput: ProcessOutput)
    : (r: Result<LinterOutput, LintError>)
    ensures r.Ok? <==> parse(processOutput.stderr).Ok?
    ensures r.Ok? ==> r.value == Translate(parse(processOutput.stderr).value)
    ensures r.Err? ==> r.error == parse(processOutput.stderr).error
  {
    match parse(processOutput.stderr)
    case Ok(output) => Ok(Translate(output))
    case Err(e) => Err(e)
  }

  /** The interpreter reads standard error only: runs that differ in their
      standard output, exit code or success flag are interpreted alike. */
  lemma ReadsStandardError(parse: string -> Result<seq<Record>, LintError>, a: ProcessOutput, b: ProcessOutput)
    requires a.stderr == b.stderr
    ensures OutputInterpreter(parse, a) == OutputInterpreter(parse, b)
  {
  }

  /** Whatever the interpreter returns is consistent. */
  lemma InterpreterConsistent(parse: string -> Result<seq<Record>, LintError>, processOutput: ProcessOutput)
    requires OutputInterpreter(parse, processOutput).Ok?
    ensures ConsistentOutput(OutputInterpreter(parse, processOutput).value)
  {
    TranslateConsistent(parse(processOutput.stderr).value);
  }
}
