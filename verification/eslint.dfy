/** The `eslint` adapter: the command line that runs ESLint with its JSON
    formatter, and the translation of ESLint's per-file report into the
    unified result model. */
module Eslint {
  import opened Util
  import opened Text
  import opened Api

  /** One message of ESLint's JSON report. */
  datatype MessageRecord = MessageRecord(
    ruleId: string,
    severity: int,
    message: string,
    line: int,
    column: int,
    endLine: int,
    endColumn: int)

  /** One file of ESLint's JSON report, with the counts ESLint computed. */
  datatype FileRecord = FileRecord(
    filePath: string,
    messages: seq<MessageRecord>,
    errorCount: int,
    warningCount: int,
    source: string)

  /** The parts of the command line: `eslint --format json`, then
      `--config <file>` when a non-empty configuration path is given, then
      every file name in double quotes, in order. */
  function Argv(filenames: seq<string>, rule: ConfigRule): (argv: seq<string>)
    ensures |argv| == 3 + (if HasText(rule.configFilePath) then 2 else 0) + |filenames|
    ensures argv[..3] == ["eslint", "--format", "json"]
    ensures HasText(rule.configFilePath) ==> argv[3] == "--config" && argv[4] == rule.configFilePath.value
    ensures forall i :: 0 <= i < |filenames| ==> argv[|argv| - |filenames| + i] == DoubleQuoted(filenames[i])
    ensures "--config" in argv <==> HasText(rule.configFilePath)
  {
    var options := if HasText(rule.configFilePath) then ["--config", rule.configFilePath.value] else [];
    var argv := ["eslint", "--format", "json"] + options + DoubleQuotedAll(filenames);
    forall i | 0 <= i < |filenames| {
      QuotedIsNotFlag(filenames[i], "--config");
    }
    assert forall i :: 3 + |options| <= i < |argv| ==> argv[i] == DoubleQuoted(filenames[i - 3 - |options|]);
    argv
  }

  /** `commandBuilder`: pushes the parts onto a list and joins them with spaces. */
  method CommandBuilder(filenames: seq<string>, config: Config, rule: ConfigRule) returns (command: string)
    ensures command == Join(Argv(filenames, rule), " ")
  {
    var cmd := ["eslint", "--format", "json"];
    if !IsNil(rule.configFilePath) && |rule.configFilePath.value| > 0 {
      cmd := cmd + ["--config", rule.configFilePath.value];
    }
    cmd := cmd + DoubleQuotedAll(filenames);
    command := Join(cmd, " ");
  }

  /** One ESLint message as a unified message: severity 1 is a warning and
      every other severity an error; the rule id becomes a one-element list. */
  function ToMessage(m: MessageRecord): (r: LinterMessage)
    ensures r.severity == Warning <==> m.severity == 1
    ensures r.ruleIds == [m.ruleId] && r.message == m.message && r.contextUrl.None?
    ensures r.startPosition == Some(CodePosition(m.line, m.column))
    ensures r.endPosition == Some(CodePosition(m.endLine, m.endColumn))
  {
    LinterMessage([m.ruleId], m.message, None, if m.severity == 1 then Warning else Error,
      Some(CodePosition(m.line, m.column)), Some(CodePosition(m.endLine, m.endColumn)))
  }

  /** One ESLint file as a unified file result. The counts and the source are
      ESLint's own, copied and not recomputed from the messages. */
  function ToFileResult(f: FileRecord): (r: LinterFileResult)
    ensures r.filePath == f.filePath && r.source == Some(f.source)
    ensures r.errorCount == f.errorCount && r.warningCount == f.warningCount
    ensures |r.messages| == |f.messages|
    ensures forall i :: 0 <= i < |f.messages| ==> r.messages[i] == ToMessage(f.messages[i])
  {
    LinterFileResult(f.filePath, seq(|f.messages|, i requires 0 <= i < |f.messages| => ToMessage(f.messages[i])),
      f.errorCount, f.warningCount, Some(f.source))
  }

  /** The sum of ESLint's per-file error counts. */
  function ReportedErrors(output: seq<FileRecord>): int
  {
    if |output| == 0 then 0 else ReportedErrors(output[..|output| - 1]) + output[|output| - 1].errorCount
  }

  /** The sum of ESLint's per-file warning counts. */
  function ReportedWarnings(output: seq<FileRecord>): int
  {
    if |output| == 0 then 0 else ReportedWarnings(output[..|output| - 1]) + output[|output| - 1].warningCount
  }

  /** The file results of a report, one per ESLint file and in its order. */
  function Files(output: seq<FileRecord>): (files: seq<LinterFileResult>)
    ensures |files| == |output|
    ensures forall i :: 0 <= i < |output| ==> files[i] == ToFileResult(output[i])
  {
    seq(|output|, i requires 0 <= i < |output| => ToFileResult(output[i]))
  }

  /** The top-level counts of the translated report are the sums of its
      files' counts. */
  lemma {:induction false} ReportedTotals(output: seq<FileRecord>)
    ensures ReportedErrors(output) == TotalErrors(Files(output))
    ensures ReportedWarnings(output) == TotalWarnings(Files(output))
  {
    if |output| > 0 {
      var n := |output| - 1;
      ReportedTotals(output[..n]);
      assert Files(output) == Files(output[..n]) + [ToFileResult(output[n])];
      TotalsAppend(Files(output[..n]), ToFileResult(output[n]));
    }
  }

  /** What the interpreter returns for a decoded report: one file result per
      ESLint file, in order, and the sums of ESLint's per-file counts. An empty
      report gives the empty output. */
  function Translate(output: seq<FileRecord>): (r: LinterOutput)
    ensures r.files == Files(output)
    ensures r.errorCount == TotalErrors(r.files) && r.warningCount == TotalWarnings(r.files)
    ensures |output| == 0 ==> r == EmptyOutput
  {
    ReportedTotals(output);
    LinterOutput(Files(output), ReportedErrors(output), ReportedWarnings(output))
  }

  /** The body of `outputInterpreter` after decoding: a `map` over the files
      whose callback also adds each file's counts to two running totals. */
  method TranslateOutput(output: seq<FileRecord>) returns (result: LinterOutput)
    ensures result == Translate(output)
  {
    var totalErrors := 0;
    var totalWarnings := 0;
    var files: seq<LinterFileResult> := [];
    for i := 0 to |output|
      invariant files == Files(output[..i])
      invariant totalErrors == ReportedErrors(output[..i])
      invariant totalWarnings == ReportedWarnings(output[..i])
    {
      var f := output[i];
      var messages := seq(|f.messages|, j requires 0 <= j < |f.messages| => ToMessage(f.messages[j]));
      assert output[..i + 1][..i] == output[..i];
      totalErrors := totalErrors + f.errorCount;
      totalWarnings := totalWarnings + f.warningCount;
      files := files + [LinterFileResult(f.filePath, messages, f.errorCount, f.warningCount, Some(f.source))];
    }
    assert output[..|output|] == output;
    result := LinterOutput(files, totalErrors, totalWarnings);
  }

  /** `outputInterpreter`: decodes standard output as ESLint's report and
      translates it; a report that does not decode is the failure thrown. */
  function OutputInterpreter(parse: string -> Result<seq<FileRecord>, LintError>, processOutput: ProcessOutput)
    : (r: Result<LinterOutput, LintError>)
    ensures r.Ok? <==> parse(processOutput.stdout).Ok?
    ensures r.Ok? ==> r.value == Translate(parse(processOutput.stdout).value)
    ensures r.Err? ==> r.error == parse(processOutput.stdout).error
  {
    match parse(processOutput.stdout)
    case Ok(output) => Ok(Translate(output))
    case Err(e) => Err(e)
  }
}
