/** The `golangcilint` adapter: the command line that runs golangci-lint
    with JSON output, and the translation of its list of issues into per-file
    results. Its top-level counts are kept as the adapter computes them: all
    issues count as errors there, while the per-file counts distinguish
    warnings. */
module GolangciLint {
  import opened Util
  import opened Text
  import opened Api
  import opened Grouping

  /** Where an issue is. */
  datatype Pos = Pos(filename: string, offset: int, line: int, column: int)

  /** One issue of golangci-lint's JSON report; its severity is free text. */
  datatype Issue = Issue(fromLinter: string, text: string, severity: string, sourceLines: seq<string>, pos: Pos)

  /** golangci-lint's JSON report. */
  datatype Report = Report(issues: seq<Issue>)

  /** The parts of the command line: `golangci-lint --out-format json run`,
      then `--config <file>` when a non-empty configuration path is given,
      then every file name in double quotes, in order. */
  function Argv(filenames: seq<string>, rule: ConfigRule): (argv: seq<string>)
    ensures |argv| == 4 + (if HasText(rule.configFilePath) then 2 else 0) + |filenames|
    ensures argv[..4] == ["golangci-lint", "--out-format", "json", "run"]
    ensures HasText(rule.configFilePath) ==> argv[4] == "--config" && argv[5] == rule.configFilePath.value
    ensures forall i :: 0 <= i < |filenames| ==> argv[|argv| - |filenames| + i] == DoubleQuoted(filenames[i])
    ensures "--config" in argv <==> HasText(rule.configFilePath)
  {
    var options := if HasText(rule.configFilePath) then ["--config", rule.configFilePath.value] else [];
    var argv := ["golangci-lint", "--out-format", "json", "run"] + options + DoubleQuotedAll(filenames);
    forall i | 0 <= i < |filenames| {
      QuotedIsNotFlag(filenames[i], "--config");
    }
    assert forall i :: 4 + |options| <= i < |argv| ==> argv[i] == DoubleQuoted(filenames[i - 4 - |options|]);
    argv
  }

  /** `commandBuilder`: pushes the parts onto a list and joins them with spaces. */
  method CommandBuilder(filenames: seq<string>, config: Config, rule: ConfigRule) returns (command: string)
    ensures command == Join(Argv(filenames, rule), " ")
  {
    var cmd := ["golangci-lint", "--out-format", "json", "run"];
    if !IsNil(rule.configFilePath) && |rule.configFilePath.value| > 0 {
      cmd := cmd + ["--config", rule.configFilePath.value];
    }
    cmd := cmd + DoubleQuotedAll(filenames);
    command := Join(cmd, " ");
  }

  /** An issue's severity: a warning exactly when its text, lower-cased, is
      `warning`; anything else, including an unknown word, is an error. */
  function IssueSeverity(severity: string): (s: Severity)
    ensures s == Warning <==> ToLower(severity) == "warning"
  {
    if ToLower(severity) == "warning" then Warning else Error
  }

  /** The case of the severity text does not matter. */
  lemma IssueSeverityIgnoresCase(severity: string)
    ensures IssueSeverity(ToLower(severity)) == IssueSeverity(severity)
  {
    ToLowerIdempotent(severity);
  }

  /** One issue as a message of its file: the file, line and column come out
      of the nested position, the linter's name is the one rule id, and there
      is no end position. */
  function ToFileMessage(issue: Issue): (m: FileMessage)
    ensures m.filePath == issue.pos.filename
    ensures m.ruleIds == [issue.fromLinter] && m.message == issue.text && m.contextUrl.None?
    ensures m.severity == IssueSeverity(issue.severity)
    ensures m.startPosition == Some(CodePosition(issue.pos.line, issue.pos.column)) && m.endPosition.None?
  {
    FileMessage(issue.pos.filename, [issue.fromLinter], issue.text, None, IssueSeverity(issue.severity),
      Some(CodePosition(issue.pos.line, issue.pos.column)), None)
  }

  /** The issues as messages, in report order. */
  function FileMessages(issues: seq<Issue>): (fms: seq<FileMessage>)
    ensures |fms| == |issues|
    ensures forall i :: 0 <= i < |issues| ==> fms[i] == ToFileMessage(issues[i])
  {
    seq(|issues|, i requires 0 <= i < |issues| => ToFileMessage(issues[i]))
  }

  lemma FileMessagesSnoc(issues: seq<Issue>)
    requires |issues| > 0
    ensures FileMessages(issues) == FileMessages(issues[..|issues| - 1]) + [ToFileMessage(issues[|issues| - 1])]
  {
  }

  /** The number of issues whose severity reads `warning`. */
  function WarningIssues(issues: seq<Issue>): (n: nat)
    ensures n <= |issues|
  {
    if |issues| == 0 then 0
    else WarningIssues(issues[..|issues| - 1]) + (if IssueSeverity(issues[|issues| - 1].severity) == Warning then 1 else 0)
  }

  lemma {:induction false} WarningIssuesCounted(issues: seq<Issue>)
    ensures CountSeverity(Messages(FileMessages(issues)), Warning) == WarningIssues(issues)
  {
    if |issues| > 0 {
      var n := |issues| - 1;
      WarningIssuesCounted(issues[..n]);
      FileMessagesSnoc(issues);
      MessagesAppend(FileMessages(issues[..n]), ToFileMessage(issues[n]));
      CountSeverityAppend(Messages(FileMessages(issues[..n])), StripFilePath(ToFileMessage(issues[n])), Warning);
    }
  }

  /** What the interpreter returns for a decoded report: the issues grouped
      by file, `errorCount` the number of issues and `warningCount` zero,
      whatever the issues' severities. */
  function Translate(report: Report): (r: LinterOutput)
    ensures r.files == Grouped(FileMessages(report.issues))
    ensures r.errorCount == |report.issues| && r.warningCount == 0
  {
    var messages := FileMessages(report.issues);
    LinterOutput(Grouped(messages), |messages|, 0)
  }

  /** The per-file results are consistent and count the warning issues as
      warnings; the top-level error count is the per-file errors plus the
      per-file warnings, so it agrees with the per-file error total only
      when no issue is a warning. */
  lemma TranslateCounts(report: Report)
    ensures var r := Translate(report);
      && (forall j :: 0 <= j < |r.files| ==> ConsistentFile(r.files[j]))
      && TotalWarnings(r.files) == WarningIssues(report.issues)
      && r.errorCount == TotalErrors(r.files) + TotalWarnings(r.files)
      && (r.errorCount == TotalErrors(r.files) <==> WarningIssues(report.issues) == 0)
  {
    var fms := FileMessages(report.issues);
    GroupedContents(fms);
    GroupedConservation(fms);
    SeveritiesPartition(Messages(fms));
    WarningIssuesCounted(report.issues);
  }

  /** `outputInterpreter`: decodes standard output as golangci-lint's report
      and translates it; a report that does not decode is the failure thrown. */
  function OutputInterpreter(parse: string -> Result<Report, LintError>, processOutput: ProcessOutput)
    : (r: Result<LinterOutput, LintError>)
    ensures r.Ok? <==> parse(processOutput.stdout).Ok?
    ensures r.Ok? ==> r.value == Translate(parse(processOutput.stdout).value)
    ensures r.Err? ==> r.error == parse(processOutput.stdout).error
  {
    match parse(processOutput.stdout)
    case Ok(report) => Ok(Translate(report))
    case Err(e) => Err(e)
  }
}
