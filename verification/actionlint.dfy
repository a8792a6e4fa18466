/** The `actionlint` adapter: the command line that runs actionlint with a
    JSON template, and the translation of its list of findings about
    workflow files into per-file results. */
module Actionlint {
  import opened Util
  import opened Text
  import opened Api
  import opened Grouping

  /** One finding of actionlint's JSON output; line and column may be absent. */
  datatype Record = Record(message: string, filepath: string, line: Nullable<int>, column: Nullable<int>, kind: string)

  /** The parts of the command line: `actionlint` and the one part
      `-format '{{json .}}'`, then `-config-file <file>` when a non-empty
      configuration path is given, then every file name in single quotes,
      in order. */
  function Argv(filenames: seq<string>, rule: ConfigRule): (argv: seq<string>)
    ensures |argv| == 2 + (if HasText(rule.configFilePath) then 2 else 0) + |filenames|
    ensures argv[..2] == ["actionlint", "-format '{{json .}}'"]
    ensures HasText(rule.configFilePath) ==> argv[2] == "-config-file" && argv[3] == rule.configFilePath.value
    ensures forall i :: 0 <= i < |filenames| ==> argv[|argv| - |filenames| + i] == SingleQuoted(filenames[i])
    ensures "-config-file" in argv <==> HasText(rule.configFilePath)
  {
    var options := if HasText(rule.configFilePath) then ["-config-file", rule.configFilePath.value] else [];
    var argv := ["actionlint", "-format '{{json .}}'"] + options + SingleQuotedAll(filenames);
    forall i | 0 <= i < |filenames| {
      QuotedIsNotFlag(filenames[i], "-config-file");
    }
    assert forall i :: 2 + |options| <= i < |argv| ==> argv[i] == SingleQuoted(filenames[i - 2 - |options|]);
    argv
  }

  /** `commandBuilder`: pushes the parts onto a list and joins them with spaces. */
  method CommandBuilder(filenames: seq<string>, config: Config, rule: ConfigRule) returns (command: string)
    ensures command == Join(Argv(filenames, rule), " ")
  {
    var cmd := ["actionlint", "-format '{{json .}}'"];
    if !IsNil(rule.configFilePath) && |rule.configFilePath.value| > 0 {
      cmd := cmd + ["-config-file", rule.configFilePath.value];
    }
    cmd := cmd + SingleQuotedAll(filenames);
    command := Join(cmd, " ");
  }

  /** One finding as a message of its file: always an error, the kind of
      check as the one rule id, a start position only when both line and
      column are given, and no end position. */
  function ToFileMessage(r: Record): (m: FileMessage)
    ensures m.filePath == r.filepath && m.message == r.message && m.ruleIds == [r.kind]
    ensures m.severity == Error && m.contextUrl.None? && m.endPosition.None?
    ensures m.startPosition.None? <==> IsNil(r.line) || IsNil(r.column)
    ensures m.startPosition.Some? ==> m.startPosition.value == CodePosition(r.line.value, r.column.value)
  {
    FileMessage(r.filepath, [r.kind], r.message, None, Error, GetPosition(r.line, r.column), None)
  }

  /** The findings as messages, in output order. */
  function FileMessages(output: seq<Record>): (fms: seq<FileMessage>)
    ensures |fms| == |output|
    ensures forall i :: 0 <= i < |output| ==> fms[i] == ToFileMessage(output[i])
  {
    seq(|output|, i requires 0 <= i < |output| => ToFileMessage(output[i]))
  }

  /** What the interpreter returns for decoded output: the findings grouped
      by file, `errorCount` the number of findings, no warnings. */
  function Translate(output: seq<Record>): (r: LinterOutput)
    ensures r.files == Grouped(FileMessages(output))
    ensures r.errorCount == |output| && r.warningCount == 0
  {
    var messages := FileMessages(output);
    LinterOutput(Grouped(messages), |messages|, 0)
  }

  /** The translated output is consistent, and holds every finding once. */
  lemma TranslateConsistent(output: seq<Record>)
    ensures ConsistentOutput(Translate(output))
    ensures TotalMessages(Translate(output).files) == |output|
  {
    UniformOutputConsistent(FileMessages(output), Error);
    GroupedConservation(FileMessages(output));
  }

  /** `outputInterpreter`: decodes standard output as actionlint's findings
      and translates them; output that does not decode is the failure thrown. */
  function OutputInterpreter(parse: string -> Result<seq<Record>, LintError>, processOutput: ProcessOutput)
    : (r: Result<LinterOutput, LintError>)
    ensures r.Ok? <==> parse(processOutput.stdout).Ok?
    ensures r.Ok? ==> r.value == Translate(parse(processOutput.stdout).value)
    ensures r.Err? ==> r.error == parse(processOutput.stdout).error
  {
    match parse(processOutput.stdout)
    case Ok(output) => Ok(Translate(output))
    case Err(e) => Err(e)
  }

  /** Whatever the interpreter returns is consistent. */
  lemma InterpreterConsistent(parse: string -> Result<seq<Record>, LintError>, processOutput: ProcessOutput)
    requires OutputInterpreter(parse, processOutput).Ok?
    ensures ConsistentOutput(OutputInterpreter(parse, processOutput).value)
  {
    TranslateConsistent(parse(processOutput.stdout).value);
  }
}
