/** The `buf` adapter factory and its two instances, `buf lint` and
    `buf breaking`: the command line that runs one buf sub-command with JSON
    errors, and the translation of its output (one JSON object per line)
    into per-file results whose severity the instance fixes. */
module Buf {
  import opened Util
  import opened Text
  import opened Api
  import opened Grouping
  import Git

  datatype CommandName = Lint | Breaking

  /** The instance parameters: a display name, the severity every finding
      gets, and the sub-command. */
  datatype BufCommand = BufCommand(name: string, severity: Severity, commandName: CommandName)

  /** `bufLint`: style findings, reported as warnings. */
  const BufLint := BufCommand("buf lint", Warning, Lint)

  /** `bufBreaking`: breaking changes against the main branch, reported as errors. */
  const BufBreaking := BufCommand("buf breaking", Error, Breaking)

  /** One line of buf's output; the four coordinates may each be absent. */
  datatype Record = Record(
    path: string,
    ruleType: string,
    message: string,
    startLine: Nullable<int>,
    startColumn: Nullable<int>,
    endLine: Nullable<int>,
    endColumn: Nullable<int>)

  /** The word that names the sub-command on the command line. */
  function CommandWord(name: CommandName): string
  {
    match name
    case Lint => "lint"
    case Breaking => "breaking"
  }

  /** `rule.bufParams?.bufWorkspaceRoot ?? ''`. */
  function WorkspaceRoot(rule: ConfigRule): string
  {
    Coalesce(rule.bufWorkspaceRoot, "")
  }

  /** The git reference `breaking` compares against. */
  function AgainstRef(config: Config, root: string): string
  {
    var mainBranch := Coalesce(config.mainGitBranch, "main");
    var subdirFlag := if |root| == 0 then "" else ",subdir=" + root;
    ".git#branch=" + mainBranch + subdirFlag
  }

  /** `--path '<f>'` for every file name, in order. */
  function PathArgs(filenames: seq<string>): (args: seq<string>)
    ensures |args| == |filenames|
    ensures forall i :: 0 <= i < |filenames| ==> args[i] == "--path " + SingleQuoted(filenames[i])
  {
    seq(|filenames|, i requires 0 <= i < |filenames| => "--path " + SingleQuoted(filenames[i]))
  }

  /** The parts of the command line, in this layout: `buf <command>
      --error-format json`; the workspace root as a bare argument when it is
      not empty; for `breaking` only, `--against` and a reference to the main
      branch (`main` when none is configured, an empty name kept as it is),
      with `,subdir=<root>` when the root is not empty; `--config <file>` when
      a non-empty configuration path is given; and `--path '<f>'` for every
      file name, in order, to the end. */
  function Argv(command: BufCommand, filenames: seq<string>, config: Config, rule: ConfigRule): (argv: seq<string>)
    ensures var root := WorkspaceRoot(rule);
      var a := 4 + (if |root| > 0 then 1 else 0);
      var c := a + (if command.commandName == Breaking then 2 else 0);
      var f := c + (if HasText(rule.configFilePath) then 2 else 0);
      && |argv| == f + |filenames|
      && argv[..4] == ["buf", CommandWord(command.commandName), "--error-format", "json"]
      && (|root| > 0 ==> argv[4] == root)
      && (command.commandName == Breaking ==>
            && argv[a] == "--against"
            && argv[a + 1] == ".git#branch=" + Coalesce(config.mainGitBranch, "main")
                              + (if |root| == 0 then "" else ",subdir=" + root))
      && (HasText(rule.configFilePath) ==> argv[c] == "--config" && argv[c + 1] == rule.configFilePath.value)
      && (forall i :: 0 <= i < |filenames| ==> argv[f + i] == "--path " + SingleQuoted(filenames[i]))
  {
    var head := Options(command, config, rule);
    assert |head| == 4 + (if |WorkspaceRoot(rule)| > 0 then 1 else 0)
                       + (if command.commandName == Breaking then 2 else 0)
                       + (if HasText(rule.configFilePath) then 2 else 0);
    head + PathArgs(filenames)
  }

  /** Everything before the paths: the sub-command and its output format,
      the optional root, the optional `--against` pair and the optional
      configuration pair. */
  function Options(command: BufCommand, config: Config, rule: ConfigRule): seq<string>
  {
    var root := WorkspaceRoot(rule);
    var rootArgs := if |root| > 0 then [root] else [];
    var against := if command.commandName == Breaking then ["--against", AgainstRef(config, root)] else [];
    var options := if HasText(rule.configFilePath) then ["--config", rule.configFilePath.value] else [];
    ["buf", CommandWord(command.commandName), "--error-format", "json"] + rootArgs + against + options
  }

  /** `commandBuilder` of the instance `command`: pushes the parts onto a
      list step by step and joins them with spaces. */
  method CommandBuilder(command: BufCommand, filenames: seq<string>, config: Config, rule: ConfigRule)
    returns (line: string)
    ensures line == Join(Argv(command, filenames, config, rule), " ")
  {
    var cmd := ["buf", CommandWord(command.commandName), "--error-format", "json"];
    var bufWorkspaceRoot := Coalesce(rule.bufWorkspaceRoot, "");
    if |bufWorkspaceRoot| > 0 {
      cmd := cmd + [bufWorkspaceRoot];
    }
    if command.commandName == Breaking {
      var mainBranch := Coalesce(config.mainGitBranch, "main");
      var subdirFlag := if |bufWorkspaceRoot| == 0 then "" else ",subdir=" + bufWorkspaceRoot;
      cmd := cmd + ["--against", ".git#branch=" + mainBranch + subdirFlag];
    }
    if !IsNil(rule.configFilePath) && |rule.configFilePath.value| > 0 {
      cmd := cmd + ["--config", rule.configFilePath.value];
    }
    assert cmd == Options(command, config, rule);
    cmd := cmd + PathArgs(filenames);
    line := Join(cmd, " ");
  }

  /** A `lint` command line has no `--against` part: it is the head, the
      optional root, the optional configuration and the paths, nothing else. */
  lemma LintHasNoAgainst(filenames: seq<string>, config: Config, rule: ConfigRule)
    ensures var argv := Argv(BufLint, filenames, config, rule);
      var root := WorkspaceRoot(rule);
      argv == ["buf", "lint", "--error-format", "json"]
              + (if |root| > 0 then [root] else [])
              + (if HasText(rule.configFilePath) then ["--config", rule.configFilePath.value] else [])
              + PathArgs(filenames)
  {
  }

  /** The non-empty lines of standard output, in order: the same reading as
      git's list of files. */
  function Lines(stdout: string): (lines: seq<string>)
    ensures forall i :: 0 <= i < |lines| ==> |lines[i]| > 0 && '\n' !in lines[i]
    ensures Concat(lines) == Without(stdout, '\n')
  {
    Git.ListedFilesKeepOrder(stdout);
    Git.ListedFiles(stdout)
  }

  /** Output that is records joined by line breaks gives back exactly the
      non-empty ones, in order: the lines break where the output does. */
  lemma LinesOfJoin(records: seq<string>)
    requires forall i :: 0 <= i < |records| ==> '\n' !in records[i]
    ensures Lines(Join(records, "\n")) == NonEmpty(records)
  {
    Git.ListedFilesOfJoin(records);
  }

  /** Decoding every line as one JSON object; the first line that does not
      decode is the failure thrown. */
  function Decode(parseLine: string -> Result<Record, LintError>, stdout: string): (r: Result<seq<Record>, LintError>)
    ensures var lines := Lines(stdout);
      && (r.Ok? <==> forall i :: 0 <= i < |lines| ==> parseLine(lines[i]).Ok?)
      && (r.Ok? ==> |r.value| == |lines| && forall i :: 0 <= i < |lines| ==> parseLine(lines[i]) == Ok(r.value[i]))
      && (r.Err? ==> exists i :: 0 <= i < |lines| && parseLine(lines[i]) == Err(r.error)
                                && forall j :: 0 <= j < i ==> parseLine(lines[j]).Ok?)
  {
    var lines := Lines(stdout);
    var steps := LineSteps(parseLine, lines);
    SettledLines(steps, parseLine, lines);
    AllOk(steps)
  }

  /** Decoding each line on its own. */
  function LineSteps(parseLine: string -> Result<Record, LintError>, lines: seq<string>)
    : (steps: seq<Result<Record, LintError>>)
    ensures |steps| == |lines|
    ensures forall i :: 0 <= i < |lines| ==> steps[i] == parseLine(lines[i])
  {
    seq(|lines|, i requires 0 <= i < |lines| => parseLine(lines[i]))
  }

  /** What settling the decoding steps means for the lines. */
  lemma SettledLines(steps: seq<Result<Record, LintError>>, parseLine: string -> Result<Record, LintError>,
                     lines: seq<string>)
    requires |steps| == |lines|
    requires forall i :: 0 <= i < |lines| ==> steps[i] == parseLine(lines[i])
    ensures var r := AllOk(steps);
      && (r.Ok? <==> forall i :: 0 <= i < |lines| ==> parseLine(lines[i]).Ok?)
      && (r.Ok? ==> |r.value| == |lines| && forall i :: 0 <= i < |lines| ==> parseLine(lines[i]) == Ok(r.value[i]))
      && (r.Err? ==> exists i :: 0 <= i < |lines| && parseLine(lines[i]) == Err(r.error)
                                && forall j :: 0 <= j < i ==> parseLine(lines[j]).Ok?)
  {
    var r := AllOk(steps);
    if r.Err? {
      var i :| 0 <= i < |steps| && steps[i] == Err(r.error) && forall j :: 0 <= j < i ==> steps[j].Ok?;
      assert parseLine(lines[i]) == Err(r.error);
    }
  }

  /** One record as a message of its file, with the instance's severity, the
      finding's type as the one rule id, and a start and an end position
      each present only when both its coordinates are. */
  function ToFileMessage(command: BufCommand, r: Record): (m: FileMessage)
    ensures m.filePath == r.path && m.message == r.message && m.ruleIds == [r.ruleType]
    ensures m.severity == command.severity && m.contextUrl.None?
    ensures m.startPosition == GetPosition(r.startLine, r.startColumn)
    ensures m.endPosition == GetPosition(r.endLine, r.endColumn)
  {
    FileMessage(r.path, [r.ruleType], r.message, None, command.severity,
      GetPosition(r.startLine, r.startColumn), GetPosition(r.endLine, r.endColumn))
  }

  /** The records as messages, in output order. */
  function FileMessages(command: BufCommand, output: seq<Record>): (fms: seq<FileMessage>)
    ensures |fms| == |output|
    ensures forall i :: 0 <= i < |output| ==> fms[i] == ToFileMessage(command, output[i])
  {
    seq(|output|, i requires 0 <= i < |output| => ToFileMessage(command, output[i]))
  }

  /** What the interpreter returns for decoded output: the records grouped by
      file; the count of the instance's severity is the number of records,
      and the other count is zero. */
  function Translate(command: BufCommand, output: seq<Record>): (r: LinterOutput)
    ensures r.files == Grouped(FileMessages(command, output))
    ensures command.severity == Error ==> r.errorCount == |output| && r.warningCount == 0
    ensures command.severity == Warning ==> r.warningCount == |output| && r.errorCount == 0
  {
    var messages := FileMessages(command, output);
    LinterOutput(Grouped(messages),
      if command.severity == Error then |messages| else 0,
      if command.severity == Warning then |messages| else 0)
  }

  /** The translated output is consistent and holds every record once. */
  lemma TranslateConsistent(command: BufCommand, output: seq<Record>)
    ensures ConsistentOutput(Translate(command, output))
    ensures TotalMessages(Translate(command, output).files) == |output|
  {
    UniformOutputConsistent(FileMessages(command, output), command.severity);
    GroupedConservation(FileMessages(command, output));
  }

  /** `outputInterpreter` of the instance `command`: decodes standard
      output line by line and translates the records; the first line that
      does not decode is the failure thrown. */
  function OutputInterpreter(command: BufCommand, parseLine: string -> Result<Record, LintError>,
                             processOutput: ProcessOutput): (r: Result<LinterOutput, LintError>)
    ensures var d := Decode(parseLine, processOutput.stdout);
      && (r.Ok? <==> d.Ok?)
      && (r.Ok? ==> r.value == Translate(command, d.value))
      && (r.Err? ==> r.error == d.error)
  {
    match Decode(parseLine, processOutput.stdout)
    case Ok(output) => Ok(Translate(command, output))
    case Err(e) => Err(e)
  }

  /** A successful interpretation holds exactly one message per non-empty
      line of standard output, and is consistent. */
  lemma OneMessagePerLine(command: BufCommand, parseLine: string -> Result<Record, LintError>,
                          processOutput: ProcessOutput)
    requires OutputInterpreter(command, parseLine, processOutput).Ok?
    ensures var o := OutputInterpreter(command, parseLine, processOutput).value;
      && TotalMessages(o.files) == |Lines(processOutput.stdout)|
      && ConsistentOutput(o)
  {
    var output := Decode(parseLine, processOutput.stdout).value;
    TranslateConsistent(command, output);
  }

  /** When line `i` is the first that does not decode, the interpreter
      throws that line's failure. */
  lemma FirstBadLineThrows(command: BufCommand, parseLine: string -> Result<Record, LintError>,
                            processOutput: ProcessOutput, i: nat)
    requires i < |Lines(processOutput.stdout)|
    requires parseLine(Lines(processOutput.stdout)[i]).Err?
    requires forall j :: 0 <= j < i ==> parseLine(Lines(processOutput.stdout)[j]).Ok?
    ensures OutputInterpreter(command, parseLine, processOutput)
         == Err(parseLine(Lines(processOutput.stdout)[i]).error)
  {
    var lines := Lines(processOutput.stdout);
    FirstFailure(LineSteps(parseLine, lines), i);
  }

  /** The two instances: `buf lint` reports only warnings and `buf breaking`
      only errors, one per record. */
  lemma InstanceCounts(output: seq<Record>)
    ensures Translate(BufLint, output).warningCount == |output| && Translate(BufLint, output).errorCount == 0
    ensures Translate(BufBreaking, output).errorCount == |output| && Translate(BufBreaking, output).warningCount == 0
  {
  }
}
