/** The plugin registry and `runLint`: list a rule's files with git, build
    the plugin's command line, run it, and either report a clean run or hand
    the captured output to the plugin's interpreter. Running a command and
    decoding JSON are inputs of this module: `exec` maps a command line to
    how the process ended, and `Decoders` gives each plugin's decoding. */
module Plugins {
  import opened Util
  import opened Text
  import opened Api
  import opened Git
  import Eslint
  import Markdownlint
  import GolangciLint
  import Actionlint
  import Buf

  /** The adapters a plugin id can name. */
  datatype Adapter =
    | EslintPlugin
    | MarkdownlintPlugin
    | GolangcilintPlugin
    | ActionlintPlugin
    | BufPlugin(command: Buf.BufCommand)

  /** `linterPlugins`: the registry as it stands, with three ids. */
  const LinterPlugins: map<string, Adapter> :=
    map["eslint" := EslintPlugin, "golangcilint" := GolangcilintPlugin, "markdownlint" := MarkdownlintPlugin]

  /** `linterPlugins[id]`: the adapter registered under `id`, if any. */
  function Lookup(id: string): (a: Option<Adapter>)
    ensures a.Some? <==> id in LinterPlugins
    ensures a.Some? ==> a.value == LinterPlugins[id]
  {
    if id in LinterPlugins then Some(LinterPlugins[id]) else None
  }

  /** The registry resolves `eslint`, `golangcilint` and `markdownlint`, and
      nothing for the ids `actionlint`, `bufLint` and `bufBreaking`, whose
      adapters exist but are not registered. */
  lemma RegistryContents()
    ensures Lookup("eslint") == Some(EslintPlugin)
    ensures Lookup("golangcilint") == Some(GolangcilintPlugin)
    ensures Lookup("markdownlint") == Some(MarkdownlintPlugin)
    ensures Lookup("actionlint").None? && Lookup("bufLint").None? && Lookup("bufBreaking").None?
  {
  }

  /** How each plugin decodes a tool's JSON; a text that does not decode
      gives the failure `JSON.parse` would throw. buf's output is decoded
      line by line. */
  datatype Decoders = Decoders(
    eslint: string -> Result<seq<Eslint.FileRecord>, LintError>,
    markdownlint: string -> Result<seq<Markdownlint.Record>, LintError>,
    golangcilint: string -> Result<GolangciLint.Report, LintError>,
    actionlint: string -> Result<seq<Actionlint.Record>, LintError>,
    bufLine: string -> Result<Buf.Record, LintError>)

  /** How a process ended: resolved with its output (and the exit code read
      from the child, if any), or rejected with its output and exit code. */
  datatype ExecOutcome =
    | Resolved(exitCode: Option<int>, stdout: string, stderr: string)
    | Rejected(stdout: string, stderr: string, code: Option<int>)

  /** The `ProcessOutput` record built from a process's end, in either branch
      of the `try`. */
  function ToProcessOutput(outcome: ExecOutcome): (po: ProcessOutput)
    ensures po.success <==> outcome.Resolved?
    ensures po.stdout == outcome.stdout && po.stderr == outcome.stderr
    ensures po.exitCode == if outcome.Resolved? then outcome.exitCode else outcome.code
  {
    match outcome
    case Resolved(exitCode, stdout, stderr) => ProcessOutput(true, exitCode, stdout, stderr)
    case Rejected(stdout, stderr, code) => ProcessOutput(false, code, stdout, stderr)
  }

  /** `(exitCode ?? 0) === 0` and both streams empty. */
  predicate IsCleanRun(po: ProcessOutput)
    ensures IsCleanRun(po) <==> (po.exitCode == None || po.exitCode == Some(0)) && po.stdout == "" && po.stderr == ""
  {
    (if po.exitCode.Some? then po.exitCode.value else 0) == 0 && |po.stdout| == 0 && |po.stderr| == 0
  }

  /** The command line of `adapter` for the listed files. */
  function CommandLine(adapter: Adapter, filenames: seq<string>, config: Config, rule: ConfigRule): string
  {
    match adapter
    case EslintPlugin => Join(Eslint.Argv(filenames, rule), " ")
    case MarkdownlintPlugin => Join(Markdownlint.Argv(filenames, rule), " ")
    case GolangcilintPlugin => Join(GolangciLint.Argv(filenames, rule), " ")
    case ActionlintPlugin => Join(Actionlint.Argv(filenames, rule), " ")
    case BufPlugin(command) => Join(Buf.Argv(command, filenames, config, rule), " ")
  }

  /** `linter.checkCommand.outputInterpreter(result)`. */
  function Interpret(adapter: Adapter, decoders: Decoders, po: ProcessOutput): Result<LinterOutput, LintError>
  {
    match adapter
    case EslintPlugin => Eslint.OutputInterpreter(decoders.eslint, po)
    case MarkdownlintPlugin => Markdownlint.OutputInterpreter(decoders.markdownlint, po)
    case GolangcilintPlugin => GolangciLint.OutputInterpreter(decoders.golangcilint, po)
    case ActionlintPlugin => Actionlint.OutputInterpreter(decoders.actionlint, po)
    case BufPlugin(command) => Buf.OutputInterpreter(command, decoders.bufLine, po)
  }

  /** `runLint` after git has listed at least one file: build and run the
      plugin's command, then report a clean run or interpret the output. */
  function RunPlugin(linter: Option<Adapter>, filenames: seq<string>, config: Config, rule: ConfigRule,
                     exec: string -> ExecOutcome, decoders: Decoders): (r: Result<Option<LinterOutput>, LintError>)
    ensures r.Ok? ==> r.value.Some?
    ensures linter.None? ==> r == Err(MissingPlugin)
    ensures linter.Some? ==>
      var po := ToProcessOutput(exec(CommandLine(linter.value, filenames, config, rule)));
      var i := Interpret(linter.value, decoders, po);
      && (IsCleanRun(po) ==> r == Ok(Some(EmptyOutput)))
      && (!IsCleanRun(po) && i.Ok? ==> r == Ok(Some(i.value)))
      && (!IsCleanRun(po) && i.Err? ==> r == Err(i.error))
  {
    if linter.None? then Err(MissingPlugin)
    else
      var result := ToProcessOutput(exec(CommandLine(linter.value, filenames, config, rule)));
      if IsCleanRun(result) then Ok(Some(EmptyOutput))
      else
        match Interpret(linter.value, decoders, result)
        case Ok(output) => Ok(Some(output))
        case Err(e) => Err(e)
  }

  /** `runLint`. `Ok(None)` is the `undefined` of a rule without files; an
      `Err` is what the returned promise rejects with. A plugin id missing
      from the registry leaves `linter` absent, which fails as soon as the
      command is to be built. */
  function RunLint(scope: FilesetScope, linter: Option<Adapter>, rule: ConfigRule, config: Config,
                   exec: string -> ExecOutcome, decoders: Decoders): (r: Result<Option<LinterOutput>, LintError>)
    ensures var git := exec(GitCommand(scope, rule.patterns));
      && (git.Rejected? ==> r == Err(CommandFailed(git.stdout, git.stderr, git.code)))
      && (r == Ok(None) <==> git.Resolved? && |ListedFiles(git.stdout)| == 0)
  {
    match exec(GitCommand(scope, rule.patterns))
    case Rejected(stdout, stderr, code) => Err(CommandFailed(stdout, stderr, code))
    case Resolved(_, gitStdout, _) =>
      var filenames := ListedFiles(gitStdout);
      if |filenames| == 0 then Ok(None)
      else RunPlugin(linter, filenames, config, rule, exec, decoders)
  }

  /** With no files, `runLint` gives no result whatever the plugin (even a
      missing one), whatever any other command would do and however output
      would decode: no plugin command is built or run. */
  lemma NoFilesNoCommand(scope: FilesetScope, linter: Option<Adapter>, linter2: Option<Adapter>,
                         rule: ConfigRule, config: Config, exec: string -> ExecOutcome,
                         exec2: string -> ExecOutcome, decoders: Decoders, decoders2: Decoders)
    requires exec(GitCommand(scope, rule.patterns)).Resolved?
    requires |ListedFiles(exec(GitCommand(scope, rule.patterns)).stdout)| == 0
    requires exec2(GitCommand(scope, rule.patterns)) == exec(GitCommand(scope, rule.patterns))
    ensures RunLint(scope, linter, rule, config, exec, decoders) == Ok(None)
    ensures RunLint(scope, linter2, rule, config, exec2, decoders2) == Ok(None)
  {
  }

  /** A clean run of the plugin's command gives the empty output, whatever
      the decoders: the interpreter is not consulted. */
  lemma CleanRunSkipsInterpreter(scope: FilesetScope, adapter: Adapter, rule: ConfigRule, config: Config,
                                 exec: string -> ExecOutcome, decoders: Decoders, decoders2: Decoders)
    requires exec(GitCommand(scope, rule.patterns)).Resolved?
    requires var files := ListedFiles(exec(GitCommand(scope, rule.patterns)).stdout);
      |files| > 0 && IsCleanRun(ToProcessOutput(exec(CommandLine(adapter, files, config, rule))))
    ensures RunLint(scope, Some(adapter), rule, config, exec, decoders) == Ok(Some(EmptyOutput))
    ensures RunLint(scope, Some(adapter), rule, config, exec, decoders2) == Ok(Some(EmptyOutput))
  {
  }

  /** Otherwise the interpreter's result is the result: its output is
      returned unchanged and its failure is rethrown unchanged. A non-zero
      exit code, or a rejected process, is not by itself a failure. */
  lemma InterpreterDecides(scope: FilesetScope, adapter: Adapter, rule: ConfigRule, config: Config,
                           exec: string -> ExecOutcome, decoders: Decoders)
    requires exec(GitCommand(scope, rule.patterns)).Resolved?
    requires var files := ListedFiles(exec(GitCommand(scope, rule.patterns)).stdout);
      |files| > 0 && !IsCleanRun(ToProcessOutput(exec(CommandLine(adapter, files, config, rule))))
    ensures var files := ListedFiles(exec(GitCommand(scope, rule.patterns)).stdout);
      var i := Interpret(adapter, decoders, ToProcessOutput(exec(CommandLine(adapter, files, config, rule))));
      var r := RunLint(scope, Some(adapter), rule, config, exec, decoders);
      && (i.Ok? ==> r == Ok(Some(i.value)))
      && (i.Err? ==> r == Err(i.error))
  {
    var files := ListedFiles(exec(GitCommand(scope, rule.patterns)).stdout);
    var po := ToProcessOutput(exec(CommandLine(adapter, files, config, rule)));
    var i := Interpret(adapter, decoders, po);
    assert RunLint(scope, Some(adapter), rule, config, exec, decoders)
        == match i case Ok(output) => Ok(Some(output)) case Err(e) => Err(e);
  }

  /** Files found for a plugin id the registry lacks: the run fails. */
  lemma MissingPluginFails(scope: FilesetScope, id: string, rule: ConfigRule, config: Config,
                           exec: string -> ExecOutcome, decoders: Decoders)
    requires id !in LinterPlugins
    requires exec(GitCommand(scope, rule.patterns)).Resolved?
    requires |ListedFiles(exec(GitCommand(scope, rule.patterns)).stdout)| > 0
    ensures RunLint(scope, Lookup(id), rule, config, exec, decoders) == Err(MissingPlugin)
  {
  }

  /** Plugins that count every finding under one severity (markdownlint,
      actionlint, buf) interpret any output into a consistent one. */
  lemma InterpretConsistent(adapter: Adapter, decoders: Decoders, po: ProcessOutput)
    requires adapter.MarkdownlintPlugin? || adapter.ActionlintPlugin? || adapter.BufPlugin?
    requires Interpret(adapter, decoders, po).Ok?
    ensures ConsistentOutput(Interpret(adapter, decoders, po).value)
  {
    match adapter
    case MarkdownlintPlugin =>
      Markdownlint.InterpreterConsistent(decoders.markdownlint, po);
    case ActionlintPlugin =>
      Actionlint.InterpreterConsistent(decoders.actionlint, po);
    case BufPlugin(command) =>
      Buf.OneMessagePerLine(command, decoders.bufLine, po);
  }

  /** The output `runLint` returns for such a plugin is consistent too. */
  lemma RunLintConsistent(scope: FilesetScope, adapter: Adapter, rule: ConfigRule, config: Config,
                          exec: string -> ExecOutcome, decoders: Decoders)
    requires adapter.MarkdownlintPlugin? || adapter.ActionlintPlugin? || adapter.BufPlugin?
    requires RunLint(scope, Some(adapter), rule, config, exec, decoders).Ok?
    requires RunLint(scope, Some(adapter), rule, config, exec, decoders).value.Some?
    ensures ConsistentOutput(RunLint(scope, Some(adapter), rule, config, exec, decoders).value.value)
  {
    var git := exec(GitCommand(scope, rule.patterns));
    assert git.Resolved?;
    var files := ListedFiles(git.stdout);
    assert |files| > 0;
    RunPluginConsistent(adapter, files, config, rule, exec, decoders);
  }

  lemma RunPluginConsistent(adapter: Adapter, files: seq<string>, config: Config, rule: ConfigRule,
                            exec: string -> ExecOutcome, decoders: Decoders)
    requires adapter.MarkdownlintPlugin? || adapter.ActionlintPlugin? || adapter.BufPlugin?
    requires RunPlugin(Some(adapter), files, config, rule, exec, decoders).Ok?
    ensures ConsistentOutput(RunPlugin(Some(adapter), files, config, rule, exec, decoders).value.value)
  {
    var po := ToProcessOutput(exec(CommandLine(adapter, files, config, rule)));
    if !IsCleanRun(po) {
      InterpretConsistent(adapter, decoders, po);
    }
  }
}
