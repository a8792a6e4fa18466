# linterface, modelled in Dafny

linterface runs several lint tools over a repository and folds their
different JSON reports into one result model. For each plugin id of each
configuration rule, it looks the plugin up in a registry and asks git for the
files matching the rule's patterns. When there are files, it builds
the tool's command line, runs it, and hands the captured output to the
plugin's interpreter. The interpreter produces per-file results and error and
warning counts. The application waits for every run, adds up the counts,
prints a summary line and exits with status 1 when there were errors.

The model is split into modules that follow the program's files:

- `Util` (util.dfy): the nullish test, `??`, the `Promise.all` / `map`-that-throws
  settling order (`AllOk`), and `removeKey` on a mutable object.
- `Text` (text.dfy): joining, splitting at a separator, dropping empty pieces,
  quoting, ASCII lower-casing and decimal rendering.
- `Api` (api.dfy): the result model (`LinterMessage`, `LinterFileResult`,
  `LinterOutput`, `ProcessOutput`), `getPosition`, and the counting functions
  the consistency properties use.
- `Grouping` (grouping.dfy): `groupMessagesByFile`, as the loop over an
  insertion-ordered map. It is proved equal to a reference definition
  (`Grouped`), and the lemmas state the reference's properties.
- `Eslint`, `Markdownlint`, `GolangciLint`, `Actionlint`, `Buf` (one file each):
  each adapter's command line, as a specification function `Argv` plus the
  `CommandBuilder` method that pushes the parts and is proved to produce
  `Join(Argv(..), " ")`, and each adapter's interpreter.
- `Git` (git.dfy): the file-listing command and the reading of its output.
- `Plugins` (plugins.dfy): the registry and `runLint`.
- `App` (main.dfy): `runApp`, its nested launch loops, the tally, the summary
  line, the exit status, and the built-in configuration.

Running a process and parsing JSON are inputs of the model:

- `exec` is a function from a command line to how the process ended
  (`ExecOutcome`).
- `Decoders` gives each plugin's decoding of a text into the tool's records, or
  the failure `JSON.parse` would throw.

Where parts of the code disagree with each other, the model follows the
code that runs:

- Registry: only `eslint`, `golangcilint` and `markdownlint` are in the
  registry (plugins/index.ts:11). The ids `actionlint`, `bufLint` and
  `bufBreaking` that the built-in configuration names resolve to nothing. A
  rule using them fails as soon as git lists a file for it (`MissingPlugin`).
  A rule without files gives no result.
- Command builders: `runLint` calls `commandBuilder(filenames,
  entry.configFilePath)` (plugins/index.ts:25), while the interface and buf
  take `(filenames, config, rule)` (api.ts:15). The model uses the
  three-argument form everywhere, and the non-buf adapters read
  `rule.configFilePath`.
- Positions: the eslint and markdownlint interpreters write positions under
  the names `lineStart`, `columnStart`, `lineEnd` and `columnEnd`, which
  `LinterMessage` does not declare. The golangci-lint interpreter writes only
  `lineStart` and `columnStart`. The model stores them as `startPosition` and
  `endPosition`, the fields `LinterMessage` declares.
- buf workspace root: the built-in configuration gives it as
  `params.bufWorkspaceRoot` (main.ts:27-29), but buf reads
  `rule.bufParams?.bufWorkspaceRoot` (plugins/buf.ts:24). So in `DefaultConfig`
  the buf rule has no workspace root.
- golangci-lint counts: the interpreter reports every issue as an error in
  the top-level count, warnings included, with a warning count of zero
  (plugins/golangci-lint.ts:30-34). The model keeps this, and
  `GolangciLint.TranslateCounts` states how these totals relate to the
  per-file ones.
- Configuration types: the types `Config` and `ConfigRule` are not part of
  this model's sources. Their fields are taken from how the code reads them.

## Model

| member | source | states |
|---|---|---|
| Util.DefinedIsNotNil | tools/util.ts:11-14 | `isNil` holds for `null` and `undefined` and for no present value |
| Util.IsNil | tools/util.ts:11-14 | `isNil` holds exactly when no value is present |
| Util.Coalesce | plugins/buf.ts:24 | `v ?? fallback` is the fallback exactly when `v` is nil, and the value otherwise |
| Util.AllOk | main.ts:54 | settling a list of steps one after the other succeeds exactly when every step succeeds, with their values in order; otherwise it fails with the first failure, all steps before it having succeeded |
| Util.FirstFailure | main.ts:54 | when step `i` is the first to fail, the whole list fails with step `i`'s failure |
| Util.WithoutKey | tools/util.ts:5-8 | the object without `key` has no `key`, and every other field is kept with its value |
| Util.RemoveKey | tools/util.ts:5-8 | deletes the key from the object in place and returns the very same object |
| Text.SplitJoin | tools/git.ts:15 | splitting at a separator loses nothing: joining the pieces with it gives the input back |
| Text.SplitNonEmptyConcat | tools/git.ts:15 | the non-empty pieces, concatenated, are the input with the separators deleted |
| Text.Join | tools/git.ts:12-13 | the empty list joins to the empty text, and a joined text starts with its first part |
| Text.JoinLength | tools/git.ts:12-13 | a joined text is as long as its parts plus one separator between each two neighbours |
| Text.Split | tools/git.ts:15 | splitting gives at least one piece, and no piece holds the separator |
| Text.NonEmpty | tools/git.ts:15 | the kept pieces are exactly the non-empty ones, and a list without empty pieces is kept whole |
| Text.NonEmptyAppend | tools/git.ts:15 | filtering keeps the kept pieces in their original order |
| Text.QuotedIsNotFlag | plugins/eslint.ts:17 | a quoted file name never equals an option flag |
| Text.ToLower | plugins/golangci-lint.ts:20 | lower-casing keeps the length, lowers each ASCII capital and keeps every other character |
| Text.ToLowerIdempotent | plugins/golangci-lint.ts:20 | lower-casing twice is lower-casing once |
| Text.NatToDecimalRoundTrip | main.ts:68 | the decimal rendering of a count reads back as that count |
| Api.GetPosition | api.ts:91-97 | a position exists exactly when both coordinates are present, and then holds them |
| Api.StripFilePathRemovesOnlyFilePath | plugins/index.ts:73 | removing `filePath` from a message object leaves exactly the message's own fields with their values |
| Api.MessageFieldsInjective | api.ts:30-37 | two messages with the same fields are the same message |
| Api.SeveritiesPartition | api.ts:4 | with two severities, errors plus warnings count every message once |
| Grouping.FirstSeenOrder | plugins/index.ts:70-84 | the keys of an insertion-ordered map come in the order of their first insertion |
| Grouping.GroupMessagesByFile | plugins/index.ts:69-98 | the loop over the map returns the reference grouping of its input |
| Grouping.GroupedFiles | plugins/index.ts:69-98 | every file appears once, and the files are exactly the paths of the input |
| Grouping.GroupedOrder | plugins/index.ts:84 | files come in the order their paths first appear |
| Grouping.GroupedContents | plugins/index.ts:75-95 | each file holds exactly its path's messages in input order, its counters match their severities, and it has no source |
| Grouping.MessageLandsInItsFile | plugins/index.ts:72-76 | every input message is among the messages of its own file |
| Grouping.GroupedConservation | plugins/index.ts:69-98 | no message, error or warning is lost or duplicated: the per-file totals are the input's |
| Grouping.UniformOutputConsistent | plugins/markdownlint.ts:40-44 | when all messages have one severity and their number is reported under it, the output is consistent |
| Eslint.Argv | plugins/eslint.ts:12-19 | `eslint --format json`, `--config <file>` exactly when a non-empty path is given, then every file double-quoted in order |
| Eslint.CommandBuilder | plugins/eslint.ts:12-19 | the pushes produce the command line of `Argv` joined by spaces |
| Eslint.ToMessage | plugins/eslint.ts:25-33 | severity 1 is a warning and any other an error; the rule id, text and both positions are kept |
| Eslint.ToFileResult | plugins/eslint.ts:36-42 | a file keeps its path, source and ESLint's own counts, and gets its messages translated in order |
| Eslint.ReportedTotals | plugins/eslint.ts:34-35 | the running totals are the sums of the files' counts |
| Eslint.Translate | plugins/eslint.ts:24-48 | one result per ESLint file in order; the top-level counts are the per-file sums; an empty report gives the empty output |
| Eslint.TranslateOutput | plugins/eslint.ts:22-48 | the `map` with running totals computes `Translate` |
| Eslint.OutputInterpreter | plugins/eslint.ts:20-49 | it succeeds exactly when standard output decodes, and then returns the translation of the report; otherwise it throws the decoding failure |
| Markdownlint.Argv | plugins/markdownlint.ts:16-23 | `markdownlint --json`, the optional `--config` pair, then the double-quoted files in order |
| Markdownlint.CommandBuilder | plugins/markdownlint.ts:16-23 | the pushes produce `Argv` joined by spaces |
| Markdownlint.ToFileMessage | plugins/markdownlint.ts:27-38 | every finding is an error on its line, with the rule names, description and link; a missing range counts as `[0, 0]`, and the end column is the start plus the length |
| Markdownlint.Translate | plugins/markdownlint.ts:26-44 | the findings are grouped by file, `errorCount` is the number of findings and `warningCount` is zero |
| Markdownlint.TranslateConsistent | plugins/markdownlint.ts:40-44 | the output is consistent and holds every finding once |
| Markdownlint.ReadsStandardError | plugins/markdownlint.ts:25 | the interpreter reads standard error: standard output does not matter |
| Markdownlint.OutputInterpreter | plugins/markdownlint.ts:24-45 | it succeeds exactly when standard error decodes, and then returns the translation of the report; otherwise it throws the decoding failure |
| Markdownlint.InterpreterConsistent | plugins/markdownlint.ts:24-45 | whatever the interpreter returns is consistent |
| GolangciLint.Argv | plugins/golangci-lint.ts:8-15 | `golangci-lint --out-format json run`, the optional `--config` pair, then the double-quoted files in order |
| GolangciLint.CommandBuilder | plugins/golangci-lint.ts:8-15 | the pushes produce `Argv` joined by spaces |
| GolangciLint.IssueSeverity | plugins/golangci-lint.ts:20 | an issue is a warning exactly when its severity reads `warning` in any case |
| GolangciLint.IssueSeverityIgnoresCase | plugins/golangci-lint.ts:20 | lower-casing the severity text does not change the verdict |
| GolangciLint.ToFileMessage | plugins/golangci-lint.ts:18-28 | file, line and column come from the nested position; the linter is the rule id; there is no end position |
| GolangciLint.WarningIssuesCounted | plugins/golangci-lint.ts:20 | the warnings among the messages are the issues whose severity reads `warning` |
| GolangciLint.Translate | plugins/golangci-lint.ts:18-34 | the issues are grouped by file, `errorCount` is the number of issues whatever their severity, and `warningCount` is zero |
| GolangciLint.TranslateCounts | plugins/golangci-lint.ts:30-34 | files are consistent; the top-level error count is the per-file errors plus warnings, and equals the per-file errors exactly when no issue is a warning |
| GolangciLint.OutputInterpreter | plugins/golangci-lint.ts:16-35 | it succeeds exactly when standard output decodes, and then returns the translation of the report; otherwise it throws the decoding failure |
| Actionlint.Argv | plugins/actionlint.ts:12-19 | `actionlint -format '{{json .}}'`, `-config-file <file>` exactly when a non-empty path is given, then the single-quoted files in order |
| Actionlint.CommandBuilder | plugins/actionlint.ts:12-19 | the pushes produce `Argv` joined by spaces |
| Actionlint.ToFileMessage | plugins/actionlint.ts:22-30 | every finding is an error with its kind as rule id and a start position only when line and column are both given |
| Actionlint.Translate | plugins/actionlint.ts:22-36 | the findings are grouped by file, `errorCount` is the number of findings and `warningCount` is zero |
| Actionlint.TranslateConsistent | plugins/actionlint.ts:32-36 | the output is consistent and holds every finding once |
| Actionlint.InterpreterConsistent | plugins/actionlint.ts:20-37 | whatever the interpreter returns is consistent |
| Actionlint.OutputInterpreter | plugins/actionlint.ts:20-37 | it succeeds exactly when standard output decodes, and then returns the translation of the findings; otherwise it throws the decoding failure |
| Buf.Argv | plugins/buf.ts:22-41 | `buf <cmd> --error-format json`, the root when non-empty, `--against` to the main branch (default `main`, `,subdir=<root>` with a root) only for `breaking`, the optional `--config` pair, and `--path '<f>'` per file, in that layout |
| Buf.CommandBuilder | plugins/buf.ts:22-41 | the conditional pushes produce `Argv` joined by spaces |
| Buf.LintHasNoAgainst | plugins/buf.ts:29-33 | a `lint` command line has no `--against` part |
| Buf.Lines | plugins/buf.ts:43-45 | the non-empty lines of standard output have no line breaks and together hold every other character in order |
| Buf.LinesOfJoin | plugins/buf.ts:43-45 | for any records joined by line breaks, the lines read are the non-empty records in their order |
| Buf.Decode | plugins/buf.ts:43-46 | decoding succeeds exactly when every non-empty line decodes, giving one record per line in order; otherwise it fails with the failure of the first line that does not decode |
| Buf.ToFileMessage | plugins/buf.ts:48-56 | the instance's severity, the finding's type as rule id, and the start and end positions as `getPosition` gives them from the record's coordinates |
| Buf.Translate | plugins/buf.ts:48-63 | the records are grouped by file; the count of the instance's severity is the number of records and the other count is zero |
| Buf.OutputInterpreter | plugins/buf.ts:42-64 | it succeeds exactly when every line decodes, and then returns the translation of the records; otherwise it throws the decoding failure |
| Buf.OneMessagePerLine | plugins/buf.ts:42-64 | a successful interpretation holds one message per non-empty line and is consistent |
| Buf.FirstBadLineThrows | plugins/buf.ts:46 | the first line that does not decode is the failure thrown |
| Buf.InstanceCounts | plugins/buf.ts:61-79 | `buf lint` counts every finding as a warning and `buf breaking` as an error |
| Git.GitArgv | tools/git.ts:7-12 | the scope's base command, then every pattern double-quoted in order |
| Git.GitCommand | tools/git.ts:7-13 | the command line is the scope's base command joined by spaces, then a space and the quoted patterns joined by spaces when there are patterns |
| Git.ListedFiles | tools/git.ts:15 | the listed names are the non-empty lines of the output, without line breaks |
| Git.ListedFilesKeepOrder | tools/git.ts:15 | no character of the output is lost, reordered or invented apart from line breaks |
| Git.ListedFilesOfLines | tools/git.ts:15 | output that is one name per line lists exactly those names in that order |
| Git.ListedFilesOfJoin | tools/git.ts:15 | for any lines joined by line breaks, the listed names are the non-empty lines in their order |
| Plugins.Lookup | plugins/index.ts:11 | an id resolves exactly when it is registered, to its registered adapter |
| Plugins.RegistryContents | plugins/index.ts:11 | `eslint`, `golangcilint` and `markdownlint` resolve; `actionlint`, `bufLint` and `bufBreaking` do not |
| Plugins.ToProcessOutput | plugins/index.ts:29-45 | success exactly when the process resolved; the streams are kept; the exit code is the child's or the error's |
| Plugins.IsCleanRun | plugins/index.ts:48 | a run is clean exactly when its exit code is absent or 0 and both streams are empty |
| Plugins.RunLint | plugins/index.ts:17-61 | a failing git command is rethrown; no result exactly when git lists no files |
| Plugins.RunPlugin | plugins/index.ts:25-60 | a missing plugin fails; a clean run gives the empty output; otherwise the interpreter's output is returned, or its failure rethrown |
| Plugins.NoFilesNoCommand | plugins/index.ts:20-23 | without files there is no result, whatever the plugin, the other commands or the decoders |
| Plugins.CleanRunSkipsInterpreter | plugins/index.ts:48-54 | a clean run gives the empty output without consulting the interpreter |
| Plugins.InterpreterDecides | plugins/index.ts:55-59 | otherwise the interpreter's output is returned and its failure rethrown, unchanged |
| Plugins.MissingPluginFails | plugins/index.ts:25 | for every id missing from the registry, files found for it make the run fail |
| Plugins.RunLintConsistent | plugins/index.ts:48-55 | for markdownlint, actionlint and buf, a returned output is consistent |
| App.JobsAt | main.ts:48-53 | the launches go rule by rule, and within a rule plugin by plugin |
| App.LaunchAll | main.ts:46-53 | the nested loops push one `runLint` per rule and plugin id, in that order |
| App.Tally | main.ts:55-63 | the loop adds up the counts of the results that exist |
| App.SumsSkipMissing | main.ts:58-60 | a missing result changes neither total, wherever it stands |
| App.ErrorsFound | main.ts:61 | with non-negative counts the error total is positive exactly when some result has errors |
| App.ExitStatus | main.ts:70-72 | the exit status is 1 exactly when there were errors, and 0 otherwise |
| App.WarningsNeverFail | main.ts:70-72 | warnings alone never fail the run |
| App.SummaryLineShowsErrors | main.ts:68 | the error count can be read back from its place in the summary line |
| App.SummaryLineShowsWarnings | main.ts:68 | the words ` error(s) and ` follow the error count, and the warning count can be read back from its place after them |
| App.SummaryLineExample | main.ts:68 | the summary line for 2 errors and 3 warnings, written out |
| App.SummaryLine | main.ts:68 | the summary line opens with the fixed words and ends with ` warning(s).` |
| App.FatalExitStatus | main.ts:75-80 | a fatal error exits with status 1 |
| App.RunApp | main.ts:45-80 | with the launches settling in launch order, the first failure is fatal with status 1; otherwise the summary of the totals and an exit status that is 1 exactly when there were errors |
| App.DefaultLaunchOrder | main.ts:10-53 | the built-in configuration launches eslint, markdownlint, golangcilint, bufBreaking, bufLint and actionlint, in that order |
| App.DefaultUnregistered | main.ts:10-53 | its last three launches name plugins the registry lacks |

## Left out

- Running processes (tools/exec.ts) is not modelled. A command line maps to how the process ended through the `exec` parameter. Shell quoting and word splitting are not modelled: command lines are compared as text.
- `process.child.exitCode` is read synchronously while the process may still run. The model takes the exit code as part of the resolved outcome.
- `JSON.parse` and the tools' report formats are abstract decoders (`Decoders`). A decoder returns records that have every field the report interfaces declare (plugins/eslint.ts:63-79, plugins/markdownlint.ts:51-58 and the like). Only a missing field that the program reads into (golangci-lint's `Issues`, `Pos` or `Severity`, ESLint's `messages`) is part of the decoder's failure. A missing field that the program only copies into its output is not modelled: the program passes it on as `undefined` (or `[null]` for ESLint's `ruleId`), while the model's records always carry it, so `Eslint.ToFileResult` always has a `source` and `Markdownlint.ToFileMessage` always has a `contextUrl`.
- Concurrency: the launches run concurrently in the program and one after the other in the model. They share no state. `Promise.all` rejects with whichever launch fails first in time, wherever it stands in the list. The model fixes one schedule, the launches settling in launch order, so its fatal error is the first failure in launch order (`AllOk`). Under any schedule the exit status of a failed run is 1.
- Logging, colours and the logger module (tools/logger.ts) are not modelled. main.ts:7 imports `getResultLevel` and `consoleLogger`, which tools/logger.ts does not define (its logging functions are `logPrefixed`, `logAs` and `logExtraLine`; none is named `consoleLogger` or `getResultLevel`); as written, `consoleLogger.logAs` at main.ts:47 would throw before anything is launched. The model assumes these names exist and only print. The summary line's text is modelled; its printing is not. The `name` fields of plugins only serve logging and are kept as data.
- Package sources, installation strategies and the eslint module's top-level `console.log` are not modelled.
- Grouping.GroupMessagesByFile: works on values. It does not model that `removeKey` deletes `filePath` from the caller's own message objects, or that each file result's `messages` array is updated in place. `Util.RemoveKey` models the in-place deletion on its own.
- Git.ListedFiles: splits at `\n`, the POSIX `os.EOL`. The Windows `\r\n` is not modelled.
- Text.ToLower: lower-cases ASCII letters only, not the full Unicode case mapping of `toLowerCase`.
- Numbers are unbounded integers. JavaScript's floating-point counts (exact up to 2^53) are not modelled.
- `assertExhaustive` is unreachable because `Severity` has only two values. It has no counterpart.
- git.ts at the repository root and example/test.go are not part of this model.
