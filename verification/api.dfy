/** The unified result model every lint tool's output is translated into:
    severities, positions, messages, per-file results, per-run output, the
    captured outcome of a process run, and the configuration a run reads. */
module Api {
  import opened Util

  /** `MessageSeverity`: exactly two values. Every `switch` over it in the
      system is exhaustive, so its `assertExhaustive` default branch has no
      counterpart here. */
  datatype Severity = Warning | Error

  datatype CodePosition = CodePosition(line: int, column: int)

  datatype LinterMessage = LinterMessage(
    ruleIds: seq<string>,
    message: string,
    contextUrl: Option<string>,
    severity: Severity,
    startPosition: Option<CodePosition>,
    endPosition: Option<CodePosition>)

  /** `LinterMessage & { filePath: string }`: a message still carrying its file. */
  datatype FileMessage = FileMessage(
    filePath: string,
    ruleIds: seq<string>,
    message: string,
    contextUrl: Option<string>,
    severity: Severity,
    startPosition: Option<CodePosition>,
    endPosition: Option<CodePosition>)

  datatype LinterFileResult = LinterFileResult(
    filePath: string,
    messages: seq<LinterMessage>,
    errorCount: int,
    warningCount: int,
    source: Option<string>)

  datatype LinterOutput = LinterOutput(files: seq<LinterFileResult>, errorCount: int, warningCount: int)

  /** The captured result of one process run; `exitCode` may be absent. */
  datatype ProcessOutput = ProcessOutput(success: bool, exitCode: Option<int>, stdout: string, stderr: string)

  /** What a failed step throws. `ParseError` is raised by the decoding of a
      tool's output, `CommandFailed` by a file-listing command that exits
      non-zero, `MissingPlugin` by using a plugin id the registry lacks. */
  datatype LintError =
    | ParseError(detail: string)
    | CommandFailed(stdout: string, stderr: string, code: Option<int>)
    | MissingPlugin

  datatype FilesetScope = Changed | All

  /** One configuration rule: the file patterns, the plugin ids to run on
      them, an optional tool configuration file, and the optional
      `bufParams.bufWorkspaceRoot`. */
  datatype ConfigRule = ConfigRule(
    patterns: seq<string>,
    linterPlugins: seq<string>,
    configFilePath: Nullable<string>,
    bufWorkspaceRoot: Nullable<string>)

  /** The whole configuration: the rules, and the optional `globalParams.mainGitBranch`. */
  datatype Config = Config(rules: seq<ConfigRule>, mainGitBranch: Nullable<string>)

  /** The output of a run that found nothing. */
  const EmptyOutput := LinterOutput([], 0, 0)

  /** `getPosition`: a position only when both coordinates are present
      (0 counts as present); otherwise none, never half of one. */
  function GetPosition(line: Nullable<int>, column: Nullable<int>): (r: Option<CodePosition>)
    ensures r.None? <==> IsNil(line) || IsNil(column)
    ensures r.Some? ==> r.value.line == line.value && r.value.column == column.value
  {
    if IsNil(line) || IsNil(column) then None else Some(CodePosition(line.value, column.value))
  }

  /** `removeKey(fileMsg, 'filePath')` as a value: the message without its file. */
  function StripFilePath(fm: FileMessage): LinterMessage
  {
    LinterMessage(fm.ruleIds, fm.message, fm.contextUrl, fm.severity, fm.startPosition, fm.endPosition)
  }

  /** The value of one field of a message object. */
  datatype Field = Text(text: string) | Texts(texts: seq<string>) | Level(level: Severity) | At(at: CodePosition)

  /** `fields` with `key` set to the text `v` when `v` is present. */
  function WithText(fields: map<string, Field>, key: string, v: Option<string>): map<string, Field>
  {
    if v.Some? then fields[key := Text(v.value)] else fields
  }

  /** `fields` with `key` set to the position `v` when `v` is present. */
  function WithPosition(fields: map<string, Field>, key: string, v: Option<CodePosition>): map<string, Field>
  {
    if v.Some? then fields[key := At(v.value)] else fields
  }

  /** The fields a message object has; an absent optional field has no key. */
  function MessageFields(m: LinterMessage): map<string, Field>
  {
    var required := map["ruleIds" := Texts(m.ruleIds), "message" := Text(m.message), "severity" := Level(m.severity)];
    WithPosition(WithPosition(WithText(required, "contextUrl", m.contextUrl),
      "startPosition", m.startPosition), "endPosition", m.endPosition)
  }

  /** The fields a message object carrying its file has. */
  function FileMessageFields(fm: FileMessage): map<string, Field>
  {
    var required := map["filePath" := Text(fm.filePath), "ruleIds" := Texts(fm.ruleIds),
                        "message" := Text(fm.message), "severity" := Level(fm.severity)];
    WithPosition(WithPosition(WithText(required, "contextUrl", fm.contextUrl),
      "startPosition", fm.startPosition), "endPosition", fm.endPosition)
  }

  /** Stripping the file path is exactly deleting the `filePath` key: every
      other field keeps its value, and no field appears or disappears. */
  lemma StripFilePathRemovesOnlyFilePath(fm: FileMessage)
    ensures MessageFields(StripFilePath(fm)) == WithoutKey(FileMessageFields(fm), "filePath")
  {
    var a := MessageFields(StripFilePath(fm));
    var b := WithoutKey(FileMessageFields(fm), "filePath");
    forall k
      ensures (k in a <==> k in b) && (k in a ==> a[k] == b[k])
    {
      if k in ["ruleIds", "message", "severity", "contextUrl", "startPosition", "endPosition"] {
      } else {
        assert k !in a;
      }
    }
  }

  /** Two messages with the same fields are the same message. */
  lemma MessageFieldsInjective(a: LinterMessage, b: LinterMessage)
    requires MessageFields(a) == MessageFields(b)
    ensures a == b
  {
    var fa, fb := MessageFields(a), MessageFields(b);
    assert fa["ruleIds"] == fb["ruleIds"] && fa["message"] == fb["message"] && fa["severity"] == fb["severity"];
    assert a.contextUrl.Some? <==> "contextUrl" in fa;
    assert b.contextUrl.Some? <==> "contextUrl" in fb;
    if a.contextUrl.Some? {
      assert fa["contextUrl"] == Text(a.contextUrl.value);
      assert fb["contextUrl"] == Text(b.contextUrl.value);
    }
    assert a.startPosition.Some? <==> "startPosition" in fa;
    assert b.startPosition.Some? <==> "startPosition" in fb;
    if a.startPosition.Some? {
      assert fa["startPosition"] == At(a.startPosition.value);
      assert fb["startPosition"] == At(b.startPosition.value);
    }
    assert a.endPosition.Some? <==> "endPosition" in fa;
    assert b.endPosition.Some? <==> "endPosition" in fb;
    if a.endPosition.Some? {
      assert fa["endPosition"] == At(a.endPosition.value);
      assert fb["endPosition"] == At(b.endPosition.value);
    }
  }

  /** The number of messages of severity `s`. */
  function CountSeverity(msgs: seq<LinterMessage>, s: Severity): (n: nat)
    ensures n <= |msgs|
  {
    if |msgs| == 0 then 0
    else CountSeverity(msgs[..|msgs| - 1], s) + (if msgs[|msgs| - 1].severity == s then 1 else 0)
  }

  lemma CountSeverityAppend(msgs: seq<LinterMessage>, m: LinterMessage, s: Severity)
    ensures CountSeverity(msgs + [m], s) == CountSeverity(msgs, s) + (if m.severity == s then 1 else 0)
  {
    assert (msgs + [m])[..|msgs|] == msgs;
  }

  /** Because there are only two severities, every message is counted once. */
  lemma {:induction false} SeveritiesPartition(msgs: seq<LinterMessage>)
    ensures CountSeverity(msgs, Error) + CountSeverity(msgs, Warning) == |msgs|
  {
    if |msgs| > 0 {
      SeveritiesPartition(msgs[..|msgs| - 1]);
    }
  }

  /** The sum of the per-file error counts. */
  function TotalErrors(files: seq<LinterFileResult>): int
  {
    if |files| == 0 then 0 else TotalErrors(files[..|files| - 1]) + files[|files| - 1].errorCount
  }

  /** The sum of the per-file warning counts. */
  function TotalWarnings(files: seq<LinterFileResult>): int
  {
    if |files| == 0 then 0 else TotalWarnings(files[..|files| - 1]) + files[|files| - 1].warningCount
  }

  /** The number of messages over all files. */
  function TotalMessages(files: seq<LinterFileResult>): nat
  {
    if |files| == 0 then 0 else TotalMessages(files[..|files| - 1]) + |files[|files| - 1].messages|
  }

  lemma TotalsAppend(files: seq<LinterFileResult>, f: LinterFileResult)
    ensures TotalErrors(files + [f]) == TotalErrors(files) + f.errorCount
    ensures TotalWarnings(files + [f]) == TotalWarnings(files) + f.warningCount
    ensures TotalMessages(files + [f]) == TotalMessages(files) + |f.messages|
  {
    assert (files + [f])[..|files|] == files;
  }

  /** A file result whose counters match its messages' severities. */
  ghost predicate ConsistentFile(f: LinterFileResult)
  {
    f.errorCount == CountSeverity(f.messages, Error) && f.warningCount == CountSeverity(f.messages, Warning)
  }

  /** An output whose every file is consistent and whose top-level counts are
      the sums of the per-file counts. */
  ghost predicate ConsistentOutput(o: LinterOutput)
  {
    && (forall j :: 0 <= j < |o.files| ==> ConsistentFile(o.files[j]))
    && o.errorCount == TotalErrors(o.files)
    && o.warningCount == TotalWarnings(o.files)
  }
}
