/** `runApp`: one `runLint` per (rule, plugin id) pair of the
    configuration, in rule order and then plugin order; waiting for all of
    them; adding up the errors and warnings of the results that exist;
    the summary line; and the exit status. The launches are modelled one
    after the other, since they share no state. */
module App {
  import opened Util
  import opened Text
  import opened Api
  import opened Plugins

  /** One launch: a rule and one of its plugin ids. */
  datatype Job = Job(rule: ConfigRule, pluginId: string)

  /** The launches of one rule, one per plugin id, in order. */
  function RuleJobs(rule: ConfigRule): (jobs: seq<Job>)
    ensures |jobs| == |rule.linterPlugins|
    ensures forall k :: 0 <= k < |jobs| ==> jobs[k] == Job(rule, rule.linterPlugins[k])
  {
    seq(|rule.linterPlugins|, k requires 0 <= k < |rule.linterPlugins| => Job(rule, rule.linterPlugins[k]))
  }

  /** The number of plugin ids over all rules. */
  function JobCount(rules: seq<ConfigRule>): nat
  {
    if |rules| == 0 then 0 else JobCount(rules[..|rules| - 1]) + |rules[|rules| - 1].linterPlugins|
  }

  /** All launches: the rules' launches one rule after the other. */
  function Jobs(rules: seq<ConfigRule>): (jobs: seq<Job>)
    ensures |jobs| == JobCount(rules)
  {
    if |rules| == 0 then [] else Jobs(rules[..|rules| - 1]) + RuleJobs(rules[|rules| - 1])
  }

  /** Rule `r`'s plugin `p` is launched at position `p` after all the
      launches of the rules before `r`: rule order first, then plugin order. */
  lemma {:induction false} JobsAt(rules: seq<ConfigRule>, r: nat, p: nat)
    requires r < |rules| && p < |rules[r].linterPlugins|
    ensures JobCount(rules[..r]) + p < |Jobs(rules)|
    ensures Jobs(rules)[JobCount(rules[..r]) + p] == Job(rules[r], rules[r].linterPlugins[p])
  {
    var n := |rules| - 1;
    if r == n {
      assert rules[..n] == rules[..r];
    } else {
      assert rules[..n][..r] == rules[..r];
      JobsAt(rules[..n], r, p);
    }
  }

  /** What one launch settles to. */
  function RunJob(scope: FilesetScope, config: Config, exec: string -> ExecOutcome, decoders: Decoders, job: Job)
    : Result<Option<LinterOutput>, LintError>
  {
    RunLint(scope, Lookup(job.pluginId), job.rule, config, exec, decoders)
  }

  /** A launch as a function of the job. */
  function Launcher(scope: FilesetScope, config: Config, exec: string -> ExecOutcome, decoders: Decoders)
    : Job -> Result<Option<LinterOutput>, LintError>
  {
    job => RunJob(scope, config, exec, decoders, job)
  }

  /** What the launches of `jobs` settle to, in order. */
  function Launches(run: Job -> Result<Option<LinterOutput>, LintError>, jobs: seq<Job>)
    : (rs: seq<Result<Option<LinterOutput>, LintError>>)
    ensures |rs| == |jobs|
    ensures forall k :: 0 <= k < |jobs| ==> rs[k] == run(jobs[k])
  {
    seq(|jobs|, k requires 0 <= k < |jobs| => run(jobs[k]))
  }

  lemma LaunchesAppend(run: Job -> Result<Option<LinterOutput>, LintError>, a: seq<Job>, b: seq<Job>)
    ensures Launches(run, a + b) == Launches(run, a) + Launches(run, b)
  {
    var whole, parts := Launches(run, a + b), Launches(run, a) + Launches(run, b);
    forall k | 0 <= k < |whole|
      ensures whole[k] == parts[k]
    {
      if k < |a| {
        assert (a + b)[k] == a[k];
      } else {
        assert (a + b)[k] == b[k - |a|];
      }
    }
  }

  /** Launching the next plugin id of a rule appends its launch. */
  lemma LaunchNext(run: Job -> Result<Option<LinterOutput>, LintError>, done: seq<Job>, rule: ConfigRule, j: nat)
    requires j < |rule.linterPlugins|
    ensures Launches(run, done + RuleJobs(rule)[..j + 1])
         == Launches(run, done + RuleJobs(rule)[..j]) + [run(Job(rule, rule.linterPlugins[j]))]
  {
    var job := Job(rule, rule.linterPlugins[j]);
    assert done + RuleJobs(rule)[..j + 1] == (done + RuleJobs(rule)[..j]) + [job];
    LaunchesAppend(run, done + RuleJobs(rule)[..j], [job]);
  }

  /** Launching all plugin ids of the next rule completes the launches of
      the rules so far. */
  lemma LaunchRule(run: Job -> Result<Option<LinterOutput>, LintError>, rules: seq<ConfigRule>, i: nat)
    requires i < |rules|
    ensures Launches(run, Jobs(rules[..i]) + RuleJobs(rules[i])[..|rules[i].linterPlugins|])
         == Launches(run, Jobs(rules[..i + 1]))
  {
    assert RuleJobs(rules[i])[..|rules[i].linterPlugins|] == RuleJobs(rules[i]);
    assert rules[..i + 1][..i] == rules[..i];
  }

  /** The nested loops that push one `runLint` per rule and plugin id. */
  method LaunchAll(scope: FilesetScope, config: Config, exec: string -> ExecOutcome, decoders: Decoders)
    returns (promises: seq<Result<Option<LinterOutput>, LintError>>)
    ensures promises == Launches(Launcher(scope, config, exec, decoders), Jobs(config.rules))
  {
    ghost var run := Launcher(scope, config, exec, decoders);
    var rules := config.rules;
    promises := [];
    for i := 0 to |rules|
      invariant promises == Launches(run, Jobs(rules[..i]))
    {
      var rule := rules[i];
      ghost var done := Jobs(rules[..i]);
      for j := 0 to |rule.linterPlugins|
        invariant promises == Launches(run, done + RuleJobs(rule)[..j])
      {
        var linterId := rule.linterPlugins[j];
        var linter := Lookup(linterId);
        LaunchNext(run, done, rule, j);
        assert run(Job(rule, linterId)) == RunLint(scope, linter, rule, config, exec, decoders);
        promises := promises + [RunLint(scope, linter, rule, config, exec, decoders)];
      }
      LaunchRule(run, rules, i);
    }
    TakeAll(rules);
  }

  /** The errors of the results that exist, added up; a missing result
      (a rule without files) adds nothing. */
  function SumErrors(results: seq<Option<LinterOutput>>): int
  {
    if |results| == 0 then 0
    else
      var last := results[|results| - 1];
      SumErrors(results[..|results| - 1]) + (if last.Some? then last.value.errorCount else 0)
  }

  /** The warnings of the results that exist, added up. */
  function SumWarnings(results: seq<Option<LinterOutput>>): int
  {
    if |results| == 0 then 0
    else
      var last := results[|results| - 1];
      SumWarnings(results[..|results| - 1]) + (if last.Some? then last.value.warningCount else 0)
  }

  /** The tally of a list is the tally of its parts. */
  lemma {:induction false} SumsAppend(a: seq<Option<LinterOutput>>, b: seq<Option<LinterOutput>>)
    ensures SumErrors(a + b) == SumErrors(a) + SumErrors(b)
    ensures SumWarnings(a + b) == SumWarnings(a) + SumWarnings(b)
  {
    if |b| == 0 {
      assert a + b == a;
    } else {
      var n := |b| - 1;
      assert (a + b)[..|a + b| - 1] == a + b[..n];
      SumsAppend(a, b[..n]);
    }
  }

  /** Missing results leave the totals as they are, wherever they stand. */
  lemma SumsSkipMissing(a: seq<Option<LinterOutput>>, b: seq<Option<LinterOutput>>)
    ensures SumErrors(a + [None] + b) == SumErrors(a + b)
    ensures SumWarnings(a + [None] + b) == SumWarnings(a + b)
  {
    SumsAppend(a + [None], b);
    SumsAppend(a, b);
    assert (a + [None])[..|a|] == a;
  }

  /** The loop that adds up the counts, skipping missing results. */
  method Tally(results: seq<Option<LinterOutput>>) returns (totalErrorCount: int, totalWarningCount: int)
    ensures totalErrorCount == SumErrors(results) && totalWarningCount == SumWarnings(results)
  {
    totalErrorCount := 0;
    totalWarningCount := 0;
    for i := 0 to |results|
      invariant totalErrorCount == SumErrors(results[..i])
      invariant totalWarningCount == SumWarnings(results[..i])
    {
      assert results[..i + 1][..i] == results[..i];
      var result := results[i];
      if result.None? {
        continue;
      }
      totalErrorCount := totalErrorCount + result.value.errorCount;
      totalWarningCount := totalWarningCount + result.value.warningCount;
    }
    TakeAll(results);
  }

  /** With no negative counts, the total of errors is positive exactly when
      some result has an error. */
  lemma {:induction false} ErrorsFound(results: seq<Option<LinterOutput>>)
    requires forall k :: 0 <= k < |results| && results[k].Some? ==> results[k].value.errorCount >= 0
    ensures SumErrors(results) >= 0
    ensures SumErrors(results) > 0 <==>
      exists k :: 0 <= k < |results| && results[k].Some? && results[k].value.errorCount > 0
  {
    if |results| > 0 {
      var n := |results| - 1;
      ErrorsFound(results[..n]);
      if SumErrors(results[..n]) > 0 {
        var k :| 0 <= k < n && results[..n][k].Some? && results[..n][k].value.errorCount > 0;
        assert results[k] == results[..n][k];
      }
      forall k | 0 <= k < n
        ensures results[k] == results[..n][k]
      {
      }
    }
  }

  /** The exit status of a completed run: 1 when there were errors, and 0,
      the status of a process that ends normally, otherwise. */
  function ExitStatus(totalErrorCount: int): (status: int)
    ensures status == 1 <==> totalErrorCount > 0
    ensures status == 0 <==> totalErrorCount <= 0
  {
    if totalErrorCount > 0 then 1 else 0
  }

  /** Warnings alone never fail the run. */
  lemma WarningsNeverFail(results: seq<Option<LinterOutput>>)
    requires forall k :: 0 <= k < |results| && results[k].Some? ==> results[k].value.errorCount == 0
    ensures ExitStatus(SumErrors(results)) == 0
  {
    ErrorsFound(results);
  }

  const SummaryStart := "After all operations, there were "

  /** The summary line: the fixed opening, the error count, the warning
      count, and the closing words. */
  function SummaryLine(totalErrorCount: int, totalWarningCount: int): (line: string)
    ensures |line| > |SummaryStart| && line[..|SummaryStart|] == SummaryStart
    ensures |line| > |SummaryStart| + 12 && line[|line| - 12..] == " warning(s)."
  {
    SummaryStart + IntToDecimal(totalErrorCount) + " error(s) and " + IntToDecimal(totalWarningCount) + " warning(s)."
  }

  /** The error count can be read back from the summary line. */
  lemma SummaryLineShowsErrors(totalErrorCount: nat, totalWarningCount: int)
    ensures var digits := NatToDecimal(totalErrorCount);
      var line := SummaryLine(totalErrorCount, totalWarningCount);
      && |line| >= |SummaryStart| + |digits|
      && line[|SummaryStart|..|SummaryStart| + |digits|] == digits
      && DecimalValue(line[|SummaryStart|..|SummaryStart| + |digits|]) == totalErrorCount
  {
    SecondPart(SummaryStart, NatToDecimal(totalErrorCount), " error(s) and ",
               IntToDecimal(totalWarningCount), " warning(s).");
    NatToDecimalRoundTrip(totalErrorCount);
  }

  /** The warning count can be read back from the summary line, where it
      follows the error count and the words ` error(s) and `. */
  lemma SummaryLineShowsWarnings(totalErrorCount: nat, totalWarningCount: nat)
    ensures var errorDigits := NatToDecimal(totalErrorCount);
      var digits := NatToDecimal(totalWarningCount);
      var line := SummaryLine(totalErrorCount, totalWarningCount);
      var s := |SummaryStart| + |errorDigits| + |" error(s) and "|;
      && |line| >= s + |digits|
      && line[s - |" error(s) and "|..s] == " error(s) and "
      && line[s..s + |digits|] == digits
      && DecimalValue(line[s..s + |digits|]) == totalWarningCount
  {
    var a, b, c := SummaryStart, NatToDecimal(totalErrorCount), " error(s) and ";
    var d, e := NatToDecimal(totalWarningCount), " warning(s).";
    assert a + b + c + d + e == (a + b + c) + d + e;
    SecondPart(a + b, c, d, e, "");
    SecondPart(a + b + c, d, e, "", "");
    NatToDecimalRoundTrip(totalWarningCount);
  }

  /** Where the second of five joined texts sits. */
  lemma SecondPart(a: string, b: string, c: string, d: string, e: string)
    ensures |a + b + c + d + e| >= |a| + |b|
    ensures (a + b + c + d + e)[|a|..|a| + |b|] == b
  {
    assert a + b + c + d + e == (a + b) + (c + d + e);
    assert (a + b)[|a|..] == b;
  }

  lemma SummaryLineExample()
    ensures SummaryLine(2, 3) == "After all operations, there were 2 error(s) and 3 warning(s)."
  {
  }

  /** The `exitCode` a thrown error carries. None of the failures modelled
      here has one: a failed process carries its exit code as `code`. */
  function ExitCodeOf(e: LintError): Nullable<int>
  {
    Undefined
  }

  /** The exit status of a fatal error: `e.exitCode ?? 1`, which is 1 for
      every failure of a run. */
  function FatalExitStatus(e: LintError): (status: int)
    ensures status == 1
  {
    Coalesce(ExitCodeOf(e), 1)
  }

  /** How a run of the application ends: a summary and an exit status, or a
      fatal error and its exit status. */
  datatype AppOutcome =
    | Completed(summary: string, exitStatus: int)
    | Fatal(error: LintError, exitStatus: int)

  /** `runApp` and its `catch`: launch everything, wait for all of it, add
      up what exists, and exit with 1 exactly when there were errors or a
      failure. The launches are taken to settle one after the other, so the
      fatal error is the first failure in launch order; under any other
      schedule it may be another launch's failure, with exit status 1 all
      the same. */
  method RunApp(scope: FilesetScope, config: Config, exec: string -> ExecOutcome, decoders: Decoders)
    returns (outcome: AppOutcome)
    ensures var settled := AllOk(Launches(Launcher(scope, config, exec, decoders), Jobs(config.rules)));
      && (settled.Err? ==> outcome == Fatal(settled.error, 1))
      && (settled.Ok? ==> outcome == Completed(
            SummaryLine(SumErrors(settled.value), SumWarnings(settled.value)),
            ExitStatus(SumErrors(settled.value))))
      && (outcome.exitStatus == 1 <==> settled.Err? || SumErrors(settled.value) > 0)
  {
    var promises := LaunchAll(scope, config, exec, decoders);
    var settled := AllOk(promises);
    if settled.Err? {
      outcome := Fatal(settled.error, FatalExitStatus(settled.error));
      return;
    }
    var results := settled.value;
    var totalErrorCount, totalWarningCount := Tally(results);
    var summary := SummaryLine(totalErrorCount, totalWarningCount);
    outcome := Completed(summary, ExitStatus(totalErrorCount));
  }

  /** The fileset scope the application uses. */
  const DefaultScope := All

  /** The rules of the configuration the application uses. */
  const ScriptRule := ConfigRule(["*.ts", "*.js", "*.tsx", "*.jsx", "*.json", "*.jsonc", "*.json5"], ["eslint"], Undefined, Undefined)
  const MarkdownRule := ConfigRule(["*.md"], ["markdownlint"], Undefined, Undefined)
  const GoRule := ConfigRule(["*.go"], ["golangcilint"], Undefined, Undefined)
  const ProtoRule := ConfigRule(["example/**.proto"], ["bufBreaking", "bufLint"], Undefined, Undefined)
  const WorkflowRule := ConfigRule([".github/workflows/**.yml", ".github/actions/**.yml"], ["actionlint"], Undefined, Undefined)

  /** The configuration the application uses. Its buf rule's workspace root
      is given under a key the buf adapter does not read, so here it has
      none. */
  const DefaultConfig := Config([ScriptRule, MarkdownRule, GoRule, ProtoRule, WorkflowRule], Undefined)

  /** The plugin ids of some launches, in order. */
  function PluginIds(jobs: seq<Job>): (ids: seq<string>)
    ensures |ids| == |jobs|
    ensures forall k :: 0 <= k < |jobs| ==> ids[k] == jobs[k].pluginId
  {
    seq(|jobs|, k requires 0 <= k < |jobs| => jobs[k].pluginId)
  }

  /** The plugin ids launched for the rules up to `i` and then rule `i`. */
  lemma PluginIdsSnoc(rules: seq<ConfigRule>, i: nat)
    requires i < |rules|
    ensures PluginIds(Jobs(rules[..i + 1])) == PluginIds(Jobs(rules[..i])) + rules[i].linterPlugins
  {
    JobsSnoc(rules, i);
    var a, b := Jobs(rules[..i]), RuleJobs(rules[i]);
    assert PluginIds(a + b) == PluginIds(a) + PluginIds(b);
    assert PluginIds(b) == rules[i].linterPlugins;
  }

  /** The default configuration launches six plugins, in this order. */
  lemma DefaultLaunchOrder()
    ensures PluginIds(Jobs(DefaultConfig.rules))
         == ["eslint", "markdownlint", "golangcilint", "bufBreaking", "bufLint", "actionlint"]
  {
    var rules := DefaultConfig.rules;
    assert rules[..0] == [];
    PluginIdsSnoc(rules, 0);
    PluginIdsSnoc(rules, 1);
    PluginIdsSnoc(rules, 2);
    PluginIdsSnoc(rules, 3);
    PluginIdsSnoc(rules, 4);
    TakeAll(rules);
  }

  /** The last three plugins the default configuration launches are not in
      the registry, so they fail whenever their rule has files. */
  lemma DefaultUnregistered()
    ensures forall k :: 3 <= k < |Jobs(DefaultConfig.rules)| ==> Lookup(Jobs(DefaultConfig.rules)[k].pluginId).None?
  {
    DefaultLaunchOrder();
    var jobs := Jobs(DefaultConfig.rules);
    assert forall k :: 3 <= k < |jobs| ==> jobs[k].pluginId == PluginIds(jobs)[k];
    RegistryContents();
  }

  /** The launches of one more rule follow those of the rules before it. */
  lemma JobsSnoc(rules: seq<ConfigRule>, i: nat)
    requires i < |rules|
    ensures Jobs(rules[..i + 1]) == Jobs(rules[..i]) + RuleJobs(rules[i])
  {
    assert rules[..i + 1][..i] == rules[..i];
  }
}
