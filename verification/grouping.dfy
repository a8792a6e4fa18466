/** `groupMessagesByFile`: folds a flat list of messages, each carrying its
    file path, into one result per file. `Grouped` is the reference
    definition (one result per distinct path in first-seen order, holding
    that path's messages in input order, with counters matching their
    severities); `GroupMessagesByFile` is the loop over an insertion-ordered
    map that the system runs, proved to compute it. */
module Grouping {
  import opened Util
  import opened Api

  /** The file path of every message, in input order. */
  function Paths(fms: seq<FileMessage>): (ps: seq<string>)
    ensures |ps| == |fms|
    ensures forall i :: 0 <= i < |fms| ==> ps[i] == fms[i].filePath
  {
    seq(|fms|, i requires 0 <= i < |fms| => fms[i].filePath)
  }

  /** The messages without their file paths, in input order. */
  function Messages(fms: seq<FileMessage>): (ms: seq<LinterMessage>)
    ensures |ms| == |fms|
    ensures forall i :: 0 <= i < |fms| ==> ms[i] == StripFilePath(fms[i])
  {
    seq(|fms|, i requires 0 <= i < |fms| => StripFilePath(fms[i]))
  }

  /** Stripping the paths of a longer input extends the stripped list by one. */
  lemma MessagesAppend(fms: seq<FileMessage>, m: FileMessage)
    ensures Messages(fms + [m]) == Messages(fms) + [StripFilePath(m)]
  {
    var a, b := Messages(fms + [m]), Messages(fms) + [StripFilePath(m)];
    forall i | 0 <= i < |a| ensures a[i] == b[i] {
      if i < |fms| {
        assert (fms + [m])[i] == fms[i];
      }
    }
  }

  ghost predicate Distinct(ps: seq<string>)
  {
    forall i, j :: 0 <= i < j < |ps| ==> ps[i] != ps[j]
  }

  /** The distinct elements of `ps`, each where it first occurs. */
  function FirstSeen(ps: seq<string>): (r: seq<string>)
    ensures Distinct(r)
    ensures forall p :: p in r <==> p in ps
  {
    if |ps| == 0 then []
    else
      var front := ps[..|ps| - 1];
      assert ps == front + [ps[|ps| - 1]];
      var r := FirstSeen(front);
      if ps[|ps| - 1] in r then r else r + [ps[|ps| - 1]]
  }

  /** The index of the first occurrence of `x` in `ps`. */
  function FirstIndex(ps: seq<string>, x: string): (i: nat)
    requires x in ps
    ensures i < |ps| && ps[i] == x && x !in ps[..i]
  {
    if ps[0] == x then 0
    else
      var j := FirstIndex(ps[1..], x);
      assert ps[..j + 1] == [ps[0]] + ps[1..][..j];
      j + 1
  }

  lemma FirstIndexUnique(ps: seq<string>, x: string, i: nat)
    requires i < |ps| && ps[i] == x && x !in ps[..i]
    ensures FirstIndex(ps, x) == i
  {
  }

  /** First occurrence in a longer list is first occurrence in the prefix. */
  lemma FirstIndexPrefix(ps: seq<string>, n: nat, x: string)
    requires n <= |ps| && x in ps[..n]
    ensures FirstIndex(ps, x) == FirstIndex(ps[..n], x)
  {
    var i := FirstIndex(ps[..n], x);
    assert ps[..n][..i] == ps[..i];
    FirstIndexUnique(ps, x, i);
  }

  /** `FirstSeen` lists the paths in the order of their first occurrence. */
  lemma {:induction false} FirstSeenOrder(ps: seq<string>)
    ensures forall j, k :: 0 <= j < k < |FirstSeen(ps)| ==>
      FirstIndex(ps, FirstSeen(ps)[j]) < FirstIndex(ps, FirstSeen(ps)[k])
  {
    if |ps| > 0 {
      var n := |ps| - 1;
      var front, x := ps[..n], ps[n];
      assert ps == front + [x];
      var r0, r := FirstSeen(front), FirstSeen(ps);
      FirstSeenAppend(front, x);
      FirstSeenOrder(front);
      forall j, k | 0 <= j < k < |r|
        ensures FirstIndex(ps, r[j]) < FirstIndex(ps, r[k])
      {
        assert r[j] == r0[j];
        FirstIndexPrefix(ps, n, r[j]);
        if k < |r0| {
          assert r[k] == r0[k];
          FirstIndexPrefix(ps, n, r[k]);
        } else {
          assert r[k] == x && x !in front;
          FirstIndexUnique(ps, x, n);
        }
      }
    }
  }

  /** The messages of file `path`, without their paths, in input order. */
  function MessagesFor(fms: seq<FileMessage>, path: string): seq<LinterMessage>
  {
    if |fms| == 0 then []
    else
      var m := fms[|fms| - 1];
      MessagesFor(fms[..|fms| - 1], path) + (if m.filePath == path then [StripFilePath(m)] else [])
  }

  lemma MessagesForAppend(fms: seq<FileMessage>, m: FileMessage, path: string)
    ensures MessagesFor(fms + [m], path)
         == MessagesFor(fms, path) + (if m.filePath == path then [StripFilePath(m)] else [])
  {
    assert (fms + [m])[..|fms|] == fms;
  }

  lemma {:induction false} MessagesForAbsent(fms: seq<FileMessage>, path: string)
    requires path !in Paths(fms)
    ensures MessagesFor(fms, path) == []
  {
    if |fms| > 0 {
      var front := fms[..|fms| - 1];
      assert Paths(front) == Paths(fms)[..|fms| - 1];
      MessagesForAbsent(front, path);
    }
  }

  /** The reference result for one file: its messages and the counts of their severities. */
  function FileResultFor(fms: seq<FileMessage>, path: string): LinterFileResult
  {
    var msgs := MessagesFor(fms, path);
    LinterFileResult(path, msgs, CountSeverity(msgs, Error), CountSeverity(msgs, Warning), None)
  }

  /** The reference results for the files `ps`, in that order. */
  function FilesFor(fms: seq<FileMessage>, ps: seq<string>): (files: seq<LinterFileResult>)
    ensures |files| == |ps|
    ensures forall j :: 0 <= j < |ps| ==> files[j] == FileResultFor(fms, ps[j])
  {
    seq(|ps|, j requires 0 <= j < |ps| => FileResultFor(fms, ps[j]))
  }

  /** What `groupMessagesByFile` returns, by definition. */
  function Grouped(fms: seq<FileMessage>): seq<LinterFileResult>
  {
    FilesFor(fms, FirstSeen(Paths(fms)))
  }

  lemma FirstSeenAppend(ps: seq<string>, x: string)
    ensures FirstSeen(ps + [x]) == if x in FirstSeen(ps) then FirstSeen(ps) else FirstSeen(ps) + [x]
  {
    assert (ps + [x])[..|ps|] == ps;
  }

  /** The loop's state after reading `done`: `keys` lists the paths seen so
      far in first-seen order and `entries` maps each to its reference result. */
  ghost predicate EntriesMatch(done: seq<FileMessage>, keys: seq<string>, entries: map<string, LinterFileResult>)
  {
    && keys == FirstSeen(Paths(done))
    && (forall p :: p in entries <==> p in keys)
    && (forall p :: p in entries ==> entries[p] == FileResultFor(done, p))
  }

  /** A new path is appended to the key order; a known one leaves it as it is. */
  lemma KeysStep(done: seq<FileMessage>, m: FileMessage, keys: seq<string>)
    requires keys == FirstSeen(Paths(done))
    ensures m.filePath in keys ==> FirstSeen(Paths(done + [m])) == keys
    ensures m.filePath !in keys ==> FirstSeen(Paths(done + [m])) == keys + [m.filePath]
  {
    assert Paths(done + [m]) == Paths(done) + [m.filePath];
    FirstSeenAppend(Paths(done), m.filePath);
  }

  /** Storing `result` under the message's path gives every entry the
      reference result of the longer input. */
  lemma ResultsStep(done: seq<FileMessage>, m: FileMessage, entries: map<string, LinterFileResult>,
                    result: LinterFileResult)
    requires forall p :: p in entries ==> entries[p] == FileResultFor(done, p)
    requires result.filePath == m.filePath && result.source.None?
    requires result.messages == MessagesFor(done, m.filePath) + [StripFilePath(m)]
    requires result.errorCount
          == CountSeverity(MessagesFor(done, m.filePath), Error) + (if m.severity == Error then 1 else 0)
    requires result.warningCount
          == CountSeverity(MessagesFor(done, m.filePath), Warning) + (if m.severity == Warning then 1 else 0)
    ensures forall p :: p in entries[m.filePath := result] ==>
      entries[m.filePath := result][p] == FileResultFor(done + [m], p)
  {
    MessagesForAppend(done, m, m.filePath);
    CountSeverityAppend(MessagesFor(done, m.filePath), StripFilePath(m), Error);
    CountSeverityAppend(MessagesFor(done, m.filePath), StripFilePath(m), Warning);
    forall p | p in entries && p != m.filePath
      ensures entries[p] == FileResultFor(done + [m], p)
    {
      MessagesForAppend(done, m, p);
      assert MessagesFor(done + [m], p) == MessagesFor(done, p);
    }
  }

  /** What the map holds for `path` before a turn: its reference result, or
      nothing when no message of `path` has been read. */
  lemma StoredResult(done: seq<FileMessage>, keys: seq<string>, entries: map<string, LinterFileResult>, path: string)
    requires EntriesMatch(done, keys, entries)
    ensures path in entries ==> entries[path] == FileResultFor(done, path)
    ensures path !in entries ==> path !in keys && MessagesFor(done, path) == []
  {
    if path !in entries {
      MessagesForAbsent(done, path);
    }
  }

  /** One turn of the loop keeps the keys and entries matching the input read so far. */
  lemma EntriesStep(done: seq<FileMessage>, m: FileMessage, keys: seq<string>,
                    entries: map<string, LinterFileResult>, result: LinterFileResult)
    requires EntriesMatch(done, keys, entries)
    requires result.filePath == m.filePath && result.source.None?
    requires result.messages == MessagesFor(done, m.filePath) + [StripFilePath(m)]
    requires result.errorCount
          == CountSeverity(MessagesFor(done, m.filePath), Error) + (if m.severity == Error then 1 else 0)
    requires result.warningCount
          == CountSeverity(MessagesFor(done, m.filePath), Warning) + (if m.severity == Warning then 1 else 0)
    ensures EntriesMatch(done + [m], if m.filePath in entries then keys else keys + [m.filePath],
                         entries[m.filePath := result])
  {
    KeysStep(done, m, keys);
    ResultsStep(done, m, entries, result);
  }

  /** Reading the entries in key order gives the reference results of those keys. */
  lemma CollectEntries(fms: seq<FileMessage>, keys: seq<string>, entries: map<string, LinterFileResult>)
    requires forall p :: p in entries <==> p in keys
    requires forall p :: p in entries ==> entries[p] == FileResultFor(fms, p)
    ensures seq(|keys|, j requires 0 <= j < |keys| => entries[keys[j]]) == FilesFor(fms, keys)
  {
  }

  /** `groupMessagesByFile`. The JavaScript `Map` is an insertion-ordered map:
      `keys` is its key order and `entries` its contents; `Array.from(values())`
      reads the entries in key order. */
  method GroupMessagesByFile(fileMessages: seq<FileMessage>) returns (files: seq<LinterFileResult>)
    ensures files == Grouped(fileMessages)
  {
    var keys: seq<string> := [];
    var entries: map<string, LinterFileResult> := map[];
    for i := 0 to |fileMessages|
      invariant EntriesMatch(fileMessages[..i], keys, entries)
    {
      var fileMsg := fileMessages[i];
      var filePath := fileMsg.filePath;
      var msg := StripFilePath(fileMsg);
      ghost var done, keys0, entries0 := fileMessages[..i], keys, entries;
      StoredResult(done, keys, entries, filePath);
      var result: LinterFileResult;
      if filePath in entries {
        result := entries[filePath];
        result := result.(messages := result.messages + [msg]);
      } else {
        result := LinterFileResult(filePath, [msg], 0, 0, None);
        keys := keys + [filePath];
      }
      match msg.severity {
        case Error => result := result.(errorCount := result.errorCount + 1);
        case Warning => result := result.(warningCount := result.warningCount + 1);
      }
      entries := entries[filePath := result];
      EntriesStep(done, fileMsg, keys0, entries0, result);
      TakeNext(fileMessages, i);
    }
    TakeAll(fileMessages);
    CollectEntries(fileMessages, keys, entries);
    files := seq(|keys|, j requires 0 <= j < |keys| => entries[keys[j]]);
  }

  // ---- Properties of the reference definition ----

  /** Every file appears once, and the files are exactly the input's paths. */
  lemma GroupedFiles(fms: seq<FileMessage>)
    ensures var g := Grouped(fms);
      && (forall j, k :: 0 <= j < k < |g| ==> g[j].filePath != g[k].filePath)
      && (forall i :: 0 <= i < |fms| ==> exists j :: 0 <= j < |g| && g[j].filePath == fms[i].filePath)
      && (forall j :: 0 <= j < |g| ==> g[j].filePath in Paths(fms))
  {
    var ps := FirstSeen(Paths(fms));
    forall i | 0 <= i < |fms|
      ensures exists j :: 0 <= j < |ps| && ps[j] == fms[i].filePath
    {
      assert Paths(fms)[i] == fms[i].filePath;
      assert fms[i].filePath in ps;
    }
  }

  /** Files come in the order their paths first appear in the input. */
  lemma GroupedOrder(fms: seq<FileMessage>)
    ensures var g := Grouped(fms);
      forall j, k :: 0 <= j < k < |g| ==>
        FirstIndex(Paths(fms), g[j].filePath) < FirstIndex(Paths(fms), g[k].filePath)
  {
    FirstSeenOrder(Paths(fms));
  }

  /** Each file holds exactly its path's messages in input order, with
      counters matching their severities. */
  lemma GroupedContents(fms: seq<FileMessage>)
    ensures var g := Grouped(fms);
      && (forall j :: 0 <= j < |g| ==> g[j].messages == MessagesFor(fms, g[j].filePath))
      && (forall j :: 0 <= j < |g| ==> ConsistentFile(g[j]) && g[j].source.None?)
  {
  }

  /** Each input message lands in the one file result of its path. */
  lemma {:induction false} MessageLandsInItsFile(fms: seq<FileMessage>, i: nat)
    requires i < |fms|
    ensures StripFilePath(fms[i]) in MessagesFor(fms, fms[i].filePath)
  {
    var n := |fms| - 1;
    assert fms == fms[..n] + [fms[n]];
    MessagesForAppend(fms[..n], fms[n], fms[i].filePath);
    if i < n {
      MessageLandsInItsFile(fms[..n], i);
    }
  }

  lemma {:induction false} FilesForEmpty(ps: seq<string>)
    ensures TotalMessages(FilesFor([], ps)) == 0
    ensures TotalErrors(FilesFor([], ps)) == 0
    ensures TotalWarnings(FilesFor([], ps)) == 0
  {
    if |ps| > 0 {
      var n := |ps| - 1;
      FilesForSnoc([], ps);
      TotalsAppend(FilesFor([], ps[..n]), FileResultFor([], ps[n]));
      FilesForEmpty(ps[..n]);
    }
  }

  lemma FilesForSnoc(fms: seq<FileMessage>, ps: seq<string>)
    requires |ps| > 0
    ensures FilesFor(fms, ps) == FilesFor(fms, ps[..|ps| - 1]) + [FileResultFor(fms, ps[|ps| - 1])]
  {
  }

  /** A message of another file leaves the results of the files `ps` unchanged. */
  lemma FilesForUnaffected(fms: seq<FileMessage>, m: FileMessage, ps: seq<string>)
    requires m.filePath !in ps
    ensures FilesFor(fms + [m], ps) == FilesFor(fms, ps)
  {
    forall j | 0 <= j < |ps|
      ensures FilesFor(fms + [m], ps)[j] == FilesFor(fms, ps)[j]
    {
      FileUnaffected(fms, m, ps[j]);
    }
  }

  /** Adding one message to the input adds it to exactly one of the files `ps`. */
  lemma {:induction false} FilesForAppend(fms: seq<FileMessage>, m: FileMessage, ps: seq<string>)
    requires Distinct(ps) && m.filePath in ps
    ensures TotalMessages(FilesFor(fms + [m], ps)) == TotalMessages(FilesFor(fms, ps)) + 1
    ensures TotalErrors(FilesFor(fms + [m], ps))
         == TotalErrors(FilesFor(fms, ps)) + (if m.severity == Error then 1 else 0)
    ensures TotalWarnings(FilesFor(fms + [m], ps))
         == TotalWarnings(FilesFor(fms, ps)) + (if m.severity == Warning then 1 else 0)
  {
    var n := |ps| - 1;
    var front, q := ps[..n], ps[n];
    var before, after := FilesFor(fms, front), FilesFor(fms + [m], front);
    FilesForSnoc(fms, ps);
    FilesForSnoc(fms + [m], ps);
    TotalsAppend(before, FileResultFor(fms, q));
    TotalsAppend(after, FileResultFor(fms + [m], q));
    assert ps == front + [q];
    if q == m.filePath {
      assert m.filePath !in front;
      FilesForUnaffected(fms, m, front);
      FileGains(fms, m);
    } else {
      assert m.filePath in front;
      assert Distinct(front) by {
        forall i, j | 0 <= i < j < |front| ensures front[i] != front[j] {
          assert front[i] == ps[i] && front[j] == ps[j];
        }
      }
      FilesForAppend(fms, m, front);
      FileUnaffected(fms, m, q);
    }
  }

  /** The result of the message's own file gains the message and its severity. */
  lemma FileGains(fms: seq<FileMessage>, m: FileMessage)
    ensures var before, after := FileResultFor(fms, m.filePath), FileResultFor(fms + [m], m.filePath);
      && |after.messages| == |before.messages| + 1
      && after.errorCount == before.errorCount + (if m.severity == Error then 1 else 0)
      && after.warningCount == before.warningCount + (if m.severity == Warning then 1 else 0)
  {
    MessagesForAppend(fms, m, m.filePath);
    CountSeverityAppend(MessagesFor(fms, m.filePath), StripFilePath(m), Error);
    CountSeverityAppend(MessagesFor(fms, m.filePath), StripFilePath(m), Warning);
  }

  /** The result of another file does not change. */
  lemma FileUnaffected(fms: seq<FileMessage>, m: FileMessage, q: string)
    requires q != m.filePath
    ensures FileResultFor(fms + [m], q) == FileResultFor(fms, q)
  {
    MessagesForAppend(fms, m, q);
    assert MessagesFor(fms + [m], q) == MessagesFor(fms, q);
  }

  /** Over any distinct list of paths that covers the input, no message is
      lost or duplicated, and neither is any error or warning. */
  lemma {:induction false} FilesForConservation(fms: seq<FileMessage>, ps: seq<string>)
    requires Distinct(ps)
    requires forall i :: 0 <= i < |fms| ==> fms[i].filePath in ps
    ensures TotalMessages(FilesFor(fms, ps)) == |fms|
    ensures TotalErrors(FilesFor(fms, ps)) == CountSeverity(Messages(fms), Error)
    ensures TotalWarnings(FilesFor(fms, ps)) == CountSeverity(Messages(fms), Warning)
  {
    if |fms| == 0 {
      FilesForEmpty(ps);
    } else {
      var n := |fms| - 1;
      var front, m := fms[..n], fms[n];
      assert fms == front + [m];
      assert forall i :: 0 <= i < |front| ==> front[i].filePath in ps by {
        forall i | 0 <= i < |front| ensures front[i].filePath in ps {
          assert front[i] == fms[i];
        }
      }
      FilesForConservation(front, ps);
      FilesForAppend(front, m, ps);
      MessagesAppend(front, m);
      CountSeverityAppend(Messages(front), StripFilePath(m), Error);
      CountSeverityAppend(Messages(front), StripFilePath(m), Warning);
    }
  }

  /** Grouping keeps every message and every count: the per-file totals add
      up to the input's length and to its numbers of errors and warnings. */
  lemma GroupedConservation(fms: seq<FileMessage>)
    ensures TotalMessages(Grouped(fms)) == |fms|
    ensures TotalErrors(Grouped(fms)) == CountSeverity(Messages(fms), Error)
    ensures TotalWarnings(Grouped(fms)) == CountSeverity(Messages(fms), Warning)
  {
    var ps := FirstSeen(Paths(fms));
    forall i | 0 <= i < |fms|
      ensures fms[i].filePath in ps
    {
      assert Paths(fms)[i] == fms[i].filePath;
    }
    FilesForConservation(fms, ps);
  }

  /** When every message has severity `s`, each counts as `s` and none as the other severity. */
  lemma {:induction false} UniformSeverity(fms: seq<FileMessage>, s: Severity)
    requires forall i :: 0 <= i < |fms| ==> fms[i].severity == s
    ensures CountSeverity(Messages(fms), s) == |fms|
    ensures CountSeverity(Messages(fms), if s == Error then Warning else Error) == 0
  {
    if |fms| > 0 {
      var n := |fms| - 1;
      UniformSeverity(fms[..n], s);
      assert fms == fms[..n] + [fms[n]];
      MessagesAppend(fms[..n], fms[n]);
      CountSeverityAppend(Messages(fms[..n]), StripFilePath(fms[n]), Error);
      CountSeverityAppend(Messages(fms[..n]), StripFilePath(fms[n]), Warning);
    }
  }

  /** An adapter that gives all its messages one severity `s` and reports
      their number under `s` and zero under the other severity produces a
      consistent output: every file's counters match its messages, and the
      top-level counts are the sums of the per-file ones. */
  lemma UniformOutputConsistent(fms: seq<FileMessage>, s: Severity)
    requires forall i :: 0 <= i < |fms| ==> fms[i].severity == s
    ensures ConsistentOutput(LinterOutput(Grouped(fms),
      if s == Error then |fms| else 0, if s == Warning then |fms| else 0))
  {
    GroupedContents(fms);
    GroupedConservation(fms);
    UniformSeverity(fms, s);
  }
}
