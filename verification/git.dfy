/** `gitChangedFiles`: the git command that lists the files a rule applies
    to, and the reading of that command's standard output as a list of file
    names. Running the command is not part of this module. */
module Git {
  import opened Util
  import opened Text
  import opened Api

  /** The base command of a scope: changed and untracked files that git does
      not ignore, or every tracked file. */
  function BaseCommand(scope: FilesetScope): seq<string>
  {
    match scope
    case Changed => ["git", "ls-files", "-mo", "--exclude-standard"]
    case All => ["git", "ls-files"]
  }

  /** The parts of the git command: the scope's base command, then every
      pattern in double quotes, in order. */
  function GitArgv(scope: FilesetScope, patterns: seq<string>): (argv: seq<string>)
    ensures |argv| == |BaseCommand(scope)| + |patterns|
    ensures scope == Changed ==> argv[..4] == ["git", "ls-files", "-mo", "--exclude-standard"]
    ensures scope == All ==> argv[..2] == ["git", "ls-files"]
    ensures forall i :: 0 <= i < |patterns| ==> argv[|argv| - |patterns| + i] == DoubleQuoted(patterns[i])
  {
    BaseCommand(scope) + DoubleQuotedAll(patterns)
  }

  /** The command line handed to the shell: the base command joined by
      spaces, then, when there are patterns, a space and the quoted patterns
      joined by spaces. */
  function GitCommand(scope: FilesetScope, patterns: seq<string>): (cmd: string)
    ensures var base := Join(BaseCommand(scope), " ");
      cmd == if |patterns| == 0 then base else base + " " + Join(DoubleQuotedAll(patterns), " ")
  {
    JoinedParts(scope, patterns);
    Join(GitArgv(scope, patterns), " ")
  }

  lemma JoinedParts(scope: FilesetScope, patterns: seq<string>)
    ensures var base := Join(BaseCommand(scope), " ");
      var joined := Join(GitArgv(scope, patterns), " ");
      joined == if |patterns| == 0 then base else base + " " + Join(DoubleQuotedAll(patterns), " ")
  {
    if |patterns| == 0 {
      assert GitArgv(scope, patterns) == BaseCommand(scope);
    } else {
      JoinAppend(BaseCommand(scope), DoubleQuotedAll(patterns), " ");
    }
  }

  /** The file names in the command's standard output: its lines, split at
      the POSIX end of line, without the empty ones. */
  function ListedFiles(stdout: string): (files: seq<string>)
    ensures forall i :: 0 <= i < |files| ==> |files[i]| > 0 && '\n' !in files[i]
    ensures forall f :: f in files <==> f in Split(stdout, '\n') && |f| > 0
  {
    NonEmpty(Split(stdout, '\n'))
  }

  /** No character of the output is lost, reordered or invented: the listed
      names, put back together, are the output without its line breaks. */
  lemma ListedFilesKeepOrder(stdout: string)
    ensures Concat(ListedFiles(stdout)) == Without(stdout, '\n')
  {
    SplitNonEmptyConcat(stdout, '\n');
  }

  /** The text of one name per line, each followed by a line break. */
  function Terminated(names: seq<string>): string
  {
    if |names| == 0 then "" else names[0] + "\n" + Terminated(names[1..])
  }

  /** Output that is one name per line lists exactly those names, in that order. */
  lemma {:induction false} ListedFilesOfLines(names: seq<string>)
    requires forall i :: 0 <= i < |names| ==> |names[i]| > 0 && '\n' !in names[i]
    ensures ListedFiles(Terminated(names)) == names
  {
    if |names| > 0 {
      var first, tail := names[0], names[1..];
      var rest := Terminated(tail);
      TailLines(names);
      ListedFilesOfLines(tail);
      SplitLine(first, rest);
      NonEmptyPrepend(first, Split(rest, '\n'));
      assert names == [first] + tail;
    }
  }

  /** Whatever the output, as long as it is lines joined by line breaks, the
      listed names are its non-empty lines in their order: an empty line, a
      trailing line break or an empty output only drop out. */
  lemma ListedFilesOfJoin(lines: seq<string>)
    requires forall i :: 0 <= i < |lines| ==> '\n' !in lines[i]
    ensures ListedFiles(Join(lines, "\n")) == NonEmpty(lines)
  {
    if |lines| == 0 {
      assert Split("", '\n') == [""];
      assert NonEmpty([""]) == [];
    } else {
      SplitJoinLines(lines);
    }
  }

  /** Splitting lines joined by line breaks gives the lines back. */
  lemma {:induction false} SplitJoinLines(lines: seq<string>)
    requires |lines| > 0
    requires forall i :: 0 <= i < |lines| ==> '\n' !in lines[i]
    ensures Split(Join(lines, "\n"), '\n') == lines
  {
    if |lines| == 1 {
      SplitNoBreak(lines[0]);
    } else {
      var rest := lines[1..];
      assert forall i :: 0 <= i < |rest| ==> '\n' !in rest[i] by {
        forall i | 0 <= i < |rest| ensures '\n' !in rest[i] {
          assert rest[i] == lines[i + 1];
        }
      }
      SplitJoinLines(rest);
      assert Join(lines, "\n") == lines[0] + "\n" + Join(rest, "\n");
      SplitLine(lines[0], Join(rest, "\n"));
      assert lines == [lines[0]] + rest;
    }
  }

  /** A text without line breaks is one line. */
  lemma {:induction false} SplitNoBreak(line: string)
    requires '\n' !in line
    ensures Split(line, '\n') == [line]
  {
    if |line| > 0 {
      assert '\n' !in line[1..] by {
        forall i | 0 <= i < |line[1..]| ensures line[1..][i] != '\n' {
          assert line[1..][i] == line[i + 1];
        }
      }
      SplitNoBreak(line[1..]);
      assert [line[0]] + line[1..] == line;
    }
  }

  /** The names after the first are one-line names too. */
  lemma TailLines(names: seq<string>)
    requires |names| > 0
    requires forall i :: 0 <= i < |names| ==> |names[i]| > 0 && '\n' !in names[i]
    ensures forall i :: 0 <= i < |names| - 1 ==> |names[1..][i]| > 0 && '\n' !in names[1..][i]
  {
  }

  /** Splitting a line that ends in a line break, followed by more text. */
  lemma {:induction false} SplitLine(line: string, rest: string)
    requires '\n' !in line
    ensures Split(line + "\n" + rest, '\n') == [line] + Split(rest, '\n')
  {
    if |line| == 0 {
      assert line + "\n" + rest == ['\n'] + rest;
      assert (['\n'] + rest)[1..] == rest;
    } else {
      assert (line + "\n" + rest)[1..] == line[1..] + "\n" + rest;
      SplitLine(line[1..], rest);
      assert [line[0]] + line[1..] == line;
    }
  }

  /** Dropping empty names from a list that starts with a non-empty one keeps it first. */
  lemma NonEmptyPrepend(first: string, rest: seq<string>)
    requires |first| > 0
    ensures NonEmpty([first] + rest) == [first] + NonEmpty(rest)
  {
    assert ([first] + rest)[1..] == rest;
  }
}
