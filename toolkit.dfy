/**
 * The `LinuxCommandToolkit` class: it shapes the outcome of one child-process
 * run into a result record, keeps the records of completed runs in its
 * `history`, builds the argument vectors of `ls`, `mkdir` and `touch`, and
 * attaches a stripped `summary` to the results of `whoami` and `pwd`.
 *
 * Running a program is not modelled: each operation takes the `Outcome`
 * that the operating system would have produced as a parameter.
 */
module Toolkit {
  import opened Wrappers
  import Text
  import Octal

  /** What `subprocess.run` with a 30-second timeout ends in. */
  datatype Outcome =
    | Completed(returncode: int, stdout: string, stderr: string)  // the child exited, with any status
    | TimedOut                                                    // `subprocess.TimeoutExpired`
    | Failed(message: string)                                     // any other exception, as `str(e)`

  datatype SummaryKey = Username | CurrentDirectory

  /** The one-entry `summary` dictionary, `{'username': …}` or `{'current_directory': …}`. */
  datatype Summary = Summary(key: SummaryKey, value: string)

  /**
   * The result dictionary.  A completed run has the keys `command`,
   * `returncode`, `stdout`, `stderr`, `success` (and `summary` once
   * attached); `stdout` and `stderr` are `None` when output is not captured.
   * A timeout or an exception has only `command`, `error` and `success`.
   */
  datatype ExecutionResult =
    | Ran(command: string, returncode: int, stdout: Option<string>, stderr: Option<string>,
          success: bool, summary: Option<Summary>)
    | Errored(command: string, error: string, success: bool)

  const TimeoutMessage: string := "Command timed out (>30 seconds)"

  /** The record `_execute_command` returns for `command` when the run ends in `outcome`. */
  function Shape(command: seq<string>, outcome: Outcome, captureOutput: bool): (r: ExecutionResult)
    ensures r.command == Text.Join(command)
    ensures r.Ran? <==> outcome.Completed?
    ensures r.success <==> outcome.Completed? && outcome.returncode == 0
    ensures r.Errored? ==> !r.success
    ensures outcome.Completed? ==>
              && r.returncode == outcome.returncode
              && r.stdout == (if captureOutput then Some(outcome.stdout) else None)
              && r.stderr == (if captureOutput then Some(outcome.stderr) else None)
              && r.summary == None
    ensures outcome.TimedOut? ==> r.error == TimeoutMessage
    ensures outcome.Failed? ==> r.error == outcome.message
  {
    var line := Text.Join(command);
    match outcome
    case Completed(code, out, err) =>
      Ran(line, code, if captureOutput then Some(out) else None,
          if captureOutput then Some(err) else None, code == 0, None)
    case TimedOut => Errored(line, TimeoutMessage, false)
    case Failed(msg) => Errored(line, msg, false)
  }

  /**
   * How a caller reads a captured result: an exit code means the program
   * ran; without one, the error text tells a timeout from another failure.
   */
  function Classify(r: ExecutionResult): Outcome
  {
    match r
    case Ran(_, code, out, err, _, _) =>
      Completed(code, out.GetOr(""), err.GetOr(""))
    case Errored(_, msg, _) => if msg == TimeoutMessage then TimedOut else Failed(msg)
  }

  /**
   * With output captured, the record determines the outcome, except for an
   * exception whose message is the timeout text itself.
   */
  lemma ClassifyShape(command: seq<string>, outcome: Outcome)
    requires outcome != Failed(TimeoutMessage)
    ensures Classify(Shape(command, outcome, true)) == outcome
  {
  }

  /** An exception whose message is the timeout text looks exactly like a timeout. */
  lemma TimeoutTextAmbiguous(command: seq<string>, captureOutput: bool)
    ensures Shape(command, Failed(TimeoutMessage), captureOutput) == Shape(command, TimedOut, captureOutput)
  {
  }

  /** The arguments between the program name and the final positional argument. */
  function Flags(argv: seq<string>): seq<string>
    requires |argv| >= 2
  {
    argv[1..|argv| - 1]
  }

  /** The one-element list `[flag]` when `present` holds, else nothing: a conditional `append`. */
  function FlagIf(present: bool, flag: string): seq<string>
  {
    if present then [flag] else []
  }

  // ----- ls -----

  /** The flag `ls` adds for `sort_by`; `None` and `''` are falsy, unknown keys add nothing. */
  function SortFlag(sortBy: Option<string>): (flag: Option<string>)
    ensures flag == Some("-X") <==> sortBy == Some("name")
    ensures flag == Some("-S") <==> sortBy == Some("size")
    ensures flag == Some("-t") <==> sortBy == Some("time")
    ensures flag.Some? <==> sortBy in {Some("name"), Some("size"), Some("time")}
  {
    if sortBy.None? || sortBy.value == "" then None
    else if sortBy.value == "name" then Some("-X")
    else if sortBy.value == "size" then Some("-S")
    else if sortBy.value == "time" then Some("-t")
    else None
  }

  /** The position of an `ls` flag in the vector: `-l` first, `-a` next, the sort flag last. */
  function LsRank(flag: string): nat
  {
    if flag == "-l" then 0 else if flag == "-a" then 1 else 2
  }

  /** The argument vector `ls(path, long_format, all_files, sort_by)` runs. */
  function LsCommand(path: string, longFormat: bool, allFiles: bool, sortBy: Option<string>): (argv: seq<string>)
    ensures 2 <= |argv| <= 5
    ensures argv[0] == "ls" && argv[|argv| - 1] == path
    ensures Flags(argv) == LsFlags(longFormat, allFiles, sortBy)
  {
    var argv := ["ls"] + FlagIf(longFormat, "-l") + FlagIf(allFiles, "-a") + LsSortFlags(sortBy) + [path];
    LsFlagsInOrder(longFormat, allFiles, sortBy);
    assert Flags(argv) == FlagIf(longFormat, "-l") + FlagIf(allFiles, "-a") + LsSortFlags(sortBy);
    argv
  }

  /** The options of an `ls` vector, in the order the source appends them. */
  function LsFlags(longFormat: bool, allFiles: bool, sortBy: Option<string>): (flags: seq<string>)
    ensures |flags| <= 3
    ensures "-l" in flags <==> longFormat
    ensures "-a" in flags <==> allFiles
    ensures SortFlag(sortBy).Some? ==> SortFlag(sortBy).value in flags
    ensures forall f :: f in flags ==> f == "-l" || f == "-a" || Some(f) == SortFlag(sortBy)
    ensures forall i :: 0 <= i < |flags| - 1 ==> LsRank(flags[i]) < LsRank(flags[i + 1])
  {
    var rest := LsFlagsAfterLong(allFiles, sortBy);
    if longFormat then ["-l"] + rest else rest
  }

  /** The `ls` options that follow `-l`: `-a`, then the sort flag. */
  function LsFlagsAfterLong(allFiles: bool, sortBy: Option<string>): (flags: seq<string>)
    ensures |flags| <= 2 && "-l" !in flags
    ensures "-a" in flags <==> allFiles
    ensures SortFlag(sortBy).Some? ==> SortFlag(sortBy).value in flags
    ensures forall f :: f in flags ==> f == "-a" || Some(f) == SortFlag(sortBy)
    ensures forall i :: 0 <= i < |flags| ==> LsRank(flags[i]) >= 1
    ensures forall i :: 0 <= i < |flags| - 1 ==> LsRank(flags[i]) < LsRank(flags[i + 1])
  {
    var sortFlags := LsSortFlags(sortBy);
    if allFiles then ["-a"] + sortFlags else sortFlags
  }

  /** The sort flag of an `ls` vector, if any. */
  function LsSortFlags(sortBy: Option<string>): (flags: seq<string>)
    ensures |flags| <= 1 && "-l" !in flags && "-a" !in flags
    ensures SortFlag(sortBy).Some? ==> SortFlag(sortBy).value in flags
    ensures forall i :: 0 <= i < |flags| ==> Some(flags[i]) == SortFlag(sortBy) && LsRank(flags[i]) == 2
  {
    match SortFlag(sortBy)
    case Some(f) => [f]
    case None => []
  }

  /** The layered definition of the `ls` options lists them in the order the source appends them. */
  lemma LsFlagsInOrder(longFormat: bool, allFiles: bool, sortBy: Option<string>)
    ensures LsFlags(longFormat, allFiles, sortBy)
            == FlagIf(longFormat, "-l") + FlagIf(allFiles, "-a") + LsSortFlags(sortBy)
  {
  }

  // ----- mkdir -----

  /** The `-m` argument for permission bits `mode`, as the f-string `f'-m{mode:o}'` renders it. */
  function ModeFlag(mode: int): (flag: string)
    ensures |flag| >= 3 && flag[..2] == "-m"
  {
    "-m" + Octal.Format(mode)
  }

  /** The digits after `-m` are an octal numeral that reads back to the mode. */
  lemma ModeFlagReadsBack(mode: int)
    ensures Octal.IsNumeral(ModeFlag(mode)[2..]) && Octal.Parse(ModeFlag(mode)[2..]) == mode
  {
    assert ModeFlag(mode)[2..] == Octal.Format(mode);
    Octal.ParseFormat(mode);
  }

  /** The position of a `mkdir` flag in the vector: `-p` first, `-v` next, the mode last. */
  function MkdirRank(flag: string): nat
  {
    if flag == "-p" then 0 else if flag == "-v" then 1 else 2
  }

  /** The argument vector `mkdir(dir_name, parents, verbose, mode)` runs. */
  function MkdirCommand(dirName: string, parents: bool, verbose: bool, mode: Option<int>): (argv: seq<string>)
    ensures 2 <= |argv| <= 5
    ensures argv[0] == "mkdir" && argv[|argv| - 1] == dirName
    ensures Flags(argv) == MkdirFlags(parents, verbose, mode)
  {
    var argv := ["mkdir"] + FlagIf(parents, "-p") + FlagIf(verbose, "-v") + MkdirModeFlags(mode) + [dirName];
    MkdirFlagsInOrder(parents, verbose, mode);
    assert Flags(argv) == FlagIf(parents, "-p") + FlagIf(verbose, "-v") + MkdirModeFlags(mode);
    argv
  }

  /** The options of a `mkdir` vector, in the order the source appends them. */
  function MkdirFlags(parents: bool, verbose: bool, mode: Option<int>): (flags: seq<string>)
    ensures |flags| <= 3
    ensures "-p" in flags <==> parents
    ensures "-v" in flags <==> verbose
    ensures mode.Some? ==> ModeFlag(mode.value) in flags
    ensures forall f :: f in flags ==> f == "-p" || f == "-v" || (mode.Some? && f == ModeFlag(mode.value))
    ensures forall i :: 0 <= i < |flags| - 1 ==> MkdirRank(flags[i]) < MkdirRank(flags[i + 1])
  {
    var rest := MkdirFlagsAfterParents(verbose, mode);
    if parents then ["-p"] + rest else rest
  }

  /** The `mkdir` options that follow `-p`: `-v`, then the mode. */
  function MkdirFlagsAfterParents(verbose: bool, mode: Option<int>): (flags: seq<string>)
    ensures |flags| <= 2 && "-p" !in flags
    ensures "-v" in flags <==> verbose
    ensures mode.Some? ==> ModeFlag(mode.value) in flags
    ensures forall f :: f in flags ==> f == "-v" || (mode.Some? && f == ModeFlag(mode.value))
    ensures forall i :: 0 <= i < |flags| ==> MkdirRank(flags[i]) >= 1
    ensures forall i :: 0 <= i < |flags| - 1 ==> MkdirRank(flags[i]) < MkdirRank(flags[i + 1])
  {
    var modeFlags := MkdirModeFlags(mode);
    if verbose then ["-v"] + modeFlags else modeFlags
  }

  /** The mode flag of a `mkdir` vector, if a mode is given. */
  function MkdirModeFlags(mode: Option<int>): (flags: seq<string>)
    ensures |flags| <= 1 && "-p" !in flags && "-v" !in flags
    ensures mode.Some? ==> ModeFlag(mode.value) in flags
    ensures forall i :: 0 <= i < |flags| ==> mode.Some? && flags[i] == ModeFlag(mode.value) && MkdirRank(flags[i]) == 2
  {
    match mode
    case Some(m) =>
      assert ModeFlag(m)[1] == 'm';
      [ModeFlag(m)]
    case None => []
  }

  /** The layered definition of the `mkdir` options lists them in the order the source appends them. */
  lemma MkdirFlagsInOrder(parents: bool, verbose: bool, mode: Option<int>)
    ensures MkdirFlags(parents, verbose, mode)
            == FlagIf(parents, "-p") + FlagIf(verbose, "-v") + MkdirModeFlags(mode)
  {
  }

  /** Any flag of a `mkdir` vector that starts with `-m` carries the mode, in octal digits that read back to it. */
  lemma MkdirModeReadsBack(dirName: string, parents: bool, verbose: bool, mode: Option<int>, i: nat)
    requires var argv := MkdirCommand(dirName, parents, verbose, mode);
             i < |Flags(argv)| && |Flags(argv)[i]| >= 2 && Flags(argv)[i][..2] == "-m"
    ensures mode.Some?
    ensures var flag := Flags(MkdirCommand(dirName, parents, verbose, mode))[i];
            Octal.IsNumeral(flag[2..]) && Octal.Parse(flag[2..]) == mode.value
  {
    var flags := MkdirFlags(parents, verbose, mode);
    var flag := flags[i];
    assert flag[1] == flag[..2][1] == 'm';
    assert flag in flags;
    assert mode.Some? && flag == ModeFlag(mode.value);
    ModeFlagReadsBack(mode.value);
  }

  /** `mkdir('foo', parents=True, mode=0o755)` runs `mkdir -p -m755 foo` (0o755 is 493). */
  lemma MkdirExample()
    ensures MkdirCommand("foo", true, false, Some(493)) == ["mkdir", "-p", "-m755", "foo"]
  {
    assert Octal.NatDigits(493) == "755" by {
      assert Octal.NatDigits(7) == "7";
      assert Octal.NatDigits(61) == "75";
    }
    assert ModeFlag(493) == "-m755";
    assert MkdirFlags(true, false, Some(493)) == ["-p", "-m755"];
  }

  // ----- touch -----

  /** The position of a `touch` flag in the vector: `-c` before `-v`. */
  function TouchRank(flag: string): nat
  {
    if flag == "-c" then 0 else 1
  }

  /** The argument vector `touch(file_name, create_new, verbose)` runs. */
  function TouchCommand(fileName: string, createNew: bool, verbose: bool): (argv: seq<string>)
    ensures 2 <= |argv| <= 4
    ensures argv[0] == "touch" && argv[|argv| - 1] == fileName
    ensures "-c" in Flags(argv) <==> createNew
    ensures "-v" in Flags(argv) <==> verbose
    ensures forall f :: f in Flags(argv) ==> f == "-c" || f == "-v"
    ensures forall i, j :: 0 <= i < j < |Flags(argv)| ==> TouchRank(Flags(argv)[i]) < TouchRank(Flags(argv)[j])
  {
    var argv := ["touch"] + FlagIf(createNew, "-c") + FlagIf(verbose, "-v") + [fileName];
    assert Flags(argv) == FlagIf(createNew, "-c") + FlagIf(verbose, "-v");
    argv
  }

  // ----- summaries -----

  /**
   * What `who_am_i` and `pwd` do to a result: on success, add `summary`
   * holding the stripped standard output under `key`; otherwise nothing.
   */
  function AttachSummary(r: ExecutionResult, key: SummaryKey): (r': ExecutionResult)
    requires r.Errored? ==> !r.success
    requires r.Ran? && r.success ==> r.stdout.Some?
    ensures !r.success ==> r' == r
    ensures r.success ==> r'.Ran? && r' == r.(summary := r'.summary)
    ensures r.success ==> r'.summary == Some(Summary(key, Text.Strip(r.stdout.value)))
  {
    if r.success then r.(summary := Some(Summary(key, Text.Strip(r.stdout.value)))) else r
  }

  class LinuxCommandToolkit {
    /** The records of the runs that completed, oldest first. */
    var history: seq<ExecutionResult>

    /** Only completed runs are logged, so every entry carries an exit code. */
    ghost predicate Valid()
      reads this
    {
      forall i :: 0 <= i < |history| ==> history[i].Ran?
    }

    constructor ()
      ensures Valid() && history == []
    {
      history := [];
    }

    /**
     * `_execute_command`: shapes the outcome into a record; only a completed
     * run, whatever its exit code, is appended to `history`.
     */
    method ExecuteCommand(command: seq<string>, outcome: Outcome, captureOutput: bool := true)
        returns (r: ExecutionResult)
      requires Valid()
      modifies this
      ensures Valid()
      ensures r == Shape(command, outcome, captureOutput)
      ensures history == if outcome.Completed? then old(history) + [r] else old(history)
    {
      var line := Text.Join(command);
      match outcome {
        case Completed(code, out, err) =>
          r := Ran(line, code, if captureOutput then Some(out) else None,
                   if captureOutput then Some(err) else None, code == 0, None);
          history := history + [r];
        case TimedOut =>
          r := Errored(line, TimeoutMessage, false);
        case Failed(msg) =>
          r := Errored(line, msg, false);
      }
    }

    /**
     * Runs `program` and, on success, attaches its stripped output under
     * `key`.  The record in `history` is the same dictionary as the one
     * returned, so the logged entry gains the summary too.
     */
    method RunWithSummary(program: string, key: SummaryKey, outcome: Outcome) returns (r: ExecutionResult)
      requires Valid()
      modifies this
      ensures Valid()
      ensures r == AttachSummary(Shape([program], outcome, true), key)
      ensures history == if outcome.Completed? then old(history) + [r] else old(history)
    {
      r := ExecuteCommand([program], outcome);
      if r.success {
        r := r.(summary := Some(Summary(key, Text.Strip(r.stdout.value))));
        history := history[|history| - 1 := r];
      }
    }

    /** `who_am_i`. */
    method WhoAmI(outcome: Outcome) returns (r: ExecutionResult)
      requires Valid()
      modifies this
      ensures Valid()
      ensures r == AttachSummary(Shape(["whoami"], outcome, true), Username)
      ensures history == if outcome.Completed? then old(history) + [r] else old(history)
    {
      r := RunWithSummary("whoami", Username, outcome);
    }

    /** `pwd`. */
    method Pwd(outcome: Outcome) returns (r: ExecutionResult)
      requires Valid()
      modifies this
      ensures Valid()
      ensures r == AttachSummary(Shape(["pwd"], outcome, true), CurrentDirectory)
      ensures history == if outcome.Completed? then old(history) + [r] else old(history)
    {
      r := RunWithSummary("pwd", CurrentDirectory, outcome);
    }

    /** `ls`: builds the vector flag by flag and runs it. */
    method Ls(outcome: Outcome, path: string := ".", longFormat: bool := false,
              allFiles: bool := false, sortBy: Option<string> := None)
        returns (r: ExecutionResult)
      requires Valid()
      modifies this
      ensures Valid()
      ensures r == Shape(LsCommand(path, longFormat, allFiles, sortBy), outcome, true)
      ensures history == if outcome.Completed? then old(history) + [r] else old(history)
    {
      var command := ["ls"];
      if longFormat {
        command := command + ["-l"];
      }
      assert command == ["ls"] + FlagIf(longFormat, "-l");
      if allFiles {
        command := command + ["-a"];
      }
      assert command == ["ls"] + FlagIf(longFormat, "-l") + FlagIf(allFiles, "-a");
      ghost var before := command;
      if sortBy.Some? && sortBy.value != "" {
        if sortBy.value == "name" {
          command := command + ["-X"];
        } else if sortBy.value == "size" {
          command := command + ["-S"];
        } else if sortBy.value == "time" {
          command := command + ["-t"];
        }
      }
      assert command == before + LsSortFlags(sortBy);
      command := command + [path];
      r := ExecuteCommand(command, outcome);
    }

    /** `mkdir`: builds the vector flag by flag and runs it. */
    method Mkdir(outcome: Outcome, dirName: string, parents: bool := false,
                 verbose: bool := false, mode: Option<int> := None)
        returns (r: ExecutionResult)
      requires Valid()
      modifies this
      ensures Valid()
      ensures r == Shape(MkdirCommand(dirName, parents, verbose, mode), outcome, true)
      ensures history == if outcome.Completed? then old(history) + [r] else old(history)
    {
      var command := ["mkdir"];
      if parents {
        command := command + ["-p"];
      }
      assert command == ["mkdir"] + FlagIf(parents, "-p");
      if verbose {
        command := command + ["-v"];
      }
      assert command == ["mkdir"] + FlagIf(parents, "-p") + FlagIf(verbose, "-v");
      ghost var before := command;
      if mode.Some? {
        command := command + ["-m" + Octal.Format(mode.value)];
      }
      assert command == before + MkdirModeFlags(mode);
      command := command + [dirName];
      r := ExecuteCommand(command, outcome);
    }

    /** `touch`: builds the vector flag by flag and runs it. */
    method Touch(outcome: Outcome, fileName: string, createNew: bool := false, verbose: bool := false)
        returns (r: ExecutionResult)
      requires Valid()
      modifies this
      ensures Valid()
      ensures r == Shape(TouchCommand(fileName, createNew, verbose), outcome, true)
      ensures history == if outcome.Completed? then old(history) + [r] else old(history)
    {
      var command := ["touch"];
      if createNew {
        command := command + ["-c"];
      }
      assert command == ["touch"] + FlagIf(createNew, "-c");
      if verbose {
        command := command + ["-v"];
      }
      assert command == ["touch"] + FlagIf(createNew, "-c") + FlagIf(verbose, "-v");
      command := command + [fileName];
      r := ExecuteCommand(command, outcome);
    }
  }
}
