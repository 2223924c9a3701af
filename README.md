# Linux Command Automation Toolkit — verified model of the command executor

`LinuxCommandToolkit` (LCAT.py) wraps shell utilities: each operation
builds an argument vector from typed options, runs it as a child process
with a 30-second timeout, and normalises the outcome into a result
dictionary. The toolkit keeps a `history` of results. This project models
that core in Dafny:

- `text.dfy` (module `Text`): the command line made from the argument
  vector with Python's `' '.join`, and Python's `str.strip()` over the
  whitespace set of `str.isspace`.
- `octal.dfy` (module `Octal`): the `{mode:o}` conversion used for
  `mkdir -m`, with the reverse reading in base 8.
- `toolkit.dfy` (module `Toolkit`): the child-process `Outcome`
  (`Completed`, `TimedOut`, `Failed`), the result record
  `ExecutionResult` (`Ran` with exit code and output, or `Errored` with an
  error text), the argument-vector builders of `ls`, `mkdir` and `touch`,
  the `summary` step of `who_am_i` and `pwd`, and the class
  `LinuxCommandToolkit` with its `history` field.
- `wrappers.dfy` (module `Wrappers`): `Option`.

The operating system is not modelled. Every operation takes as a parameter
the `Outcome` that `subprocess.run` would have produced.

Two consequences of the code that the model keeps:

- Only a completed run is appended to `history`, whatever its exit code
  (LCAT.py:47); a timeout or another exception returns a record that is
  never logged (LCAT.py:50-63), so `history` does not hold one entry per
  call. `LinuxCommandToolkit.Valid` states the resulting invariant: every
  history entry is a `Ran` record.
- `who_am_i` and `pwd` add `summary` to the dictionary that
  `_execute_command` has already appended to `history` (LCAT.py:71,
  LCAT.py:119). Both refer to the same dictionary, so the logged entry
  gets the summary too. `RunWithSummary` models this by replacing the
  last history entry.
- An exception whose message is exactly `Command timed out (>30 seconds)`
  gives the same record as a real timeout (`TimeoutTextAmbiguous`). Apart
  from that case, a captured record determines the outcome
  (`ClassifyShape`).

## Model

| member | source | states |
|---|---|---|
| Text.Join | LCAT.py:39 | the command line is empty for no parts; otherwise it is as long as all parts together plus one separator between each consecutive pair |
| Text.SplitJoin | LCAT.py:39 | cutting the command line at its spaces gives back a non-empty argument vector, provided no argument contains a space |
| Text.JoinSplit | LCAT.py:39 | every string is the space-join of its space-separated pieces (the other direction of the round trip) |
| Text.AsciiSpaces | LCAT.py:72 | among the ASCII characters, `strip()` removes exactly tab, line feed, vertical tab, form feed, carriage return, the four separator controls and space, the whitespace of `str.isspace` |
| Text.SkipLeft | LCAT.py:72 | the left scan of `strip()` stops at the first non-whitespace character at or after its start, or at the end; everything it skips is whitespace |
| Text.SkipRight | LCAT.py:72 | the right scan of `strip()` stops just after the last non-whitespace character at or after the left stop, or at the left stop; everything it skips is whitespace |
| Text.Strip | LCAT.py:72 | `strip()` gives a contiguous piece of the input with only whitespace before and after it, and that piece neither starts nor ends with whitespace |
| Text.StripUnique | LCAT.py:72 | any piece with whitespace only outside it and no whitespace at its ends is exactly what `strip()` returns |
| Text.StripIdempotent | LCAT.py:120 | stripping a stripped value changes nothing |
| Text.StripEmpty | LCAT.py:120 | the summary is empty exactly when the output is all whitespace |
| Octal.NatDigits | LCAT.py:145 | a non-negative mode renders as a nonempty run of digits `0`..`7` with no leading zero unless it is `0` |
| Octal.Format | LCAT.py:145 | `{mode:o}` of any integer is an octal numeral, with `-` before the digits of a negative number |
| Octal.NatDigitsValue | LCAT.py:145 | the rendered digits read back in base 8 to the number |
| Octal.ParseFormat | LCAT.py:145 | for every integer, reading `{mode:o}` back in base 8 yields the mode |
| Octal.FormatParse | LCAT.py:145 | every canonical octal numeral is the rendering of its value (the reverse direction) |
| Octal.FormatInjective | LCAT.py:145 | different modes render as different `-m` arguments |
| Toolkit.Shape | LCAT.py:38-63 | the record's `command` is the space-join of the argument vector on every path; it has an exit code exactly when the run completed; `success` holds exactly when the run completed with exit code 0; a completed run copies the exit code and, when captured, stdout and stderr unchanged; a timeout carries the fixed timeout text and any other exception its message |
| Toolkit.ClassifyShape | LCAT.py:50-63 | with output captured, the exit code or the error text recovers the outcome, except for an exception whose message is the timeout text |
| Toolkit.TimeoutTextAmbiguous | LCAT.py:50-63 | an exception whose message equals the timeout text yields the same record as a timeout |
| Toolkit.SortFlag | LCAT.py:98-104 | `name` gives `-X`, `size` gives `-S` and `time` gives `-t`, each flag for that key only; `None`, `''` and any other key add nothing |
| Toolkit.LsCommand | LCAT.py:92-106 | the vector starts with `ls`, ends with the path and holds 2 to 5 elements; `-l` is present iff `long_format`, `-a` iff `all_files`; the sort flag is present when there is one; nothing else appears; the order is `-l`, `-a`, sort flag |
| Toolkit.LsFlags | LCAT.py:92-104 | `-l` is present iff `long_format`, `-a` iff `all_files`; the sort flag is present when there is one; nothing else appears; at most three options, in the order `-l`, `-a`, sort flag |
| Toolkit.LsFlagsAfterLong | LCAT.py:94-104 | the options after `-l` never include `-l`; `-a` is present iff `all_files`, followed by the sort flag when there is one |
| Toolkit.LsSortFlags | LCAT.py:96-104 | at most one option, and it is the flag `SortFlag` chooses for the key |
| Toolkit.ModeFlag | LCAT.py:145 | the mode argument starts with `-m` followed by at least one character |
| Toolkit.ModeFlagReadsBack | LCAT.py:144-145 | the characters after `-m` form an octal numeral that reads back to the mode |
| Toolkit.MkdirFlags | LCAT.py:140-145 | `-p` is present iff `parents`, `-v` iff `verbose`; the mode argument is present when `mode` is not None, zero included; nothing else appears; the order is `-p`, `-v`, mode |
| Toolkit.MkdirFlagsAfterParents | LCAT.py:142-145 | the options after `-p` never include `-p`; `-v` is present iff `verbose`, followed by the mode argument when a mode is given |
| Toolkit.MkdirModeFlags | LCAT.py:144-145 | at most one option, present exactly when a mode is given, and it is that mode's `-m` argument, which is neither `-p` nor `-v` |
| Toolkit.MkdirCommand | LCAT.py:139-147 | the vector is `mkdir`, then the options above, then the directory name, so it holds 2 to 5 elements |
| Toolkit.MkdirModeReadsBack | LCAT.py:144-147 | an option of the vector that starts with `-m` exists only when a mode was given, and its digits read back to that mode |
| Toolkit.MkdirExample | LCAT.py:139-147 | `mkdir('foo', parents=True, mode=0o755)` builds `mkdir -p -m755 foo` |
| Toolkit.TouchCommand | LCAT.py:164-170 | the vector starts with `touch`, ends with the file name and holds 2 to 4 elements; `-c` is present iff `create_new`, `-v` iff `verbose`; nothing else appears; `-c` comes before `-v` |
| Toolkit.AttachSummary | LCAT.py:70-73 | a failed result is returned unchanged; a successful one gains a `summary` with the given key whose value is the stripped stdout, and every other field stays the same |
| Toolkit.LinuxCommandToolkit.constructor | LCAT.py:14-16 | a new toolkit starts with an empty history |
| Toolkit.LinuxCommandToolkit.ExecuteCommand | LCAT.py:19-63 | returns the shaped record; a completed run adds exactly one entry, that record, to the end of history, leaving earlier entries unchanged; a timeout or exception leaves history unchanged |
| Toolkit.LinuxCommandToolkit.RunWithSummary | LCAT.py:68-75 | runs a one-word command and attaches the summary on success; the logged entry is the returned record, summary included |
| Toolkit.LinuxCommandToolkit.WhoAmI | LCAT.py:65-75 | `whoami`, with the stripped username attached under `username` on success; history as for `_execute_command` |
| Toolkit.LinuxCommandToolkit.Pwd | LCAT.py:109-122 | `pwd`, with the stripped directory attached under `current_directory` on success; history as for `_execute_command` |
| Toolkit.LinuxCommandToolkit.Ls | LCAT.py:77-107 | builds the vector by successive appends and runs it; vector and history are as stated for `LsCommand` and `ExecuteCommand` |
| Toolkit.LinuxCommandToolkit.Mkdir | LCAT.py:124-148 | builds the vector by successive appends and runs it; vector and history are as stated for `MkdirCommand` and `ExecuteCommand` |
| Toolkit.LinuxCommandToolkit.Touch | LCAT.py:150-171 | builds the vector by successive appends and runs it; vector and history are as stated for `TouchCommand` and `ExecuteCommand` |

## Left out

- Spawning the child process (`subprocess.run`), the wall-clock 30-second timeout and the decoding of child output into text are operating-system I/O. They are replaced by the `Outcome` parameter of every operation.
- With `capture_output=False`, the record holds `None` for stdout and stderr. The model covers that record, but not the child writing to the parent's own terminal.
- Concurrent use of the unsynchronised `history` list is not modelled; the model is sequential.
- The imports of `os`, `sys`, `re`, `json` and `datetime` are unused, and the timestamp field is commented out. Neither is modelled.
- The other operations of the toolkit (remove, change mode, change owner, processes, signals, top, free, grep, find, change directory) are not part of this model.
- Python's dynamic typing is not modelled. Options are typed as `bool`, `Option<string>` and `Option<int>`, so a truthy non-string `sort_by` or a non-integer `mode` has no counterpart.
- `who_am_i` and `pwd` always capture output. `AttachSummary` therefore requires a successful `Ran` record to carry stdout; the `None.strip()` failure it rules out cannot happen on those paths.
