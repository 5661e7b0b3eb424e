# paramiko-unix-utils: the command runner of `main.py`, modelled in Dafny

`main.py` runs a Unix command over SSH and reads its output. A generator,
`exec_command_stream_output`, reads the two channels of the remote command
in lock-step, one `readline()` on stdout and then one on stderr per round.
It yields each non-empty line stripped and flagged with its channel, and it
stops at the first round where both reads are empty or once `max_lines`
rounds have run.

`Command.execute` builds the command line by joining the executable and its
arguments with spaces. It numbers the yielded lines and hands each one to
`handle_stdout_line` or `handle_stderr_line`.

- `StderrCachingCommand` caches the stderr lines in `stderr_lines`.
- `Df` runs `df`. The first stderr line that holds a path
  `/run/user/<digits>/doc` sets a one-way latch. From then on, every stderr
  line goes to `handle_stdout_line` instead of the cache.

The project has five modules:

- `Text` (`text.dfy`): Python's `str.strip()` over the `isspace` characters,
  and `' '.join` with its inverse, splitting at single spaces.
- `Reader` (`reader.dfy`): the generator. The function `Merged` defines what
  it yields, and the method `ReadMerged` is its loop, proved against
  `Merged`. The reference definition `Interleave` lists the rounds with no
  stopping rule. The lemmas cover:
  - where the loop stops;
  - the bound;
  - completeness: each channel is recovered, stripped and in order;
  - silent truncation.
- `RunUserDoc` (`run_user_doc.dfy`): the one regular expression,
  `/run/user/(\d+)/doc`, with Python's `search`. It is a hand-written
  matcher, proved equal to a declarative definition of a match.
- `Handlers` (`handlers.dfy`): the handlers as pure functions of their
  state. This covers the stderr cache, the `Df` latch and a log of the calls
  that reach `handle_stdout_line`. It also defines the calls `execute` makes
  (`Dispatch`) and a whole run of those calls (`Run`), which stops at the
  first `NotImplementedError`.
- `Commands` (`commands.dfy`): the command line, and the class `Command`.
  Each instance is a `StderrCachingCommand` or a `Df`, according to the
  field `kind`. Its fields are updated in place by the handler methods and
  by `Execute`. Each method is proved against the functions of `Handlers`.

The SSH session is the parameter `session`, a function from the command line
to the lines the two channels deliver (`Channels`). A channel is a sequence
of non-empty lines: `readline()` returns "" only at the end of the stream.

The two abstract hooks of `Command` (main.py:51-57) are reached through
`super()` by both handlers of `StderrCachingCommand`. What they do is the
parameter `hooks`:

- `Raise` is the code as written: they raise `NotImplementedError`.
- `Return` is what the subclasses evidently expect: they return.

Both behaviours are modelled and proved; see "## Findings".

The stderr counter of `execute` is incremented by `+= 0` (main.py:68), so
every stderr line is handed over with line number 0. The model keeps that.
Nothing in `main.py` says whether a counter that never moves is intended.

## Model

| member | source | states |
|---|---|---|
| Text.Strip | main.py:34-37 | definition: `str.strip()` without an argument (no contract of its own; see the three rows below) |
| Text.Join | main.py:49 | definition: `' '.join(pieces)` (no contract of its own; see `Text.JoinSplit` and `Text.SplitJoin`) |
| Text.StripSpec | main.py:34-37 | `strip()` yields the part of the line between its leading and trailing whitespace: nothing but whitespace is removed, and the result neither starts nor ends with whitespace |
| Text.StripIdempotent | main.py:34-37 | stripping an already stripped line changes nothing |
| Text.StripEmptyIff | main.py:34-37 | a line strips to "" exactly when it is all whitespace |
| Text.JoinSplit | main.py:46-49 | joining the space-separated pieces of a string gives the string back |
| Text.SplitJoin | main.py:46-49 | splitting a space-join of space-free pieces at spaces gives the pieces back |
| Reader.Merged | main.py:14-37 | definition: every line the generator yields, with its channel flag (no contract of its own; see the rows below) |
| Reader.RoundsStop | main.py:23-31 | the loop runs exactly as many rounds as it takes to reach the first round that reads "" on both channels or passes the positive bound, and every earlier round reads something |
| Reader.RoundsUnique | main.py:23-31 | the stopping round is unique: any `n` that meets the stopping rule is the number of rounds run |
| Reader.ReadsIsInterleave | main.py:23-37 | what the generator reads is the round-by-round interleaving of the two channels (stdout before stderr, empty reads skipped), up to the stopping round |
| Reader.MergedBound | main.py:23-25 | with `max_lines > 0`, at most `max_lines` rounds run and at most `2*max_lines` lines are yielded |
| Reader.RoundsWellFormed | main.py:23-31 | on channels of non-empty lines, the rounds run are the length of the longer channel, capped by a positive bound |
| Reader.TextsPartition | main.py:33-37 | every yielded line is flagged stdout or stderr, so the two channels' lines together are all the output |
| Reader.MergedCompleteness | main.py:23-37 | the stdout-flagged texts are the first `n` stdout lines stripped, in order, and likewise for stderr, where `n` is the number of rounds run; nothing else is yielded |
| Reader.MergedUntruncated | main.py:23-37 | when the bound does not cut the output, the stdout-flagged texts are all stdout lines stripped and the stderr-flagged texts all stderr lines stripped |
| Reader.TruncationSilent | main.py:23-25 | with a positive bound the output is exactly that of the channels cut to `max_lines` lines, read without a bound: truncation adds no marker |
| Reader.YieldRound | main.py:33-37 | the two conditional yields of one round append exactly the round's events (the stdout read, then the stderr read, each only when non-empty), stripped |
| Reader.ReadMerged | main.py:14-37 | the generator's loop yields exactly `Merged`, the interleaving cut at the stopping round, each line stripped |
| RunUserDoc.ContainsDocPath | main.py:94-102 | definition: `run_user_regex.search(line)` is truthy (no contract of its own; see `RunUserDoc.SearchCorrect`) |
| RunUserDoc.DigitsEndSpec | main.py:94 | the digit scan ends at the first non-digit, and everything it passes is an ASCII digit |
| RunUserDoc.MatchAtSpec | main.py:94 | the matcher succeeds at index `i` exactly when `/run/user/`, one or more digits and `/doc` start at `i` |
| RunUserDoc.SearchFromSpec | main.py:102 | the search from index `i` succeeds exactly when the pattern occurs at or after `i` |
| RunUserDoc.SearchCorrect | main.py:94-102 | `run_user_regex.search(line)` is truthy exactly when the pattern occurs somewhere in the line |
| RunUserDoc.PathInLineMatches | main.py:94-102 | any line containing `/run/user/<digits>/doc`, whatever surrounds it, matches |
| Handlers.HandleStdout | main.py:81-82 | definition: `StderrCachingCommand.handle_stdout_line` on the handlers' state (no contract of its own; see `Commands.Command.HandleStdoutLine`) |
| Handlers.CacheStderr | main.py:84-86 | definition: `StderrCachingCommand.handle_stderr_line` on the handlers' state (no contract of its own; see `Handlers.CachingRun`) |
| Handlers.HandleStderr | main.py:84-108 | definition: `handle_stderr_line` of a `StderrCachingCommand` or of a `Df` (no contract of its own; see `Handlers.DiskFreeRun`) |
| Handlers.Dispatch | main.py:60-72 | definition: the handler calls `execute` makes for the yielded lines (no contract of its own; see the three rows below) |
| Handlers.Run | main.py:66-72 | definition: the handler calls made in order, ending at the first `NotImplementedError` (no contract of its own; see `Handlers.RunStops`) |
| Handlers.DispatchNumbering | main.py:60-72 | `execute` makes one call per yielded line, in order; a stdout line goes to `handle_stdout_line` with its stdout position, a stderr line to `handle_stderr_line` with number 0 |
| Handlers.DispatchStdout | main.py:60-72 | the stdout calls carry the stdout lines, in order, numbered 1, 2, 3, … |
| Handlers.DispatchStderr | main.py:66-70 | the stderr calls carry exactly the stderr lines, in order |
| Handlers.RunStops | main.py:59-72 | once a handler raises `NotImplementedError` the run ends: later lines change nothing |
| Handlers.DispatchSnoc | main.py:66-72 | the call for one more line comes after the calls for the earlier lines; it goes to the stderr handler with 0, or to the stdout handler with one more than the stdout lines so far |
| Handlers.RunSnoc | main.py:66-72 | one more call continues the run unless an earlier call has raised |
| Handlers.RunRaisesAtFirstCall | main.py:51-57 | as written, the first handler call raises, whichever handler it is, and no line is ever cached |
| Handlers.CachingRun | main.py:75-86 | with returning hooks, a `StderrCachingCommand` appends exactly the stderr lines to `stderr_lines`, in order after the earlier entries, logs exactly the stdout calls, and never raises |
| Handlers.FirstDocPathSpec | main.py:100-103 | the split point is the first stderr line that holds the path, or the end when none does |
| Handlers.DiskFreeRun | main.py:100-108 | with returning hooks, a `Df` caches the stderr lines before the first one holding the path; that line and every later line go to `handle_stdout_line` with their numbers and are never cached; the latch ends up set exactly when it was set or such a line came |
| Handlers.RunGrows | main.py:79-86 | in every run the cache and the stdout log are only extended at the end, the latch is never reset, and a `StderrCachingCommand` never sets it |
| Commands.CommandLine | main.py:46-49 | definition: `build_command` for an executable and its arguments (no contract of its own; see the three rows below) |
| Commands.Command.BuildCommand | main.py:46-49 | definition: `build_command` of the object; it reads only `args`, which it leaves unchanged (no contract of its own) |
| Commands.CommandLineShape | main.py:46-49 | the command line is the executable alone when there are no arguments, otherwise the executable, a space and the arguments joined by single spaces |
| Commands.CommandLineTokens | main.py:46-49 | when no piece holds a space, splitting the command line at spaces gives back the executable and then each argument, in order |
| Commands.NoQuoting | main.py:46-49 | nothing is quoted: an argument holding a space gives the same command line as the two arguments around it |
| Commands.Command.StderrCachingCommand | main.py:42-44 | a new `StderrCachingCommand` has no arguments, an empty cache, the latch down and no stdout calls |
| Commands.Command.Df | main.py:92-95 | a new `Df` runs `df` with no arguments, an empty cache and the latch down |
| Commands.Command.HandleStdoutLine | main.py:81-82 | the call reaches the base hook with its number and line; the cache and the latch are not touched |
| Commands.Command.CacheStderrLine | main.py:84-86 | after the base hook returns, the line is appended to `stderr_lines`; when the hook raises, nothing changes |
| Commands.Command.HandleStderrLine | main.py:100-108 | the handler of the object's class: for a `Df`, a line holding the path sets the latch, and once it is set the line goes to `handle_stdout_line` with its number instead of the cache |
| Commands.Command.Execute | main.py:59-72 | the object's new state and the outcome are those of running the handlers over the calls `Dispatch` makes for what the generator yields, with the default bound of 10000 rounds |
| Commands.Command.DispatchAll | main.py:60-72 | the loop of `execute` leaves the object in the state, and with the outcome, of running the handlers over `Dispatch` of the lines, stopping at the first `NotImplementedError` |
| Commands.Command.HandleEvent | main.py:67-72 | one turn of the loop: a stderr line reaches `handle_stderr_line` with the stderr counter left as it was, a stdout line reaches `handle_stdout_line` with the stdout counter plus one, and only that counter moves |
| Commands.Command.ExecuteStep | main.py:66-72 | handling one more yielded line takes the run one call further, and moves the stdout counter only for a stdout line |
| Commands.Command.ExecuteStops | main.py:59-72 | a raised `NotImplementedError` ends `execute`: the run over all the lines equals the run up to the raising one |
| Commands.ExecuteAsWritten | main.py:51-72 | as written, `execute` raises `NotImplementedError` exactly when the command prints at least one line, and the cache stays empty |
| Commands.ExecuteCachingCorrected | main.py:59-86 | with returning hooks, a `StderrCachingCommand` whose output fits the bound returns normally, caches every stderr line stripped and in order, and keeps the latch down |
| Commands.DfWithoutDocPathIsCaching | main.py:100-108 | when no stderr line holds the path, a `Df` behaves exactly like a `StderrCachingCommand` |

## Findings

| source | as written | input that shows it | evidently intended | confidence | as-written member | corrected member |
|---|---|---|---|---|---|---|
| main.py:51-57, 81-86 | the abstract hooks of `Command` raise `NotImplementedError`, and both handlers of `StderrCachingCommand` call them through `super()`, so `execute` raises at the first line and never caches one | a command printing the single stdout line `x` | the base hooks do nothing and the subclasses' handlers complete | not executed | Commands.ExecuteAsWritten | Commands.ExecuteCachingCorrected |

## Left out

- `SSHClient`, `exec_command` and the blocking reads of paramiko channels (main.py:11, 19-21) are network I/O in a foreign library. The session is the parameter `session`, which maps the command line to the two channels' lines.
- `main()` (main.py:111-126) is credentials, connection, host keys and printing. It also compares the `None` result of `execute` with 0 and reads an attribute `data` that no class defines.
- `Df.parse_line` (main.py:97-98) returns `None` and has nothing to specify.
- Only the one pattern of main.py:94 is modelled, not a regular expression engine. `\d` is taken as the ASCII digits; Python's `\d` also matches other Unicode decimal digits.
- Commands.Command.Execute: the generator is read to the end before the first handler runs. In the source the two alternate, line by line. The calls, their order and their arguments are the same, and so is the state when a handler raises. The model does not capture a failure of the session part-way through the output.
- `stdin` (main.py:19) is never used and is not modelled.
- Real timing of the two channels is not modelled: lines are paired by their position in each channel, as the lock-step reads pair them.
- Commands.Command.HandleStdoutLine: the call log `stdoutCalls` is a ghost field. The source keeps no such record; it stands for what the base hook observes.
- Reusing a command object for a second `execute` is allowed by the model: the contracts relate the state after the call to the state before it. The source does not say whether a command may be reused.
