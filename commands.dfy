/** The command classes of main.py (lines 40-108): `Command`,
    `StderrCachingCommand` and `Df`, as one class whose `kind` says which of
    the two concrete classes an object is, and the command line they run. */
module Commands {
  import opened Text
  import opened Reader
  import opened RunUserDoc
  import opened Handlers

  /** `build_command` (main.py:46-49): the executable, then the arguments,
      separated by single spaces. */
  function CommandLine(executable: string, args: seq<string>): string {
    Join([executable] + args)
  }

  /** With no arguments the command line is the executable alone; otherwise
      the executable, a space and the arguments joined by spaces. */
  lemma CommandLineShape(executable: string, args: seq<string>)
    ensures CommandLine(executable, args) ==
      if args == [] then executable else executable + " " + Join(args)
  {
    assert ([executable] + args)[1..] == args;
  }

  /** When no piece holds a space, the remote side splitting the command line
      at spaces recovers the executable and every argument, in order. */
  lemma CommandLineTokens(executable: string, args: seq<string>)
    requires NoSpace(executable)
    requires forall k :: 0 <= k < |args| ==> NoSpace(args[k])
    ensures Split(CommandLine(executable, args)) == [executable] + args
  {
    var pieces := [executable] + args;
    assert forall k :: 0 <= k < |pieces| ==> NoSpace(pieces[k]) by {
      forall k | 0 <= k < |pieces| ensures NoSpace(pieces[k]) {
        if k > 0 {
          assert pieces[k] == args[k - 1];
        }
      }
    }
    SplitJoin(pieces);
  }

  /** Nothing is quoted: an argument holding a space gives the same command
      line as the two arguments on either side of it. */
  lemma NoQuoting(executable: string, left: string, right: string)
    ensures CommandLine(executable, [left + " " + right]) == CommandLine(executable, [left, right])
  {
    CommandLineShape(executable, [left + " " + right]);
    CommandLineShape(executable, [left, right]);
    assert [left, right][1..] == [right];
  }

  /** What the remote side returns for a command line: the lines the command
      writes to stdout and to stderr. */
  datatype Channels = Channels(stdout: seq<string>, stderr: seq<string>)

  /** `StderrCachingCommand` or `Df`. `hooks` stands for the base class's two
      abstract handlers, which both of them reach through `super()`. */
  class Command {
    const kind: Kind
    const hooks: BaseHooks
    const executable: string
    var args: seq<string>
    var stderrLines: seq<string>
    /** Only a `Df` has this latch; for a `StderrCachingCommand` it stays false. */
    var treatStderrAsStdout: bool
    /** Every call that has reached `handle_stdout_line`. */
    ghost var stdoutCalls: seq<Numbered>

    ghost function Snapshot(): State
      reads this
    {
      State(stderrLines, treatStderrAsStdout, stdoutCalls)
    }

    /** `StderrCachingCommand(executable)` (main.py:42-44, 77-79). */
    constructor StderrCachingCommand(executable: string, hooks: BaseHooks)
      ensures kind == Kind.StderrCaching && this.hooks == hooks && this.executable == executable
      ensures args == [] && Snapshot() == Initial
    {
      kind := Kind.StderrCaching;
      this.hooks := hooks;
      this.executable := executable;
      args := [];
      stderrLines := [];
      treatStderrAsStdout := false;
      stdoutCalls := [];
    }

    /** `Df()` (main.py:92-95): runs `df` with no arguments, latch down. */
    constructor Df(hooks: BaseHooks)
      ensures kind == Kind.DiskFree && this.hooks == hooks && executable == "df"
      ensures args == [] && Snapshot() == Initial
    {
      kind := Kind.DiskFree;
      this.hooks := hooks;
      executable := "df";
      args := [];
      stderrLines := [];
      treatStderrAsStdout := false;
      stdoutCalls := [];
    }

    /** `build_command` (main.py:46-49); it reads `args` and leaves it as it is. */
    function BuildCommand(): string
      reads this`args
    {
      CommandLine(executable, args)
    }

    /** `StderrCachingCommand.handle_stdout_line` (main.py:81-82). */
    method HandleStdoutLine(lineNumber: int, line: string) returns (outcome: Outcome)
      modifies this`stdoutCalls
      ensures Reply(outcome, Snapshot()) == HandleStdout(hooks, old(Snapshot()), lineNumber, line)
    {
      stdoutCalls := stdoutCalls + [Numbered(lineNumber, line)];
      outcome := BaseHook(hooks);
    }

    /** `StderrCachingCommand.handle_stderr_line` (main.py:84-86). */
    method CacheStderrLine(line: string) returns (outcome: Outcome)
      modifies this`stderrLines
      ensures Reply(outcome, Snapshot()) == CacheStderr(hooks, old(Snapshot()), line)
    {
      outcome := BaseHook(hooks);
      if outcome == NotImplemented {
        return;
      }
      stderrLines := stderrLines + [line];
    }

    /** `handle_stderr_line` of the object's class: `StderrCachingCommand`'s,
        or `Df`'s (main.py:100-108). */
    method HandleStderrLine(lineNumber: int, line: string) returns (outcome: Outcome)
      modifies this`stderrLines, this`treatStderrAsStdout, this`stdoutCalls
      ensures Reply(outcome, Snapshot()) == HandleStderr(kind, hooks, old(Snapshot()), lineNumber, line)
    {
      if kind == Kind.StderrCaching {
        outcome := CacheStderrLine(line);
        return;
      }
      if !treatStderrAsStdout {
        if ContainsDocPath(line) {
          treatStderrAsStdout := true;
        }
      }
      if treatStderrAsStdout {
        outcome := HandleStdoutLine(lineNumber, line);
        return;
      }
      outcome := CacheStderrLine(line);
    }

    /** `execute` (main.py:59-72): run the command line, read the merged
        output with the default bound, and hand each line to its handler;
        a `NotImplementedError` ends it. */
    method Execute(session: string -> Channels) returns (outcome: Outcome)
      modifies this`stderrLines, this`treatStderrAsStdout, this`stdoutCalls
      ensures var ch := session(BuildCommand());
        Reply(outcome, Snapshot()) ==
        Run(kind, hooks, old(Snapshot()), Dispatch(Merged(ch.stdout, ch.stderr, DefaultMaxLines)))
    {
      var ch := session(BuildCommand());
      var events := ReadMerged(ch.stdout, ch.stderr, DefaultMaxLines);
      outcome := DispatchAll(events);
    }

    /** The loop of `execute` (main.py:60-61, 66-72): each line goes to its
        handler with the current counter of its channel; the stdout counter
        is advanced first, the stderr counter by `+= 0`. */
    method DispatchAll(events: seq<Event>) returns (outcome: Outcome)
      modifies this`stderrLines, this`treatStderrAsStdout, this`stdoutCalls
      ensures Reply(outcome, Snapshot()) == Run(kind, hooks, old(Snapshot()), Dispatch(events))
    {
      ghost var start := Snapshot();
      var stdoutLineNum := 0;
      var stderrLineNum := 0;
      var k := 0;
      outcome := Returned;
      while k < |events|
        invariant k <= |events|
        invariant stdoutLineNum == |Texts(events[..k], false)|
        invariant stderrLineNum == 0
        invariant outcome == Returned
        invariant Run(kind, hooks, start, Dispatch(events[..k])) == Reply(Returned, Snapshot())
      {
        var e := events[k];
        ghost var before := Snapshot();
        outcome, stdoutLineNum, stderrLineNum := HandleEvent(e, stdoutLineNum, stderrLineNum);
        PrefixSnoc(events, k);
        ExecuteStep(events[..k], e, start, before, Reply(outcome, Snapshot()));
        if outcome == NotImplemented {
          ExecuteStops(events, k, start);
          return;
        }
        k := k + 1;
      }
      assert events[..k] == events;
    }

    /** One turn of the loop of `execute` (main.py:67-72): a stderr line goes
        to `handle_stderr_line` with the stderr counter after `+= 0`, a stdout
        line to `handle_stdout_line` with the stdout counter after `+= 1`. */
    method HandleEvent(e: Event, stdoutLineNum: int, stderrLineNum: int)
      returns (outcome: Outcome, stdoutNext: int, stderrNext: int)
      modifies this`stderrLines, this`treatStderrAsStdout, this`stdoutCalls
      ensures stderrNext == stderrLineNum
      ensures stdoutNext == stdoutLineNum + (if e.isStderr then 0 else 1)
      ensures Reply(outcome, Snapshot()) ==
        if e.isStderr then HandleStderr(kind, hooks, old(Snapshot()), stderrLineNum, e.text)
        else HandleStdout(hooks, old(Snapshot()), stdoutLineNum + 1, e.text)
    {
      stdoutNext, stderrNext := stdoutLineNum, stderrLineNum;
      if e.isStderr {
        stderrNext := stderrNext + 0;
        outcome := HandleStderrLine(stderrNext, e.text);
      } else {
        stdoutNext := stdoutNext + 1;
        outcome := HandleStdoutLine(stdoutNext, e.text);
      }
    }

    /** One event more: the run goes one handler call further, and the
        stdout counter moves only for a stdout line. */
    lemma ExecuteStep(prior: seq<Event>, e: Event, start: State, before: State, after: Reply)
      requires Run(kind, hooks, start, Dispatch(prior)) == Reply(Returned, before)
      requires after == if e.isStderr then HandleStderr(kind, hooks, before, 0, e.text)
                        else HandleStdout(hooks, before, |Texts(prior, false)| + 1, e.text)
      ensures Run(kind, hooks, start, Dispatch(prior + [e])) == after
      ensures |Texts(prior + [e], false)| == |Texts(prior, false)| + (if e.isStderr then 0 else 1)
    {
      DispatchSnoc(prior, e);
      TextsAppend(prior, [e], false);
      RunSnoc(kind, hooks, start, Dispatch(prior),
              if e.isStderr then Call(true, 0, e.text) else Call(false, |Texts(prior, false)| + 1, e.text));
    }

    /** A handler that raises ends the run: the calls after it change nothing. */
    lemma ExecuteStops(events: seq<Event>, k: nat, start: State)
      requires k < |events|
      requires Run(kind, hooks, start, Dispatch(events[..k + 1])).outcome == NotImplemented
      ensures Run(kind, hooks, start, Dispatch(events)) == Run(kind, hooks, start, Dispatch(events[..k + 1]))
    {
      DispatchPrefix(events, k + 1);
      RunStops(kind, hooks, start, Dispatch(events[..k + 1]), Dispatch(events));
    }
  }

  /** As written, any command that reads a line raises `NotImplementedError`
      at once and never caches a stderr line; a command that reads nothing
      returns. */
  lemma ExecuteAsWritten(kind: Kind, out: seq<string>, err: seq<string>)
    ensures var r := Run(kind, Raise, Initial, Dispatch(Merged(out, err, DefaultMaxLines)));
      (r.outcome == NotImplemented <==> Live(out, err, 0)) && r.state.stderrLines == []
  {
    var events := Merged(out, err, DefaultMaxLines);
    DispatchNumbering(events);
    var calls := Dispatch(events);
    if Live(out, err, 0) {
      assert events == StripEvents(Round(out, err, 0) + MergeFrom(out, err, DefaultMaxLines, 1));
      assert events != [];
      RunRaisesAtFirstCall(kind, Initial, calls);
    } else {
      assert events == [];
    }
  }

  /** Corrected: a `StderrCachingCommand` with returning base hooks caches
      every stderr line of a command whose output fits the bound, stripped,
      in order, and its latch stays down. */
  lemma ExecuteCachingCorrected(out: seq<string>, err: seq<string>)
    requires WellFormed(out) && WellFormed(err)
    requires Longest(out, err) <= DefaultMaxLines
    ensures var r := Run(StderrCaching, Return, Initial, Dispatch(Merged(out, err, DefaultMaxLines)));
      r.outcome == Returned && r.state.stderrLines == StripAll(err) && !r.state.treatStderrAsStdout
  {
    var events := Merged(out, err, DefaultMaxLines);
    CachingRun(Initial, Dispatch(events));
    DispatchStderr(events);
    MergedUntruncated(out, err, DefaultMaxLines);
  }

  /** Corrected: without a line holding `/run/user/<digits>/doc`, a `Df`
      behaves exactly like a `StderrCachingCommand`. */
  lemma DfWithoutDocPathIsCaching(calls: seq<Call>)
    requires FirstDocPath(calls) == |calls|
    ensures Run(DiskFree, Return, Initial, calls) == Run(StderrCaching, Return, Initial, calls)
  {
    DiskFreeRun(Initial, calls);
    CachingRun(Initial, calls);
    assert calls[..|calls|] == calls;
    assert calls[|calls|..] == [];
    assert Log([]) == [];
  }
}
