/** What the line handlers of the command classes do (main.py:51-108), as
    functions of the handlers' state: the stderr cache of
    `StderrCachingCommand`, the reclassification latch of `Df`, and a log of
    every call that reaches `handle_stdout_line`. `Command.execute`'s
    numbering of the merged events (main.py:59-72) is `Dispatch`.

    The two hooks of the abstract base class `Command` (main.py:51-57) are
    reached through `super()` by both handlers of `StderrCachingCommand`.
    Their outcome is the parameter `hooks`: as written they raise
    `NotImplementedError` (`Raise`); the behaviour the subclasses evidently
    expect is that they return (`Return`). */
module Handlers {
  import opened Reader
  import opened RunUserDoc

  /** The concrete class whose handlers run. */
  datatype Kind = StderrCaching | DiskFree

  /** What the base `Command.handle_stdout_line` and
      `Command.handle_stderr_line` do when called. */
  datatype BaseHooks = Raise | Return

  /** How a handler call ends: normally, or with `NotImplementedError`. */
  datatype Outcome = Returned | NotImplemented

  /** One handler call made by `execute`: which handler, the line number it
      passes and the line. */
  datatype Call = Call(toStderr: bool, lineNumber: int, line: string)

  /** The arguments of one call that reached `handle_stdout_line`. */
  datatype Numbered = Numbered(lineNumber: int, line: string)

  /** The handlers' state: `stderr_lines`, `treat_stderr_as_stdout` (always
      false for a plain `StderrCachingCommand`) and the calls that reached
      `handle_stdout_line`. */
  datatype State = State(stderrLines: seq<string>, treatStderrAsStdout: bool, stdoutCalls: seq<Numbered>)

  datatype Reply = Reply(outcome: Outcome, state: State)

  /** The state of a freshly built command. */
  const Initial: State := State([], false, [])

  function BaseHook(hooks: BaseHooks): Outcome {
    if hooks == Raise then NotImplemented else Returned
  }

  /** `StderrCachingCommand.handle_stdout_line`: the call is delegated to the
      base hook (main.py:81-82). */
  function HandleStdout(hooks: BaseHooks, st: State, lineNumber: int, line: string): Reply {
    Reply(BaseHook(hooks), st.(stdoutCalls := st.stdoutCalls + [Numbered(lineNumber, line)]))
  }

  /** `StderrCachingCommand.handle_stderr_line`: the base hook first, then the
      line is appended to the cache (main.py:84-86). */
  function CacheStderr(hooks: BaseHooks, st: State, line: string): Reply {
    if BaseHook(hooks) == NotImplemented then Reply(NotImplemented, st)
    else Reply(Returned, st.(stderrLines := st.stderrLines + [line]))
  }

  /** `handle_stderr_line` of the given class; for `Df` (main.py:100-108) the
      latch is set by a line holding `/run/user/<digits>/doc`, and once set
      the line goes to `handle_stdout_line` instead of the cache. */
  function HandleStderr(kind: Kind, hooks: BaseHooks, st: State, lineNumber: int, line: string): Reply {
    match kind
    case StderrCaching => CacheStderr(hooks, st, line)
    case DiskFree =>
      var latched := st.treatStderrAsStdout || ContainsDocPath(line);
      var st' := st.(treatStderrAsStdout := latched);
      if latched then HandleStdout(hooks, st', lineNumber, line) else CacheStderr(hooks, st', line)
  }

  function Handle(kind: Kind, hooks: BaseHooks, st: State, c: Call): Reply {
    if c.toStderr then HandleStderr(kind, hooks, st, c.lineNumber, c.line)
    else HandleStdout(hooks, st, c.lineNumber, c.line)
  }

  /** The calls made one after the other; the first `NotImplementedError`
      ends the run, and the state is what it was when it was raised. */
  function Run(kind: Kind, hooks: BaseHooks, st: State, calls: seq<Call>): Reply {
    if calls == [] then Reply(Returned, st)
    else
      var r := Run(kind, hooks, st, calls[..|calls| - 1]);
      if r.outcome == NotImplemented then r else Handle(kind, hooks, r.state, calls[|calls| - 1])
  }

  /** The handler calls `execute` makes for the merged events: a stdout event
      gets the next stdout number, a stderr event the stderr counter, which
      `+= 0` leaves at 0 (main.py:66-72). */
  function Dispatch(events: seq<Event>): seq<Call> {
    if events == [] then []
    else
      var prior := events[..|events| - 1];
      var e := events[|events| - 1];
      Dispatch(prior) +
      [if e.isStderr then Call(true, 0, e.text) else Call(false, |Texts(prior, false)| + 1, e.text)]
  }

  lemma TextsSnoc(events: seq<Event>, isStderr: bool)
    requires events != []
    ensures var e := events[|events| - 1];
      Texts(events, isStderr) ==
      Texts(events[..|events| - 1], isStderr) + (if e.isStderr == isStderr then [e.text] else [])
  {
    var e := events[|events| - 1];
    assert events == events[..|events| - 1] + [e];
    TextsAppend(events[..|events| - 1], [e], isStderr);
  }

  /** The call `execute` makes for the last event comes after those for the
      earlier ones. */
  lemma DispatchSnoc(prior: seq<Event>, e: Event)
    ensures Dispatch(prior + [e]) == Dispatch(prior) +
      [if e.isStderr then Call(true, 0, e.text) else Call(false, |Texts(prior, false)| + 1, e.text)]
  {
    assert (prior + [e])[..|prior|] == prior;
  }

  /** One call more: the run goes on with it unless it has already raised. */
  lemma RunSnoc(kind: Kind, hooks: BaseHooks, st: State, calls: seq<Call>, c: Call)
    ensures var r := Run(kind, hooks, st, calls);
      Run(kind, hooks, st, calls + [c]) == if r.outcome == NotImplemented then r else Handle(kind, hooks, r.state, c)
  {
    assert (calls + [c])[..|calls|] == calls;
  }

  /** Dispatch: one call per event, in order, to the handler of the event's
      channel with its text; the `k`-th stdout event is numbered `k`, and
      every stderr event 0. */
  lemma {:induction false} DispatchNumbering(events: seq<Event>)
    ensures |Dispatch(events)| == |events|
    ensures forall k :: 0 <= k < |events| ==>
      Dispatch(events)[k] ==
      Call(events[k].isStderr, if events[k].isStderr then 0 else |Texts(events[..k + 1], false)|, events[k].text)
  {
    if events != [] {
      var n := |events| - 1;
      var prior := events[..n];
      DispatchNumbering(prior);
      var e := events[n];
      var last := if e.isStderr then Call(true, 0, e.text) else Call(false, |Texts(prior, false)| + 1, e.text);
      assert Dispatch(events) == Dispatch(prior) + [last];
      forall k | 0 <= k < |events|
        ensures Dispatch(events)[k] ==
          Call(events[k].isStderr, if events[k].isStderr then 0 else |Texts(events[..k + 1], false)|, events[k].text)
      {
        if k < n {
          assert events[..k + 1] == prior[..k + 1];
          assert events[k] == prior[k];
        } else {
          assert events[..k + 1] == events by {
            assert k + 1 == |events|;
          }
          TextsSnoc(events, false);
        }
      }
    }
  }

  /** The calls for a prefix of the events are a prefix of the calls. */
  lemma {:induction false} DispatchPrefix(events: seq<Event>, m: nat)
    requires m <= |events|
    ensures Dispatch(events[..m]) <= Dispatch(events)
    decreases |events| - m
  {
    if m < |events| {
      var n := |events| - 1;
      assert events[..n][..m] == events[..m];
      DispatchPrefix(events[..n], m);
    } else {
      assert events[..m] == events;
    }
  }

  /** Once a call has raised, later calls change nothing: the run ends. */
  lemma {:induction false} RunStops(kind: Kind, hooks: BaseHooks, st: State, done: seq<Call>, calls: seq<Call>)
    requires done <= calls
    requires Run(kind, hooks, st, done).outcome == NotImplemented
    ensures Run(kind, hooks, st, calls) == Run(kind, hooks, st, done)
    decreases |calls|
  {
    if |done| < |calls| {
      var prior := calls[..|calls| - 1];
      assert done <= prior;
      RunStops(kind, hooks, st, done, prior);
    } else {
      assert done == calls;
    }
  }

  /** The stderr lines among the calls, in order. */
  function StderrLines(calls: seq<Call>): seq<string> {
    if calls == [] then []
    else
      var c := calls[|calls| - 1];
      StderrLines(calls[..|calls| - 1]) + (if c.toStderr then [c.line] else [])
  }

  /** The arguments of the stdout calls, in order. */
  function StdoutLog(calls: seq<Call>): seq<Numbered> {
    if calls == [] then []
    else
      var c := calls[|calls| - 1];
      StdoutLog(calls[..|calls| - 1]) + (if c.toStderr then [] else [Numbered(c.lineNumber, c.line)])
  }

  /** The arguments of all the calls, in order. */
  function Log(calls: seq<Call>): seq<Numbered> {
    if calls == [] then []
    else Log(calls[..|calls| - 1]) + [Numbered(calls[|calls| - 1].lineNumber, calls[|calls| - 1].line)]
  }

  /** The stderr lines of the dispatched calls are the stderr events' texts. */
  lemma {:induction false} DispatchStderr(events: seq<Event>)
    ensures StderrLines(Dispatch(events)) == Texts(events, true)
  {
    if events != [] {
      var prior := events[..|events| - 1];
      DispatchStderr(prior);
      TextsSnoc(events, true);
      var calls := Dispatch(events);
      assert calls[..|calls| - 1] == Dispatch(prior);
    }
  }

  /** The stdout calls carry the stdout events' texts, numbered 1, 2, 3, …
      in arrival order. */
  lemma {:induction false} DispatchStdout(events: seq<Event>)
    ensures var log := StdoutLog(Dispatch(events));
      |log| == |Texts(events, false)| &&
      forall j :: 0 <= j < |log| ==> log[j] == Numbered(j + 1, Texts(events, false)[j])
  {
    if events != [] {
      var prior := events[..|events| - 1];
      DispatchStdout(prior);
      TextsSnoc(events, false);
      var calls := Dispatch(events);
      assert calls[..|calls| - 1] == Dispatch(prior);
    }
  }

  /** As written: with raising base hooks the first call raises, whatever it
      is, and nothing after it runs; in particular no line is ever cached. */
  lemma {:induction false} RunRaisesAtFirstCall(kind: Kind, st: State, calls: seq<Call>)
    requires calls != []
    ensures Run(kind, Raise, st, calls) == Handle(kind, Raise, st, calls[0])
    ensures Run(kind, Raise, st, calls).outcome == NotImplemented
    ensures Run(kind, Raise, st, calls).state.stderrLines == st.stderrLines
  {
    var prior := calls[..|calls| - 1];
    if prior != [] {
      RunRaisesAtFirstCall(kind, st, prior);
      assert prior[0] == calls[0];
    }
  }

  /** With returning base hooks a `StderrCachingCommand` runs every call:
      the stderr lines are appended to the cache in order, the stdout calls
      reach `handle_stdout_line` in order, and the latch is never touched. */
  lemma {:induction false} CachingRun(st: State, calls: seq<Call>)
    ensures Run(StderrCaching, Return, st, calls) ==
      Reply(Returned, State(st.stderrLines + StderrLines(calls), st.treatStderrAsStdout,
                            st.stdoutCalls + StdoutLog(calls)))
  {
    if calls != [] {
      CachingRun(st, calls[..|calls| - 1]);
    }
  }

  /** The index of the first stderr call whose line holds the path, or the
      number of calls when there is none. */
  function FirstDocPath(calls: seq<Call>): (p: nat)
    ensures p <= |calls|
  {
    if calls == [] then 0
    else
      var n := |calls| - 1;
      var p := FirstDocPath(calls[..n]);
      if p < n then p
      else if calls[n].toStderr && ContainsDocPath(calls[n].line) then n
      else |calls|
  }

  /** `FirstDocPath` is that first index. */
  lemma {:induction false} FirstDocPathSpec(calls: seq<Call>)
    ensures var p := FirstDocPath(calls);
      (forall k :: 0 <= k < p ==> !(calls[k].toStderr && ContainsDocPath(calls[k].line))) &&
      (p < |calls| ==> calls[p].toStderr && ContainsDocPath(calls[p].line))
  {
    if calls != [] {
      var n := |calls| - 1;
      FirstDocPathSpec(calls[..n]);
      var p := FirstDocPath(calls[..n]);
      assert forall k :: 0 <= k < p ==> calls[k] == calls[..n][k];
    }
  }

  /** The three filters, one call later. */
  lemma FiltersSnoc(calls: seq<Call>, c: Call)
    ensures StderrLines(calls + [c]) == StderrLines(calls) + (if c.toStderr then [c.line] else [])
    ensures StdoutLog(calls + [c]) == StdoutLog(calls) + (if c.toStderr then [] else [Numbered(c.lineNumber, c.line)])
    ensures Log(calls + [c]) == Log(calls) + [Numbered(c.lineNumber, c.line)]
  {
    assert (calls + [c])[..|calls|] == calls;
  }

  /** A `Df` whose latch is set sends every call to `handle_stdout_line`. */
  lemma LatchedStep(s: State, c: Call)
    requires s.treatStderrAsStdout
    ensures Handle(DiskFree, Return, s, c) ==
      Reply(Returned, s.(stdoutCalls := s.stdoutCalls + [Numbered(c.lineNumber, c.line)]))
  {
  }

  /** Where the `Df` split falls: the first call once the latch is set. */
  function SplitPoint(st: State, calls: seq<Call>): (p: nat)
    ensures p <= |calls|
  {
    if st.treatStderrAsStdout then 0 else FirstDocPath(calls)
  }

  /** The outcome the `Df` split describes, with returning base hooks. */
  ghost predicate SplitRun(st: State, calls: seq<Call>) {
    var p := SplitPoint(st, calls);
    Run(DiskFree, Return, st, calls) ==
    Reply(Returned, State(st.stderrLines + StderrLines(calls[..p]),
                          st.treatStderrAsStdout || p < |calls|,
                          st.stdoutCalls + StdoutLog(calls[..p]) + Log(calls[p..])))
  }

  lemma SplitRunLatched(st: State, prior: seq<Call>, c: Call)
    requires SplitRun(st, prior)
    requires SplitPoint(st, prior) < |prior| || st.treatStderrAsStdout
    ensures SplitRun(st, prior + [c])
  {
    var calls := prior + [c];
    var p := SplitPoint(st, prior);
    var s := Run(DiskFree, Return, st, prior).state;
    var numbered := Numbered(c.lineNumber, c.line);
    var cached := StderrLines(prior[..p]);
    var logged := StdoutLog(prior[..p]);
    var forwarded := Log(prior[p..]);
    assert s == State(st.stderrLines + cached, true, st.stdoutCalls + logged + forwarded);
    assert Run(DiskFree, Return, st, calls) ==
      Reply(Returned, s.(stdoutCalls := s.stdoutCalls + [numbered])) by {
      assert calls[..|prior|] == prior;
      LatchedStep(s, c);
    }
    assert SplitPoint(st, calls) == p by {
      assert calls[..|prior|] == prior;
    }
    assert calls[..p] == prior[..p];
    assert Log(calls[p..]) == forwarded + [numbered] by {
      assert calls[p..] == prior[p..] + [c];
      FiltersSnoc(prior[p..], c);
    }
    assert st.stdoutCalls + logged + forwarded + [numbered] ==
      st.stdoutCalls + logged + (forwarded + [numbered]);
  }

  lemma SplitRunOpen(st: State, prior: seq<Call>, c: Call)
    requires SplitRun(st, prior)
    requires SplitPoint(st, prior) == |prior| && !st.treatStderrAsStdout
    ensures SplitRun(st, prior + [c])
  {
    var calls := prior + [c];
    var n := |prior|;
    var s := Run(DiskFree, Return, st, prior).state;
    assert calls[..n] == prior;
    assert Run(DiskFree, Return, st, calls) == Handle(DiskFree, Return, s, c);
    assert prior[..n] == prior && prior[n..] == [];
    assert s.stdoutCalls == st.stdoutCalls + StdoutLog(prior) + [];
    FiltersSnoc(prior, c);
    var numbered := Numbered(c.lineNumber, c.line);
    if c.toStderr && ContainsDocPath(c.line) {
      assert SplitPoint(st, calls) == n;
      assert calls[n..] == [c];
      assert Log([c]) == Log([c][..0]) + [numbered];
    } else {
      assert SplitPoint(st, calls) == n + 1;
      assert calls[..n + 1] == calls && calls[n + 1..] == [];
    }
  }

  /** The `Df` split, with returning base hooks: before the first stderr line
      holding `/run/user/<digits>/doc` the stderr lines are cached; from that
      line on every line, stdout or stderr, matching or not, reaches
      `handle_stdout_line` with its own line number and is never cached.
      A latch already set when the run starts sends everything there. */
  lemma {:induction false} DiskFreeRun(st: State, calls: seq<Call>)
    ensures var p := if st.treatStderrAsStdout then 0 else FirstDocPath(calls);
      Run(DiskFree, Return, st, calls) ==
      Reply(Returned, State(st.stderrLines + StderrLines(calls[..p]),
                            st.treatStderrAsStdout || p < |calls|,
                            st.stdoutCalls + StdoutLog(calls[..p]) + Log(calls[p..])))
  {
    if calls == [] {
      return;
    }
    var prior := calls[..|calls| - 1];
    assert calls == prior + [calls[|calls| - 1]];
    DiskFreeRun(st, prior);
    if st.treatStderrAsStdout || SplitPoint(st, prior) < |prior| {
      SplitRunLatched(st, prior, calls[|calls| - 1]);
    } else {
      SplitRunOpen(st, prior, calls[|calls| - 1]);
    }
  }

  /** What the handlers keep only grows: the cache and the stdout log are
      extended at the end, the latch is never reset, and a
      `StderrCachingCommand` never sets it. */
  lemma {:induction false} RunGrows(kind: Kind, hooks: BaseHooks, st: State, calls: seq<Call>)
    ensures var s := Run(kind, hooks, st, calls).state;
      st.stderrLines <= s.stderrLines &&
      st.stdoutCalls <= s.stdoutCalls &&
      (st.treatStderrAsStdout ==> s.treatStderrAsStdout) &&
      (kind == StderrCaching ==> s.treatStderrAsStdout == st.treatStderrAsStdout)
  {
    if calls != [] {
      RunGrows(kind, hooks, st, calls[..|calls| - 1]);
    }
  }
}
