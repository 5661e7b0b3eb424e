/** `exec_command_stream_output` (main.py:14-37): merges the two output
    channels of a remote command into one sequence of (stripped line, is_stderr)
    events, reading one line from stdout and then one from stderr per round.

    A channel is the sequence of raw lines `readline()` returns, newline
    included; reading past its end returns "". */
module Reader {
  import opened Text

  /** One yielded pair `(line.strip(), is_stderr)`. */
  datatype Event = Event(text: string, isStderr: bool)

  /** The default of `max_lines`; `Command.execute` never passes another. */
  const DefaultMaxLines: int := 10000

  /** The `k`-th `readline()` on a channel (counting from 0): "" once the
      channel is exhausted. */
  function ReadLine(channel: seq<string>, k: nat): string {
    if k < |channel| then channel[k] else ""
  }

  /** A channel as `readline()` delivers it: only the end of the stream reads
      as "". */
  predicate WellFormed(channel: seq<string>) {
    forall k :: 0 <= k < |channel| ==> |channel[k]| > 0
  }

  function Longest(out: seq<string>, err: seq<string>): nat {
    if |out| < |err| then |err| else |out|
  }

  /** The rounds run when both channels are well formed: all of them, or the
      first `maxLines` when that is positive and smaller. */
  function Cap(maxLines: int, longest: nat): nat {
    if 0 < maxLines < longest then maxLines else longest
  }

  /** The first `n` lines of a channel, or all of them when it is shorter. */
  function Take(channel: seq<string>, n: nat): seq<string> {
    if n < |channel| then channel[..n] else channel
  }

  /** Each line stripped, in order. */
  function StripAll(lines: seq<string>): (r: seq<string>)
    ensures |r| == |lines|
  {
    if lines == [] then [] else [Strip(lines[0])] + StripAll(lines[1..])
  }

  /** The lines one round reads, before stripping: its stdout read `o` and
      then its stderr read `e`, each only when it was not empty. */
  function RoundEvents(o: string, e: string): seq<Event> {
    (if |o| > 0 then [Event(o, false)] else []) +
    (if |e| > 0 then [Event(e, true)] else [])
  }

  /** Each event's text stripped, in order. */
  function StripEvents(events: seq<Event>): (r: seq<Event>)
    ensures |r| == |events|
  {
    if events == [] then []
    else [Event(Strip(events[0].text), events[0].isStderr)] + StripEvents(events[1..])
  }

  /** The events of round `j` (counted from 0). */
  function Round(out: seq<string>, err: seq<string>, j: nat): seq<Event> {
    RoundEvents(ReadLine(out, j), ReadLine(err, j))
  }

  /** Round `j` (from 0) reads something on at least one channel. */
  predicate Live(out: seq<string>, err: seq<string>, j: nat) {
    |ReadLine(out, j)| > 0 || |ReadLine(err, j)| > 0
  }

  /** The lines read, unstripped, once `done` rounds have run. The loop variable `i`
      of `for i in count(1)` is `done + 1`, so the bound check
      `0 < max_lines < i` reads `0 < maxLines <= done`. */
  function MergeFrom(out: seq<string>, err: seq<string>, maxLines: int, done: nat): seq<Event>
    decreases Longest(out, err) - done
  {
    if 0 < maxLines <= done || !Live(out, err, done) then []
    else Round(out, err, done) + MergeFrom(out, err, maxLines, done + 1)
  }

  /** Every line the generator reads and yields, before stripping. */
  function Reads(out: seq<string>, err: seq<string>, maxLines: int): seq<Event> {
    MergeFrom(out, err, maxLines, 0)
  }

  /** Everything the generator yields. */
  function Merged(out: seq<string>, err: seq<string>, maxLines: int): seq<Event> {
    StripEvents(Reads(out, err, maxLines))
  }

  /** The number of rounds that yield something once `done` rounds have run. */
  function RoundsFrom(out: seq<string>, err: seq<string>, maxLines: int, done: nat): nat
    decreases Longest(out, err) - done
  {
    if 0 < maxLines <= done || !Live(out, err, done) then 0
    else 1 + RoundsFrom(out, err, maxLines, done + 1)
  }

  function Rounds(out: seq<string>, err: seq<string>, maxLines: int): nat {
    RoundsFrom(out, err, maxLines, 0)
  }

  /** Reference definition: the events of the first `n` rounds, round after
      round, with no stopping rule. */
  function Interleave(out: seq<string>, err: seq<string>, n: nat): seq<Event> {
    if n == 0 then [] else Interleave(out, err, n - 1) + Round(out, err, n - 1)
  }

  /** `n` rounds is where the loop stops: every earlier round read something,
      the bound is never passed, and round `n` is either cut off by the bound
      or reads "" on both channels. */
  predicate StopsAfter(out: seq<string>, err: seq<string>, maxLines: int, n: nat) {
    (forall j :: 0 <= j < n ==> Live(out, err, j)) &&
    (0 < maxLines ==> n <= maxLines) &&
    ((0 < maxLines && n == maxLines) || !Live(out, err, n))
  }

  lemma {:induction false} RoundsFromStop(out: seq<string>, err: seq<string>, maxLines: int, done: nat)
    requires 0 < maxLines ==> done <= maxLines
    requires forall j :: 0 <= j < done ==> Live(out, err, j)
    ensures StopsAfter(out, err, maxLines, done + RoundsFrom(out, err, maxLines, done))
    decreases Longest(out, err) - done
  {
    if 0 < maxLines <= done || !Live(out, err, done) {
    } else {
      RoundsFromStop(out, err, maxLines, done + 1);
    }
  }

  /** Termination: the reader stops at the first round where both channels
      read "", or after round `maxLines` when that is positive. */
  lemma RoundsStop(out: seq<string>, err: seq<string>, maxLines: int)
    ensures StopsAfter(out, err, maxLines, Rounds(out, err, maxLines))
  {
    RoundsFromStop(out, err, maxLines, 0);
  }

  /** The stopping conditions pin the number of rounds down. */
  lemma RoundsUnique(out: seq<string>, err: seq<string>, maxLines: int, n: nat)
    requires StopsAfter(out, err, maxLines, n)
    ensures Rounds(out, err, maxLines) == n
  {
    RoundsStop(out, err, maxLines);
  }

  lemma Associative<T>(a: seq<T>, b: seq<T>, c: seq<T>)
    ensures a + (b + c) == (a + b) + c
  {
  }

  /** A prefix one element longer. */
  lemma PrefixSnoc<T>(s: seq<T>, k: nat)
    requires k < |s|
    ensures s[..k + 1] == s[..k] + [s[k]]
  {
  }

  lemma {:induction false} MergeFromInterleave(out: seq<string>, err: seq<string>, maxLines: int, done: nat)
    ensures Interleave(out, err, done) + MergeFrom(out, err, maxLines, done)
         == Interleave(out, err, done + RoundsFrom(out, err, maxLines, done))
    decreases Longest(out, err) - done
  {
    var prev := Interleave(out, err, done);
    if 0 < maxLines <= done || !Live(out, err, done) {
      assert prev + [] == prev;
    } else {
      var rest := MergeFrom(out, err, maxLines, done + 1);
      var round := Round(out, err, done);
      var k := RoundsFrom(out, err, maxLines, done + 1);
      var n := done + RoundsFrom(out, err, maxLines, done);
      assert MergeFrom(out, err, maxLines, done) == round + rest && n == done + 1 + k;
      assert Interleave(out, err, done + 1) == prev + round;
      MergeFromInterleave(out, err, maxLines, done + 1);
      Associative(prev, round, rest);
    }
  }

  /** Ordering: the lines read are the rounds' reads, round after round,
      stdout before stderr within a round, up to the stopping round. */
  lemma ReadsIsInterleave(out: seq<string>, err: seq<string>, maxLines: int)
    ensures Reads(out, err, maxLines) == Interleave(out, err, Rounds(out, err, maxLines))
  {
    var m := MergeFrom(out, err, maxLines, 0);
    MergeFromInterleave(out, err, maxLines, 0);
    assert [] + m == m;
  }

  lemma {:induction false} InterleaveLength(out: seq<string>, err: seq<string>, n: nat)
    ensures |Interleave(out, err, n)| <= 2 * n
  {
    if n > 0 {
      InterleaveLength(out, err, n - 1);
    }
  }

  /** Bound: with a positive `maxLines`, at most `maxLines` rounds run and at
      most `2 * maxLines` events are yielded. */
  lemma MergedBound(out: seq<string>, err: seq<string>, maxLines: int)
    requires 0 < maxLines
    ensures Rounds(out, err, maxLines) <= maxLines
    ensures |Merged(out, err, maxLines)| <= 2 * maxLines
  {
    RoundsStop(out, err, maxLines);
    ReadsIsInterleave(out, err, maxLines);
    InterleaveLength(out, err, Rounds(out, err, maxLines));
  }

  /** With well-formed channels the reader runs `Cap(maxLines, longest)`
      rounds: a non-positive `maxLines` never cuts the reading short. */
  lemma RoundsWellFormed(out: seq<string>, err: seq<string>, maxLines: int)
    requires WellFormed(out) && WellFormed(err)
    ensures Rounds(out, err, maxLines) == Cap(maxLines, Longest(out, err))
  {
    var n := Cap(maxLines, Longest(out, err));
    forall j | 0 <= j < n ensures Live(out, err, j) {
      if j < |out| { assert |out[j]| > 0; } else { assert |err[j]| > 0; }
    }
    RoundsUnique(out, err, maxLines, n);
  }

  /** The texts of the events on one channel, in order. */
  function Texts(events: seq<Event>, isStderr: bool): (r: seq<string>)
    ensures |r| <= |events|
  {
    if events == [] then []
    else (if events[0].isStderr == isStderr then [events[0].text] else []) + Texts(events[1..], isStderr)
  }

  lemma {:induction false} TextsAppend(a: seq<Event>, b: seq<Event>, isStderr: bool)
    ensures Texts(a + b, isStderr) == Texts(a, isStderr) + Texts(b, isStderr)
  {
    if a != [] {
      assert (a + b)[1..] == a[1..] + b;
      TextsAppend(a[1..], b, isStderr);
    } else {
      assert a + b == b;
    }
  }

  /** Every event is on exactly one channel. */
  lemma {:induction false} TextsPartition(events: seq<Event>)
    ensures |events| == |Texts(events, false)| + |Texts(events, true)|
  {
    if events != [] {
      TextsPartition(events[1..]);
    }
  }

  /** Stripping events strips the texts of each channel and keeps their
      channels. */
  lemma {:induction false} TextsStripEvents(events: seq<Event>, isStderr: bool)
    ensures Texts(StripEvents(events), isStderr) == StripAll(Texts(events, isStderr))
  {
    if events != [] {
      var e := events[0];
      var head := [Event(Strip(e.text), e.isStderr)];
      var tail := StripEvents(events[1..]);
      TextsStripEvents(events[1..], isStderr);
      assert StripEvents(events) == head + tail;
      assert (head + tail)[1..] == tail;
      var rest := Texts(events[1..], isStderr);
      if e.isStderr == isStderr {
        assert Texts(events, isStderr) == [e.text] + rest;
        assert ([e.text] + rest)[1..] == rest;
      } else {
        assert Texts(events, isStderr) == rest;
      }
    }
  }

  lemma {:induction false} StripAllAppend(a: seq<string>, b: seq<string>)
    ensures StripAll(a + b) == StripAll(a) + StripAll(b)
  {
    if a != [] {
      assert (a + b)[1..] == a[1..] + b;
      StripAllAppend(a[1..], b);
    } else {
      assert a + b == b;
    }
  }

  lemma {:induction false} StripEventsAppend(a: seq<Event>, b: seq<Event>)
    ensures StripEvents(a + b) == StripEvents(a) + StripEvents(b)
  {
    if a != [] {
      assert (a + b)[1..] == a[1..] + b;
      StripEventsAppend(a[1..], b);
    } else {
      assert a + b == b;
    }
  }

  function Channel(out: seq<string>, err: seq<string>, isStderr: bool): seq<string> {
    if isStderr then err else out
  }

  lemma RoundTexts(o: string, e: string, isStderr: bool)
    ensures Texts(RoundEvents(o, e), isStderr) ==
      var line := if isStderr then e else o;
      if |line| > 0 then [line] else []
  {
    var a := if |o| > 0 then [Event(o, false)] else [];
    var b := if |e| > 0 then [Event(e, true)] else [];
    TextsAppend(a, b, isStderr);
  }

  lemma ChannelStep(ch: seq<string>, n: nat)
    requires WellFormed(ch) && n > 0
    ensures Take(ch, n) == Take(ch, n - 1) + (if |ReadLine(ch, n - 1)| > 0 then [ReadLine(ch, n - 1)] else [])
  {
    if n - 1 < |ch| {
      assert |ch[n - 1]| > 0;
    }
  }

  /** Read round by round, a well-formed channel delivers its lines in
      order. */
  lemma {:induction false} InterleaveTexts(out: seq<string>, err: seq<string>, n: nat, isStderr: bool)
    requires WellFormed(out) && WellFormed(err)
    ensures Texts(Interleave(out, err, n), isStderr) == Take(Channel(out, err, isStderr), n)
  {
    if n > 0 {
      InterleaveTexts(out, err, n - 1, isStderr);
      var o, e := ReadLine(out, n - 1), ReadLine(err, n - 1);
      TextsAppend(Interleave(out, err, n - 1), RoundEvents(o, e), isStderr);
      RoundTexts(o, e, isStderr);
      ChannelStep(Channel(out, err, isStderr), n);
    } else {
      assert Take(Channel(out, err, isStderr), 0) == [];
    }
  }

  /** Completeness: with well-formed channels, the stdout events are the
      stripped stdout lines of the rounds run, in order, and likewise for
      stderr; the number of events is the number of lines read. */
  lemma MergedCompleteness(out: seq<string>, err: seq<string>, maxLines: int)
    requires WellFormed(out) && WellFormed(err)
    ensures var n := Cap(maxLines, Longest(out, err));
      Texts(Merged(out, err, maxLines), false) == StripAll(Take(out, n)) &&
      Texts(Merged(out, err, maxLines), true) == StripAll(Take(err, n)) &&
      |Merged(out, err, maxLines)| == |Take(out, n)| + |Take(err, n)|
  {
    var n := Cap(maxLines, Longest(out, err));
    var lines := Reads(out, err, maxLines);
    RoundsWellFormed(out, err, maxLines);
    ReadsIsInterleave(out, err, maxLines);
    InterleaveTexts(out, err, n, false);
    InterleaveTexts(out, err, n, true);
    TextsStripEvents(lines, false);
    TextsStripEvents(lines, true);
    TextsPartition(lines);
  }

  /** Untruncated reading loses nothing: each channel's events are all of its
      lines, stripped, in order. */
  lemma MergedUntruncated(out: seq<string>, err: seq<string>, maxLines: int)
    requires WellFormed(out) && WellFormed(err)
    requires maxLines <= 0 || Longest(out, err) <= maxLines
    ensures Texts(Merged(out, err, maxLines), false) == StripAll(out)
    ensures Texts(Merged(out, err, maxLines), true) == StripAll(err)
  {
    MergedCompleteness(out, err, maxLines);
  }

  lemma {:induction false} InterleaveTake(out: seq<string>, err: seq<string>, bound: nat, n: nat)
    requires n <= bound
    ensures Interleave(out, err, n) == Interleave(Take(out, bound), Take(err, bound), n)
  {
    if n > 0 {
      InterleaveTake(out, err, bound, n - 1);
      assert ReadLine(out, n - 1) == ReadLine(Take(out, bound), n - 1);
      assert ReadLine(err, n - 1) == ReadLine(Take(err, bound), n - 1);
    }
  }

  /** Truncation is silent: what a positive `maxLines` yields is exactly what
      an unbounded reader yields on channels that end after `maxLines` lines. */
  lemma TruncationSilent(out: seq<string>, err: seq<string>, maxLines: int)
    requires 0 < maxLines
    ensures Merged(out, err, maxLines) == Merged(Take(out, maxLines), Take(err, maxLines), 0)
  {
    var out', err' := Take(out, maxLines), Take(err, maxLines);
    var n := Rounds(out', err', 0);
    RoundsStop(out', err', 0);
    forall j | 0 <= j < n ensures Live(out, err, j) && j < maxLines {
      assert Live(out', err', j);
      assert ReadLine(out', j) == ReadLine(out, j) && ReadLine(err', j) == ReadLine(err, j);
    }
    if n > 0 {
      assert Live(out, err, n - 1);
    }
    if n < maxLines {
      assert ReadLine(out', n) == ReadLine(out, n) && ReadLine(err', n) == ReadLine(err, n);
    }
    RoundsUnique(out, err, maxLines, n);
    ReadsIsInterleave(out, err, maxLines);
    ReadsIsInterleave(out', err', 0);
    InterleaveTake(out, err, maxLines, n);
  }

  /** Stripping the events of one round. */
  lemma StripRound(o: string, e: string)
    ensures StripEvents(RoundEvents(o, e)) ==
      (if |o| > 0 then [Event(Strip(o), false)] else []) +
      (if |e| > 0 then [Event(Strip(e), true)] else [])
  {
    var a := if |o| > 0 then [Event(o, false)] else [];
    var b := if |e| > 0 then [Event(e, true)] else [];
    StripEventsAppend(a, b);
  }

  /** The body of one round: yield the stripped stdout line, then the
      stripped stderr line, each only when it was read. What it appends is
      the round's events, stripped. */
  method YieldRound(events: seq<Event>, stdoutLine: string, stderrLine: string) returns (r: seq<Event>)
    ensures r == events + StripEvents(RoundEvents(stdoutLine, stderrLine))
  {
    r := events;
    if |stdoutLine| > 0 {
      r := r + [Event(Strip(stdoutLine), false)];
    }
    if |stderrLine| > 0 {
      r := r + [Event(Strip(stderrLine), true)];
    }
    StripRound(stdoutLine, stderrLine);
    Associative(events,
                if |stdoutLine| > 0 then [Event(Strip(stdoutLine), false)] else [],
                if |stderrLine| > 0 then [Event(Strip(stderrLine), true)] else []);
  }

  /** The generator as a loop: `for i in count(1)` with its two breaks,
      counting the rounds already run in `done`, so that `i` is `done + 1`. */
  method ReadMerged(out: seq<string>, err: seq<string>, maxLines: int) returns (events: seq<Event>)
    ensures events == Merged(out, err, maxLines)
  {
    events := [];
    ghost var lines: seq<Event> := [];
    var done := 0;
    while true
      invariant done <= Longest(out, err)
      invariant 0 < maxLines ==> done <= maxLines
      invariant forall j :: 0 <= j < done ==> Live(out, err, j)
      invariant lines == Interleave(out, err, done)
      invariant events == StripEvents(lines)
      decreases Longest(out, err) - done
    {
      if 0 < maxLines < done + 1 {
        break;
      }
      var stdoutLine := ReadLine(out, done);
      var stderrLine := ReadLine(err, done);
      if |stdoutLine| == 0 && |stderrLine| == 0 {
        break;
      }
      assert Live(out, err, done);
      ghost var round := RoundEvents(stdoutLine, stderrLine);
      events := YieldRound(events, stdoutLine, stderrLine);
      assert events == StripEvents(lines + round) by {
        StripEventsAppend(lines, round);
      }
      lines := lines + round;
      done := done + 1;
    }
    RoundsUnique(out, err, maxLines, done);
    ReadsIsInterleave(out, err, maxLines);
  }
}
