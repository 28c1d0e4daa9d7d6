/** The request/response protocol of `SessionIO` (session_io.go): waiting for a token
    that ends with a suffix while draining the stdout and stderr channels, `Exec`
    (send a command, wait for the prompt, fail on any stderr output) and `Close`.

    The child is an oracle: its whole stdout and stderr are given when the session is
    built and are turned into tokens by the reader pumps; the order in which the
    `select` of `WaitForSuffix` serves the two channels is given by a schedule. */
module Protocol {
  import opened Strings
  import opened Framing

  /** `Output`: the stdout and stderr tokens gathered while waiting for one suffix. */
  datatype Output = Output(stdout: seq<string>, stderr: seq<string>)

  /** One channel of the `select`. */
  datatype Source = FromStdout | FromStderr

  /** The tokens waiting on the stdout and stderr channels, oldest first, and the
      schedule: entry i names the channel the i-th `select` prefers. */
  datatype Channels = Channels(stdout: seq<string>, stderr: seq<string>, schedule: seq<Source>)

  /** How a call ends: it returns a value, returns an error with its message, or blocks
      forever (no token it is waiting for ever arrives). */
  datatype Reply<T> = Value(value: T) | Error(message: string) | Hang

  /** The channel the next `select` receives from when at least one holds a token:
      the scheduled one if it holds a token, else the other. */
  function Serve(ch: Channels): (r: Source)
    requires ch.schedule != [] && (ch.stdout != [] || ch.stderr != [])
    ensures r == FromStdout ==> ch.stdout != []
    ensures r == FromStderr ==> ch.stderr != []
    ensures ch.stderr == [] ==> r == FromStdout
  {
    if ch.schedule[0] == FromStdout then (if ch.stdout != [] then FromStdout else FromStderr)
    else (if ch.stderr != [] then FromStderr else FromStdout)
  }

  /** The last line ends with `sfx` and no earlier one does. */
  predicate StopsAtFirstSuffix(lines: seq<string>, sfx: string) {
    |lines| > 0 && HasSuffix(lines[|lines| - 1], sfx) &&
    forall i :: 0 <= i < |lines| - 1 ==> !HasSuffix(lines[i], sfx)
  }

  /** The end of a wait: the gathered output and the channels left, or the channels
      at the point where the wait blocks for good. */
  datatype Waited = Done(out: Output, rest: Channels) | Stuck(rest: Channels)

  /** Puts output gathered earlier in front of the outcome of the rest of a wait. */
  function Resume(acc: Output, w: Waited): Waited {
    match w
    case Done(out, rest) => Done(Output(acc.stdout + out.stdout, acc.stderr + out.stderr), rest)
    case Stuck(rest) => Stuck(rest)
  }

  lemma ResumeStep(acc: Output, step: Output, w: Waited)
    ensures Resume(acc, Resume(step, w)) ==
            Resume(Output(acc.stdout + step.stdout, acc.stderr + step.stderr), w)
  {
    if w.Done? {
      assert acc.stdout + step.stdout + w.out.stdout == acc.stdout + (step.stdout + w.out.stdout);
      assert acc.stderr + step.stderr + w.out.stderr == acc.stderr + (step.stderr + w.out.stderr);
    }
  }

  /** The `select` blocks for good: nothing is pending, or the schedule is used up. */
  predicate Blocked(ch: Channels) {
    ch.schedule == [] || (ch.stdout == [] && ch.stderr == [])
  }

  /** The token one `select` receives, as output of the channel it came from. */
  function Received(ch: Channels): Output
    requires !Blocked(ch)
  {
    if Serve(ch) == FromStdout then Output([ch.stdout[0]], []) else Output([], [ch.stderr[0]])
  }

  /** The channels after one `select`. */
  function AfterSelect(ch: Channels): (r: Channels)
    requires !Blocked(ch)
    ensures r.schedule == ch.schedule[1..]
  {
    if Serve(ch) == FromStdout then Channels(ch.stdout[1..], ch.stderr, ch.schedule[1..])
    else Channels(ch.stdout, ch.stderr[1..], ch.schedule[1..])
  }

  /** The `select` receives a stdout token that ends with `sfx`. */
  predicate Stops(sfx: string, ch: Channels)
    requires !Blocked(ch)
  {
    Serve(ch) == FromStdout && HasSuffix(ch.stdout[0], sfx)
  }

  /** What `WaitForSuffix(sfx)` does with the channels: each `select` takes one token;
      a stdout token is kept and stops the wait if it ends with `sfx`; a stderr token
      is kept and never stops it. With both channels empty, or the schedule used up,
      the `select` blocks for good. */
  function Collect(sfx: string, ch: Channels): Waited
    decreases |ch.schedule|
  {
    if Blocked(ch) then Stuck(ch)
    else if Stops(sfx, ch) then Done(Received(ch), AfterSelect(ch))
    else Resume(Received(ch), Collect(sfx, AfterSelect(ch)))
  }

  /** The wait from `start` after output `acc` and with channels `ch` left: one more
      `select` either ends it or leaves the same wait one token further on. */
  lemma CollectAdvance(sfx: string, start: Channels, acc: Output, ch: Channels)
    requires Collect(sfx, start) == Resume(acc, Collect(sfx, ch))
    ensures Blocked(ch) ==> Collect(sfx, start) == Stuck(ch)
    ensures !Blocked(ch) ==>
              var got := Output(acc.stdout + Received(ch).stdout, acc.stderr + Received(ch).stderr);
              Collect(sfx, start) == if Stops(sfx, ch) then Done(got, AfterSelect(ch))
                                     else Resume(got, Collect(sfx, AfterSelect(ch)))
  {
    if !Blocked(ch) && !Stops(sfx, ch) {
      ResumeStep(acc, Received(ch), Collect(sfx, AfterSelect(ch)));
    }
  }

  /** A wait that returns has taken a prefix of each channel, in arrival order, and
      stopped on the first stdout token ending with `sfx`; stderr tokens never stop it. */
  lemma CollectDone(sfx: string, ch: Channels)
    requires Collect(sfx, ch).Done?
    ensures ch.stdout == Collect(sfx, ch).out.stdout + Collect(sfx, ch).rest.stdout
    ensures ch.stderr == Collect(sfx, ch).out.stderr + Collect(sfx, ch).rest.stderr
    ensures StopsAtFirstSuffix(Collect(sfx, ch).out.stdout, sfx)
  {
    CollectTakesPrefixes(sfx, ch);
    CollectStopsAtSuffix(sfx, ch);
  }

  lemma {:induction false} CollectTakesPrefixes(sfx: string, ch: Channels)
    requires Collect(sfx, ch).Done?
    ensures ch.stdout == Collect(sfx, ch).out.stdout + Collect(sfx, ch).rest.stdout
    ensures ch.stderr == Collect(sfx, ch).out.stderr + Collect(sfx, ch).rest.stderr
    decreases |ch.schedule|
  {
    SelectSplits(ch);
    if !Stops(sfx, ch) {
      var got, next := Received(ch), AfterSelect(ch);
      CollectTakesPrefixes(sfx, next);
      var w := Collect(sfx, next);
      assert Collect(sfx, ch) == Done(Output(got.stdout + w.out.stdout, got.stderr + w.out.stderr), w.rest);
      Associative(got.stdout, w.out.stdout, w.rest.stdout);
      Associative(got.stderr, w.out.stderr, w.rest.stderr);
    }
  }

  /** A `select` splits each channel into what it received and what is left. */
  lemma SelectSplits(ch: Channels)
    requires !Blocked(ch)
    ensures ch.stdout == Received(ch).stdout + AfterSelect(ch).stdout
    ensures ch.stderr == Received(ch).stderr + AfterSelect(ch).stderr
  {
    if Serve(ch) == FromStdout {
      assert ch.stdout == [ch.stdout[0]] + ch.stdout[1..];
    } else {
      assert ch.stderr == [ch.stderr[0]] + ch.stderr[1..];
    }
  }

  lemma {:induction false} CollectStopsAtSuffix(sfx: string, ch: Channels)
    requires Collect(sfx, ch).Done?
    ensures StopsAtFirstSuffix(Collect(sfx, ch).out.stdout, sfx)
    decreases |ch.schedule|
  {
    if !Stops(sfx, ch) {
      var got, next := Received(ch), AfterSelect(ch);
      CollectStopsAtSuffix(sfx, next);
      if got.stdout != [] {
        StopsAtFirstSuffixCons(got.stdout[0], Collect(sfx, next).out.stdout, sfx);
      } else {
        assert [] + Collect(sfx, next).out.stdout == Collect(sfx, next).out.stdout;
      }
    }
  }

  /** A line without the suffix in front of lines that stop at the first suffix. */
  lemma StopsAtFirstSuffixCons(line: string, lines: seq<string>, sfx: string)
    requires !HasSuffix(line, sfx) && StopsAtFirstSuffix(lines, sfx)
    ensures StopsAtFirstSuffix([line] + lines, sfx)
  {
    var all := [line] + lines;
    assert forall i :: 0 < i < |all| ==> all[i] == lines[i - 1];
  }

  /** Every `select` of a wait that returns took one token from one channel. */
  lemma {:induction false} CollectCountsSelects(sfx: string, ch: Channels)
    requires Collect(sfx, ch).Done?
    ensures var w := Collect(sfx, ch);
            |w.rest.schedule| < |ch.schedule| &&
            |w.out.stdout| + |w.out.stderr| == |ch.schedule| - |w.rest.schedule| &&
            w.rest.schedule == ch.schedule[|ch.schedule| - |w.rest.schedule|..]
    decreases |ch.schedule|
  {
    var next := AfterSelect(ch);
    if !Stops(sfx, ch) {
      CollectCountsSelects(sfx, next);
      var w := Collect(sfx, next);
      assert ch.schedule[1..][|next.schedule| - |w.rest.schedule|..] == ch.schedule[|ch.schedule| - |w.rest.schedule|..];
    }
  }

  /** A wait that blocks has used up the schedule or both channels, and no stdout token
      it took ends with `sfx`. */
  lemma {:induction false} CollectStuck(sfx: string, ch: Channels)
    requires Collect(sfx, ch).Stuck?
    ensures var rest := Collect(sfx, ch).rest;
            Blocked(rest) &&
            |rest.stdout| <= |ch.stdout| && rest.stdout == ch.stdout[|ch.stdout| - |rest.stdout|..] &&
            |rest.stderr| <= |ch.stderr| && rest.stderr == ch.stderr[|ch.stderr| - |rest.stderr|..] &&
            forall i :: 0 <= i < |ch.stdout| - |rest.stdout| ==> !HasSuffix(ch.stdout[i], sfx)
    decreases |ch.schedule|
  {
    if !Blocked(ch) {
      var next := AfterSelect(ch);
      CollectStuck(sfx, next);
      var rest := Collect(sfx, next).rest;
      if Serve(ch) == FromStdout {
        assert ch.stdout[1..][|next.stdout| - |rest.stdout|..] == ch.stdout[|ch.stdout| - |rest.stdout|..];
        forall i | 0 < i < |ch.stdout| - |rest.stdout| ensures !HasSuffix(ch.stdout[i], sfx) {
          assert ch.stdout[i] == next.stdout[i - 1];
        }
      } else {
        assert ch.stderr[1..][|next.stderr| - |rest.stderr|..] == ch.stderr[|ch.stderr| - |rest.stderr|..];
      }
    }
  }

  /** With no stderr token pending, the wait returns exactly the stdout tokens up to and
      including the first that ends with `sfx`, in order, once the schedule allows that
      many `select`s. */
  lemma {:induction false} CollectWithoutStderr(sfx: string, ch: Channels, i: nat)
    requires ch.stderr == [] && i < |ch.stdout| && i < |ch.schedule|
    requires HasSuffix(ch.stdout[i], sfx)
    requires forall j :: 0 <= j < i ==> !HasSuffix(ch.stdout[j], sfx)
    ensures Collect(sfx, ch) == Done(Output(ch.stdout[..i + 1], []), Channels(ch.stdout[i + 1..], [], ch.schedule[i + 1..]))
    decreases i
  {
    var next := Channels(ch.stdout[1..], [], ch.schedule[1..]);
    assert AfterSelect(ch) == next && Received(ch) == Output([ch.stdout[0]], []);
    if i > 0 {
      CollectWithoutStderr(sfx, next, i - 1);
      assert [ch.stdout[0]] + ch.stdout[1..][..i] == ch.stdout[..i + 1];
      assert ch.stdout[1..][i..] == ch.stdout[i + 1..];
      assert ch.schedule[1..][i..] == ch.schedule[i + 1..];
    } else {
      assert ch.stdout[..1] == [ch.stdout[0]];
    }
  }

  /** The converse of `CollectNeedsSuffix`: once some pending stdout token ends with
      `sfx` and the schedule allows a `select` for every pending token, the wait
      returns, whatever stderr tokens are interleaved. */
  lemma {:induction false} CollectReturns(sfx: string, ch: Channels)
    requires |ch.schedule| >= |ch.stdout| + |ch.stderr|
    requires exists i :: 0 <= i < |ch.stdout| && HasSuffix(ch.stdout[i], sfx)
    ensures Collect(sfx, ch).Done?
    decreases |ch.schedule|
  {
    var i :| 0 <= i < |ch.stdout| && HasSuffix(ch.stdout[i], sfx);
    assert !Blocked(ch);
    if !Stops(sfx, ch) {
      var next := AfterSelect(ch);
      if Serve(ch) == FromStdout {
        assert i > 0 && next.stdout[i - 1] == ch.stdout[i];
      } else {
        assert next.stdout[i] == ch.stdout[i];
      }
      CollectReturns(sfx, next);
    }
  }

  /** A wait returns only if some stdout token ends with `sfx`: without one it blocks
      forever, whatever the schedule, as there is no timeout. */
  lemma CollectNeedsSuffix(sfx: string, ch: Channels)
    requires Collect(sfx, ch).Done?
    ensures exists i :: 0 <= i < |ch.stdout| && HasSuffix(ch.stdout[i], sfx)
  {
    CollectDone(sfx, ch);
    var n := |Collect(sfx, ch).out.stdout|;
    assert HasSuffix(ch.stdout[n - 1], sfx);
  }

  /** The message of the error `Exec` returns when stderr output arrived. */
  function ExecFailure(stderr: seq<string>): string {
    "failed to execute command: " + Join(stderr, "\n")
  }

  /** The text of `Exec`'s error gives the stderr lines back, in order, when none of
      them holds a newline of its own. */
  lemma ExecFailureLines(stderr: seq<string>)
    requires stderr != [] && forall i :: 0 <= i < |stderr| ==> '\n' !in stderr[i]
    ensures var m := ExecFailure(stderr);
            HasPrefix(m, "failed to execute command: ") && Unframe(m[27..] + "\n") == stderr
  {
    JoinLines(stderr);
    UnframeFrame(stderr);
    assert ExecFailure(stderr)[27..] == Join(stderr, "\n");
  }

  /** What `Exec` returns, for the channels as they stand when its command is sent. */
  function ExecReply(ch: Channels): (r: Reply<Output>)
    ensures r.Value? ==> r.value.stderr == [] && StopsAtFirstSuffix(r.value.stdout, PROMPT)
    ensures r.Value? ==> |r.value.stdout| <= |ch.stdout| && r.value.stdout == ch.stdout[..|r.value.stdout|]
    ensures r.Error? ==> Collect(PROMPT, ch).Done? && Collect(PROMPT, ch).out.stderr != [] &&
                         r.message == ExecFailure(Collect(PROMPT, ch).out.stderr)
    ensures r.Error? ==> var taken := Collect(PROMPT, ch).out.stderr;
                         |taken| <= |ch.stderr| && ch.stderr[..|taken|] == taken
    ensures r.Hang? <==> Collect(PROMPT, ch).Stuck?
    ensures Collect(PROMPT, ch).Done? ==> (r.Value? <==> Collect(PROMPT, ch).out.stderr == [])
  {
    match Collect(PROMPT, ch)
    case Stuck(_) => Hang
    case Done(out, rest) =>
      CollectDone(PROMPT, ch);
      if |out.stderr| != 0 then
        assert out.stderr == ch.stderr[..|out.stderr|];
        Error(ExecFailure(out.stderr))
      else Value(out)
  }

  /** `Exec` hangs only for want of a prompt: with a prompt token pending and a
      `select` scheduled for every pending token, it returns a value or an error. */
  lemma ExecAnswers(ch: Channels)
    requires |ch.schedule| >= |ch.stdout| + |ch.stderr|
    requires exists i :: 0 <= i < |ch.stdout| && HasSuffix(ch.stdout[i], PROMPT)
    ensures !ExecReply(ch).Hang?
  {
    CollectReturns(PROMPT, ch);
  }

  /** A command that produces no stderr output returns the stdout tokens up to and
      including the prompt, in order, with empty stderr. */
  lemma ExecSucceedsWithoutStderr(ch: Channels, i: nat)
    requires ch.stderr == [] && i < |ch.stdout| && i < |ch.schedule|
    requires HasSuffix(ch.stdout[i], PROMPT)
    requires forall j :: 0 <= j < i ==> !HasSuffix(ch.stdout[j], PROMPT)
    ensures ExecReply(ch) == Value(Output(ch.stdout[..i + 1], []))
  {
    CollectWithoutStderr(PROMPT, ch, i);
  }

  /** A stderr token served before the prompt fails the command, and the message
      carries that token; the stdout gathered is dropped. */
  lemma ExecFailsOnStderr(ch: Channels, e: string)
    requires ch.stdout == [PROMPT] && ch.stderr == [e] && ch.schedule == [FromStderr, FromStdout]
    ensures ExecReply(ch) == Error("failed to execute command: " + e)
  {
    var next := Channels([PROMPT], [], [FromStdout]);
    assert Serve(ch) == FromStderr;
    assert Channels(ch.stdout, ch.stderr[1..], ch.schedule[1..]) == next;
    assert HasSuffix(PROMPT, PROMPT);
    assert Collect(PROMPT, next) == Done(Output([PROMPT], []), Channels([], [], []));
    assert Collect(PROMPT, ch) == Done(Output([PROMPT], [e]), Channels([], [], []));
    assert Join([e], "\n") == e;
  }

  /** A child that writes some output and then the prompt in one go: the scanner
      delivers the whole output as ONE token, newlines included (the marker's offset
      decides the cut), then the marker, and `Exec` returns both. With `x` being
      `Logging in...\n`, the line arrives with its newline. */
  lemma ExecOutputThenPrompt(x: string, schedule: seq<Source>)
    requires x != [] && !Contains(x, PROMPT) && |schedule| >= 2
    ensures ExecReply(Channels(Tokenize(x + PROMPT).tokens, [], schedule)) == Value(Output([x, PROMPT], []))
  {
    TokenizeBeforePrompt(x);
    assert Tokenize(x + PROMPT).tokens == [x, PROMPT];
    ExecLineThenPrompt(x, schedule);
  }

  lemma ExecLineThenPrompt(x: string, schedule: seq<Source>)
    requires !Contains(x, PROMPT) && |schedule| >= 2
    ensures ExecReply(Channels([x, PROMPT], [], schedule)) == Value(Output([x, PROMPT], []))
  {
    var ch := Channels([x, PROMPT], [], schedule);
    assert HasSuffix(PROMPT, PROMPT);
    if HasSuffix(x, PROMPT) {
      SuffixOccurs(x, PROMPT);
    }
    ExecSucceedsWithoutStderr(ch, 1);
    assert ch.stdout[..2] == [x, PROMPT];
  }

  /** `SessionIO`: the command lines sent to the stdin channel so far and the tokens
      pending on the stdout and stderr channels. Process handle, pipes, goroutines and
      the mutex are not represented. */
  class SessionIO {
    var stdinLines: seq<string>
    var stdout: seq<string>
    var stderr: seq<string>
    var schedule: seq<Source>

    function Pending(): Channels
      reads this
    {
      Channels(stdout, stderr, schedule)
    }

    /** What the writer pump has written to the child's stdin. */
    function StdinBytes(): string
      reads this
    {
      Frame(stdinLines)
    }

    /** The channels and pumps of a freshly started child: its stdout and stderr run
        through the reader pump; nothing is sent yet. */
    constructor (childStdout: string, childStderr: string, schedule: seq<Source>)
      ensures stdinLines == []
      ensures Pending() == Channels(Tokenize(childStdout).tokens, Tokenize(childStderr).tokens, schedule)
    {
      var outTokens, outRest := CopyLinesToChan(childStdout);
      var errTokens, errRest := CopyLinesToChan(childStderr);
      stdinLines := [];
      stdout := outTokens;
      stderr := errTokens;
      this.schedule := schedule;
    }

    /** `WaitForSuffix`: gathers tokens until a stdout token ends with `sfx`. Its error
        result is always nil, so the reply is never an `Error`. */
    method WaitForSuffix(sfx: string) returns (r: Reply<Output>)
      modifies this
      ensures stdinLines == old(stdinLines)
      ensures Pending() == Collect(sfx, old(Pending())).rest
      ensures Collect(sfx, old(Pending())).Done? ==> r == Value(Collect(sfx, old(Pending())).out)
      ensures Collect(sfx, old(Pending())).Stuck? ==> r == Hang
    {
      var stdoutLines: seq<string> := [];
      var stderrLines: seq<string> := [];
      var ch := Pending();
      ghost var start := ch;
      var blocked := false;
      while true
        invariant stdinLines == old(stdinLines) && start == old(Pending())
        invariant Collect(sfx, start) == Resume(Output(stdoutLines, stderrLines), Collect(sfx, ch))
        invariant blocked ==> Collect(sfx, start) == Stuck(ch)
        decreases |ch.schedule|
      {
        CollectAdvance(sfx, start, Output(stdoutLines, stderrLines), ch);
        if ch.schedule == [] || (ch.stdout == [] && ch.stderr == []) {
          blocked := true;
          break;
        }
        ghost var before := ch;
        var gotPrompt := false;
        if Serve(ch) == FromStdout {
          var newStdout := ch.stdout[0];
          ch := Channels(ch.stdout[1..], ch.stderr, ch.schedule[1..]);
          stdoutLines := stdoutLines + [newStdout];
          if HasSuffix(newStdout, sfx) {
            gotPrompt := true;
          }
          assert stderrLines + [] == stderrLines;
        } else {
          var newStderr := ch.stderr[0];
          ch := Channels(ch.stdout, ch.stderr[1..], ch.schedule[1..]);
          stderrLines := stderrLines + [newStderr];
          assert stdoutLines + [] == stdoutLines;
        }
        assert ch == AfterSelect(before) && gotPrompt == Stops(sfx, before);
        if gotPrompt {
          break;
        }
      }
      stdout, stderr, schedule := ch.stdout, ch.stderr, ch.schedule;
      if blocked {
        return Hang;
      }
      r := Value(Output(stdoutLines, stderrLines));
    }

    /** `WaitForPrompt`: waits for a stdout token that ends with the prompt marker. */
    method WaitForPrompt() returns (r: Reply<Output>)
      modifies this
      ensures stdinLines == old(stdinLines)
      ensures Pending() == Collect(PROMPT, old(Pending())).rest
      ensures Collect(PROMPT, old(Pending())).Done? ==> r == Value(Collect(PROMPT, old(Pending())).out)
      ensures Collect(PROMPT, old(Pending())).Stuck? ==> r == Hang
    {
      r := WaitForSuffix(PROMPT);
    }

    /** `Exec`: sends `command` on stdin, waits for the prompt, and fails with the
        joined stderr text if any stderr token arrived meanwhile. */
    method Exec(command: string) returns (r: Reply<Output>)
      modifies this
      ensures stdinLines == old(stdinLines) + [command]
      ensures StdinBytes() == old(StdinBytes()) + command + "\n"
      ensures Pending() == Collect(PROMPT, old(Pending())).rest
      ensures r == ExecReply(old(Pending()))
    {
      stdinLines := stdinLines + [command];
      assert stdinLines[..|stdinLines| - 1] == old(stdinLines);
      var cmdOut := WaitForPrompt();
      if cmdOut.Hang? {
        return Hang;
      }
      if |cmdOut.value.stderr| != 0 {
        return Error(ExecFailure(cmdOut.value.stderr));
      }
      r := cmdOut;
    }

    /** `Close`: sends `quit` without waiting for a prompt and always succeeds. Waiting
        for the process to exit is not represented. */
    method Close() returns (r: Reply<()>)
      modifies this
      ensures stdinLines == old(stdinLines) + ["quit"]
      ensures StdinBytes() == old(StdinBytes()) + "quit\n"
      ensures Pending() == old(Pending())
      ensures r == Value(())
    {
      stdinLines := stdinLines + ["quit"];
      assert stdinLines[..|stdinLines| - 1] == old(stdinLines);
      r := Value(());
    }
  }

  /** `NewSessionIO` after the child has started: the session is handed out only once
      the first prompt has been seen; if it never comes, the call blocks forever. */
  method NewSessionIO(childStdout: string, childStderr: string, schedule: seq<Source>) returns (r: Reply<SessionIO>)
    ensures var started := Channels(Tokenize(childStdout).tokens, Tokenize(childStderr).tokens, schedule);
            (r.Hang? <==> Collect(PROMPT, started).Stuck?) &&
            (r.Value? ==> fresh(r.value) && r.value.stdinLines == [] && r.value.Pending() == Collect(PROMPT, started).rest)
    ensures !r.Error?
  {
    var sess := new SessionIO(childStdout, childStderr, schedule);
    var waited := sess.WaitForPrompt();
    if waited.Hang? {
      return Hang;
    }
    r := Value(sess);
  }
}
