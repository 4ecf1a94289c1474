/**
  The matchers of score/itf/core/process/console.py on top of the queue that they read from: what
  `mark` and `run_sh_cmd_output` decide is about the lines that were put, since the clear with which
  both begin.
 */
module ConsoleQueue {
  import opened Text
  import opened LineQueue
  import opened Matching
  import opened ShellCommandProtocol

  /** The lines that the events deliver. */
  function Texts(events: seq<Event>): seq<string>
    requires AllLines(events, 0, |events|)
  {
    seq(|events|, i requires 0 <= i < |events| => events[i].text)
  }

  /** The events are what the calls of `get` return behind a clear, along the run that follows it. */
  ghost predicate Delivers(events: seq<Event>, maxSize: int, past: seq<Op<string>>, ops: seq<Op<string>>) {
    && AllLines(events, 0, |events|)
    && Outputs(maxSize, AfterClear(past, ops)) == Outputs(maxSize, past) + Texts(events)
  }

  /** When the reader keeps up since the clear, the lines it sees are the first ones that were put since. */
  lemma SeesLinesPut(events: seq<Event>, maxSize: int, past: seq<Op<string>>, ops: seq<Op<string>>)
    requires Delivers(events, maxSize, past, ops) && NoClear(ops) && KeepsUp(maxSize, ops)
    ensures |events| <= |Puts(ops)| && Texts(events) == Puts(ops)[..|events|]
    ensures Run(maxSize, AfterClear(past, ops)).queue == [] ==> Texts(events) == Puts(ops)
  {
    ClearStartsAfresh(maxSize, past, ops);
    NothingSkipped(maxSize, ops);
    var earlier, got, rest := Outputs(maxSize, past), Outputs(maxSize, ops), Run(maxSize, ops).queue;
    SameBehind(earlier, Texts(events), got);
    assert (got + rest)[..|got|] == got;
    assert got + [] == got;
  }

  lemma SameBehind(a: seq<string>, b: seq<string>, c: seq<string>)
    requires a + b == a + c
    ensures b == c
  {
    assert b == (a + b)[|a|..] && c == (a + c)[|a|..];
  }

  /** The messages match, in order, at strictly increasing positions among the given lines. */
  ghost predicate EmbedsIn(lines: seq<string>, msgs: seq<string>, p: seq<nat>, check: Check) {
    && |p| == |msgs|
    && (forall i :: 0 <= i < |p| ==> p[i] < |lines| && check(lines[p[i]], msgs[i]))
    && (forall i, j :: 0 <= i < j < |p| ==> p[i] < p[j])
  }

  lemma EmbedsInTexts(events: seq<Event>, msgs: seq<string>, p: seq<nat>, check: Check)
    requires AllLines(events, 0, |events|)
    ensures Embeds(events, 0, msgs, p, check) <==> EmbedsIn(Texts(events), msgs, p, check)
  {
  }

  /**
    `mark` finds its first `n` messages exactly when they match at increasing positions among the
    lines put since the clear, as far as they have been read.
   */
  lemma MarkOnQueue(
    maxSize: int, past: seq<Op<string>>, ops: seq<Op<string>>, events: seq<Event>, msgs: seq<string>, n: nat,
    check: Check)
    requires Delivers(events, maxSize, past, ops) && NoClear(ops) && KeepsUp(maxSize, ops) && n <= |msgs|
    ensures |events| <= |Puts(ops)|
    ensures AllFound(Positions(events, 0, msgs, check)[..n])
       <==> exists p :: EmbedsIn(Puts(ops)[..|events|], msgs[..n], p, check)
  {
    SeesLinesPut(events, maxSize, past, ops);
    MarkIsComplete(events, 0, msgs, n, check);
    if p :| Embeds(events, 0, msgs[..n], p, check) {
      EmbedsInTexts(events, msgs[..n], p, check);
    }
    if p :| EmbedsIn(Puts(ops)[..|events|], msgs[..n], p, check) {
      EmbedsInTexts(events, msgs[..n], p, check);
    }
  }

  lemma {:induction false} PutLinesArrive(events: seq<Event>, from: nat, lines: seq<string>)
    requires AllLines(events, 0, |events|) && from + |lines| <= |events|
    requires lines == Texts(events)[from..from + |lines|]
    ensures Arrive(events, from, lines)
    decreases |lines|
  {
    if lines != [] {
      assert Texts(events)[from..from + |lines|][0] == events[from].text;
      assert lines[1..] == Texts(events)[from + 1..from + |lines|];
      PutLinesArrive(events, from + 1, lines[1..]);
    }
  }

  /**
    Since the clear, output lines and echoes are put, and then the line with the exit code: once they have been read,
    `run_sh_cmd_output` returns that code and the output, unless that line contains the command.
   */
  lemma CommandOnQueue(
    maxSize: int, past: seq<Op<string>>, ops: seq<Op<string>>, events: seq<Event>, lines: seq<string>, p: string,
    r: nat, cmd: string)
    requires Delivers(events, maxSize, past, ops) && NoClear(ops) && KeepsUp(maxSize, ops)
    requires lines + [DoneLine(p, r)] <= Puts(ops) && |lines| < |events|
    requires AllOutputOrEcho(lines, cmd) && !Contains(p, MARKER) && !Contains(DoneLine(p, r), cmd)
    ensures Protocol(events, 0, cmd, []) == Returned(r, Strip(Join("\n", OutputLines(lines) + [p])))
  {
    var all := lines + [DoneLine(p, r)];
    SeesLinesPut(events, maxSize, past, ops);
    assert all == Texts(events)[0..0 + |all|];
    PutLinesArrive(events, 0, all);
    RoundTrip(events, lines, p, r, cmd);
  }
}
