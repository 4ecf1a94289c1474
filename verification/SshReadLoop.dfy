/**
  `_read_output_with_timeout` and `execute_command_output` of score/itf/core/com/ssh.py, over a channel
  whose environment is adversarial.
 */
module SshReadLoop {
  import opened Text
  import opened Utf8
  import opened ChannelLines
  import opened SshChannel

  const RECV_LIMIT := 32768
  const MAX_WAIT := 500
  const PAUSE := 50

  datatype Exit = Finished | TimedOut | Failed

  datatype Verdict = Again | Stop(exit: Exit)

  // ---- what one pass does ----

  /** The channel and, for each stream, the lines so far and the text held back. */
  datatype Progress = Progress(ch: State, out: Lines, err: Lines) {
    function Of(d: Direction): Lines {
      if d.Stdout? then out else err
    }

    /** One more chunk on a stream. */
    function More(d: Direction, data: seq<Byte>): Progress {
      var next := IterChannelLines(data, Of(d).partial);
      var acc := Lines(Of(d).lines + next.lines, next.partial);
      if d.Stdout? then this.(out := acc) else this.(err := acc)
    }
  }

  datatype Looked = Looked(p: Progress, didRead: bool, raised: bool)

  /** A look at one stream: when something is ready, read a chunk, split it and keep the rest. */
  function LookAt(env: Schedule, p: Progress, d: Direction): (r: Looked)
    ensures p.ch.Precedes(r.p.ch) && p.ch.step < r.p.ch.step
    ensures r.p.ch.Of(Other(d)).chunks == p.ch.Of(Other(d)).chunks
  {
    var ready := p.ch.AfterReady(env, d);
    if ready.Of(d).buffer == [] then Looked(p.(ch := ready), false, false)
    else
      var got := p.(ch := ready.AfterRecv(env, d, RECV_LIMIT));
      match ready.Receives(env, d, RECV_LIMIT)
      case Raised => Looked(got, false, true)
      case Data(bytes) => Looked(got.More(d, bytes), true, false)
  }

  /** One look at each captured stream, as the loop does both before and after the exit status is known. */
  function LookAtBoth(env: Schedule, p: Progress, separateStderr: bool): (r: Looked)
    ensures p.ch.Precedes(r.p.ch) && p.ch.step < r.p.ch.step
    ensures !separateStderr ==> r.p.ch.err.chunks == p.ch.err.chunks
  {
    var first := LookAt(env, p, Stdout);
    if first.raised || !separateStderr then first
    else
      var second := LookAt(env, first.p, Stderr);
      Looked(second.p, first.didRead || second.didRead, second.raised)
  }

  datatype Passed = Passed(p: Progress, verdict: Verdict)

  /** The exit status is known: wait for more, look once again, and stop when there was nothing. */
  function DrainPass(env: Schedule, p: Progress, now: int, deadline: int, separateStderr: bool): (r: Passed)
    ensures p.ch.Precedes(r.p.ch)
    ensures !separateStderr ==> r.p.ch.err.chunks == p.ch.err.chunks
  {
    var remaining := deadline - now;
    var length, pause := Min(MAX_WAIT, AtLeastZero(remaining)), Min(PAUSE, AtLeastZero(remaining));
    var look := LookAtBoth(env, p.(ch := p.ch.AfterWait(env, now, length, pause)), separateStderr);
    Passed(look.p, if look.raised then Stop(Failed) else if look.didRead then Again else Stop(Finished))
  }

  function AtLeastZero(n: int): nat {
    if n > 0 then n else 0
  }

  /** Nothing was ready: ask for the exit status, and drain or wait. */
  function NothingReady(env: Schedule, p: Progress, now: int, deadline: int, separateStderr: bool): (r: Passed)
    ensures p.ch.Precedes(r.p.ch)
    ensures !separateStderr ==> r.p.ch.err.chunks == p.ch.err.chunks
  {
    var asked := p.(ch := p.ch.AfterExitStatus(env));
    if asked.ch.exited then DrainPass(env, asked, now, deadline, separateStderr)
    else if now < deadline then
      Passed(asked.(ch := asked.ch.AfterWait(env, now, Min(MAX_WAIT, deadline - now), Min(PAUSE, deadline - now))), Again)
    else Passed(asked, Again)
  }

  function LoopPass(env: Schedule, p: Progress, deadline: int, separateStderr: bool): (r: Passed)
    ensures p.ch.Precedes(r.p.ch) && p.ch.clock < r.p.ch.clock
    ensures !separateStderr ==> r.p.ch.err.chunks == p.ch.err.chunks
    ensures r.verdict.Again? ==> p.ch.clock <= deadline
  {
    var start := p.(ch := p.ch.AfterTime(env));
    var now := start.ch.clock;
    if now > deadline then Passed(start, Stop(TimedOut))
    else
      var look := LookAtBoth(env, start, separateStderr);
      if look.raised then Passed(look.p, Stop(Failed))
      else if look.didRead then Passed(look.p, Again)
      else NothingReady(env, look.p, now, deadline, separateStderr)
  }

  datatype Ended = Ended(p: Progress, exit: Exit)

  /** All the passes. It ends however much data arrives, because the clock advances with every pass. */
  function LoopRun(env: Schedule, p: Progress, deadline: int, separateStderr: bool): (r: Ended)
    ensures p.ch.Precedes(r.p.ch)
    ensures !separateStderr ==> r.p.ch.err.chunks == p.ch.err.chunks
    decreases if p.ch.clock <= deadline then deadline - p.ch.clock + 1 else 0
  {
    var pass := LoopPass(env, p, deadline, separateStderr);
    match pass.verdict
    case Again => LoopRun(env, pass.p, deadline, separateStderr)
    case Stop(exit) => Ended(pass.p, exit)
  }

  // ---- the code ----

  method ReadReady(channel: Channel, separateStderr: bool, out: Lines, err: Lines)
    returns (out': Lines, err': Lines, didRead: bool, raised: bool)
    modifies channel`s
    ensures Looked(Progress(channel.s, out', err'), didRead, raised)
         == LookAtBoth(channel.env, Progress(old(channel.s), out, err), separateStderr)
  {
    out', err', didRead, raised := out, err, false, false;
    var ready := channel.RecvReady();
    if ready {
      var data := channel.Recv(RECV_LIMIT);
      if data.Raised? {
        return out, err, false, true;
      }
      var more := IterChannelLines(data.bytes, out.partial);
      out' := Lines(out.lines + more.lines, more.partial);
      didRead := true;
    }
    if separateStderr {
      ready := channel.RecvStderrReady();
      if ready {
        var data := channel.RecvStderr(RECV_LIMIT);
        if data.Raised? {
          return out', err', didRead, true;
        }
        var more := IterChannelLines(data.bytes, err.partial);
        err' := Lines(err.lines + more.lines, more.partial);
        didRead := true;
      }
    }
  }

  method Iterate(channel: Channel, deadline: int, separateStderr: bool, out: Lines, err: Lines)
    returns (out': Lines, err': Lines, verdict: Verdict)
    modifies channel`s
    ensures Passed(Progress(channel.s, out', err'), verdict)
         == LoopPass(channel.env, Progress(old(channel.s), out, err), deadline, separateStderr)
  {
    var now := channel.Time();
    if now > deadline {
      return out, err, Stop(TimedOut);
    }
    var didRead, raised;
    out', err', didRead, raised := ReadReady(channel, separateStderr, out, err);
    if raised {
      return out', err', Stop(Failed);
    }
    if didRead {
      return out', err', Again;
    }
    out', err', verdict := AskForExit(channel, now, deadline, separateStderr, out', err');
  }

  /** The second half of a pass. */
  method AskForExit(channel: Channel, now: int, deadline: int, separateStderr: bool, out: Lines, err: Lines)
    returns (out': Lines, err': Lines, verdict: Verdict)
    modifies channel`s
    ensures Passed(Progress(channel.s, out', err'), verdict)
         == NothingReady(channel.env, Progress(old(channel.s), out, err), now, deadline, separateStderr)
  {
    var remaining := deadline - now;
    var exitReady := channel.ExitStatusReady();
    if exitReady {
      out', err', verdict := DrainOnce(channel, now, deadline, separateStderr, out, err);
      return;
    }
    if remaining > 0 {
      channel.WaitFor(now, Min(MAX_WAIT, remaining), Min(PAUSE, remaining));
    }
    return out, err, Again;
  }

  method DrainOnce(channel: Channel, now: int, deadline: int, separateStderr: bool, out: Lines, err: Lines)
    returns (out': Lines, err': Lines, verdict: Verdict)
    modifies channel`s
    ensures Passed(Progress(channel.s, out', err'), verdict)
         == DrainPass(channel.env, Progress(old(channel.s), out, err), now, deadline, separateStderr)
  {
    var remaining := deadline - now;
    var waitAfterExit := if remaining <= 0 then 0 else Min(MAX_WAIT, remaining);
    channel.WaitFor(now, waitAfterExit, Min(PAUSE, if remaining > 0 then remaining else 0));
    var drained, raised;
    out', err', drained, raised := ReadReady(channel, separateStderr, out, err);
    if raised {
      return out', err', Stop(Failed);
    }
    verdict := if drained then Again else Stop(Finished);
  }

  // ---- what every step of the loop keeps ----

  /** The lines and the partial after reading some chunks. */
  function Reassembled(chunks: seq<seq<Byte>>): Lines {
    FeedAll(DecodeAll(chunks))
  }

  lemma ReassembledSnoc(chunks: seq<seq<Byte>>, data: seq<Byte>)
    ensures Reassembled(chunks + [data])
         == var acc := Reassembled(chunks); var next := IterChannelLines(data, acc.partial);
            Lines(acc.lines + next.lines, next.partial)
  {
    var all := DecodeAll(chunks + [data]);
    assert all[..|all| - 1] == DecodeAll(chunks);
  }

  /** One-shot `splitlines` of everything that was read. */
  function LinesOf(chunks: seq<seq<Byte>>): seq<string> {
    SplitLines(Flatten(DecodeAll(chunks)))
  }

  lemma FlushReassembled(chunks: seq<seq<Byte>>)
    ensures Flush(Reassembled(chunks)) == LinesOf(chunks)
    ensures chunks == [] ==> LinesOf(chunks) == [] && Reassembled(chunks) == Lines([], "")
  {
    FlushedLines(DecodeAll(chunks));
    assert chunks == [] ==> DecodeAll(chunks) == [];
  }

  /** What arrived is the schedule's, and the lines are those of the chunks read so far. */
  predicate Good(env: Schedule, p: Progress) {
    && p.ch.Valid(env)
    && p.out == Reassembled(p.ch.out.chunks) && p.err == Reassembled(p.ch.err.chunks)
  }

  /** The last look at each captured stream came after the given step, and there was nothing left to read. */
  predicate NothingFound(env: Schedule, ch: State, separateStderr: bool, since: nat) {
    && ch.Drained(env, Stdout) && since < ch.outChecked
    && (separateStderr ==> ch.Drained(env, Stderr) && since < ch.errChecked)
  }

  /** What a look leaves alone, whatever it finds. */
  lemma LookLeaves(env: Schedule, p: Progress, d: Direction)
    ensures var r := LookAt(env, p, d); var a, b := p.ch, r.p.ch;
            && b.failed == (a.failed || r.raised) && !(r.didRead && r.raised)
            && b.exitSeen == a.exitSeen && b.exitAt == a.exitAt && b.waits == a.waits
            && (!r.didRead ==> b.Of(d).chunks == a.Of(d).chunks)
  {
  }

  lemma LookMarks(env: Schedule, p: Progress, d: Direction)
    ensures var a, b := p.ch, LookAt(env, p, d).p.ch;
            b.CheckedAt(Other(d)) == a.CheckedAt(Other(d)) && a.step < b.CheckedAt(d)
  {
  }

  lemma MoreReassembled(p: Progress, d: Direction, got: State, bytes: seq<Byte>)
    requires p.out == Reassembled(p.ch.out.chunks) && p.err == Reassembled(p.ch.err.chunks)
    requires got.Of(d).chunks == p.ch.Of(d).chunks + [bytes] && got.Of(Other(d)).chunks == p.ch.Of(Other(d)).chunks
    ensures var more := p.(ch := got).More(d, bytes);
            more.out == Reassembled(got.out.chunks) && more.err == Reassembled(got.err.chunks)
  {
    ReassembledSnoc(p.ch.Of(d).chunks, bytes);
  }

  lemma LookKeeps(env: Schedule, p: Progress, d: Direction)
    requires Good(env, p)
    ensures var r := LookAt(env, p, d);
            Good(env, r.p) && (!r.didRead && !r.raised ==> r.p.ch.Drained(env, d))
  {
    var ready := p.ch.AfterReady(env, d);
    ReadyValid(p.ch, env, d);
    if ready.Of(d).buffer != [] {
      var got := ready.AfterRecv(env, d, RECV_LIMIT);
      RecvValid(ready, env, d, RECV_LIMIT);
      if ready.Receives(env, d, RECV_LIMIT).Data? {
        MoreReassembled(p, d, got, ready.Receives(env, d, RECV_LIMIT).bytes);
      }
    }
  }

  lemma LookBothKeeps(env: Schedule, p: Progress, separateStderr: bool)
    requires Good(env, p)
    ensures var r := LookAtBoth(env, p, separateStderr); var a, b := p.ch, r.p.ch;
            && Good(env, r.p) && b.failed == (a.failed || r.raised)
            && b.exitSeen == a.exitSeen && b.exitAt == a.exitAt && b.waits == a.waits
            && (!r.didRead && !r.raised ==> NothingFound(env, b, separateStderr, a.step))
  {
    LookKeeps(env, p, Stdout);
    LookLeaves(env, p, Stdout);
    LookMarks(env, p, Stdout);
    var first := LookAt(env, p, Stdout);
    if !first.raised && separateStderr {
      LookKeeps(env, first.p, Stderr);
      LookLeaves(env, first.p, Stderr);
      LookMarks(env, first.p, Stderr);
    }
  }

  predicate WaitsWithin(waits: seq<Wait>, deadline: int) {
    forall i :: 0 <= i < |waits| ==>
      0 <= waits[i].length <= 500 && waits[i].from + waits[i].length <= deadline
  }

  lemma WaitsMore(s: State, env: Schedule, now: int, length: nat, pause: nat, deadline: int)
    requires WaitsWithin(s.waits, deadline)
    requires length <= MAX_WAIT && now + length <= deadline
    requires pause <= MAX_WAIT && now + pause <= deadline
    ensures WaitsWithin(s.AfterWait(env, now, length, pause).waits, deadline)
  {
    var waits := s.AfterWait(env, now, length, pause).waits;
    assert waits[..|s.waits|] == s.waits;
    forall i | 0 <= i < |waits|
      ensures 0 <= waits[i].length <= 500 && waits[i].from + waits[i].length <= deadline
    {
      assert i < |s.waits| ==> waits[i] == s.waits[i];
    }
  }

  lemma WaitLeaves(s: State, env: Schedule, now: int, length: nat, pause: nat)
    ensures var w := s.AfterWait(env, now, length, pause);
            w.failed == s.failed && w.exitSeen == s.exitSeen && w.exitAt == s.exitAt
  {
  }

  lemma WaitKeeps(env: Schedule, p: Progress, now: int, length: nat, pause: nat, deadline: int)
    requires Good(env, p) && WaitsWithin(p.ch.waits, deadline)
    requires length <= MAX_WAIT && now + length <= deadline
    requires pause <= MAX_WAIT && now + pause <= deadline
    ensures var b := p.ch.AfterWait(env, now, length, pause);
            && Good(env, p.(ch := b)) && WaitsWithin(b.waits, deadline)
            && b.failed == p.ch.failed && b.exitSeen == p.ch.exitSeen && b.exitAt == p.ch.exitAt
  {
    WaitValid(p.ch, env, now, length, pause);
    WaitsMore(p.ch, env, now, length, pause, deadline);
    WaitLeaves(p.ch, env, now, length, pause);
  }

  /** The exit status was reported, and the last look at each captured stream, after that, found nothing. */
  predicate FinishedProperly(env: Schedule, ch: State, separateStderr: bool) {
    ch.exitSeen && NothingFound(env, ch, separateStderr, ch.exitAt)
  }

  /**
    A wait that starts at a given step or later, computed from some time left: it takes the whole 500
    ms or that time without anything arriving, or, after an error, is a pause of 50 ms; unless the end
    of the streams was received.
   */
  predicate QuietWait(env: Schedule, w: Wait, since: nat, left: nat) {
    && since <= w.at
    && match w.how
       case Whole => w.length == Min(500, left) && w.began + w.length <= w.until
       case Slept => since < w.at && env(w.at - 1).raises && w.length == Min(50, left) && w.began + w.length <= w.until
       case Woken => EndedBy(env, w.at + 1)
       case SelectRaised => false
  }

  function LastWait(ch: State): Wait
    requires ch.waits != []
  {
    ch.waits[|ch.waits| - 1]
  }

  /** Between the report of the exit and the last look, the loop has waited. */
  predicate WaitedOut(env: Schedule, ch: State, separateStderr: bool, deadline: int) {
    && ch.waits != []
    && QuietWait(env, LastWait(ch), ch.exitAt, AtLeastZero(deadline - LastWait(ch).from))
    && LastWait(ch).at < ch.outChecked && (separateStderr ==> LastWait(ch).at < ch.errChecked)
    && LastWait(ch).until <= ch.clock
  }

  /** The invariant of the loop, and what holds when it stops. */
  predicate Sound(env: Schedule, p: Progress, verdict: Verdict, deadline: int, separateStderr: bool) {
    && Good(env, p) && WaitsWithin(p.ch.waits, deadline) && p.ch.combine == !separateStderr
    && (p.ch.failed <==> verdict == Stop(Failed))
    && (verdict == Stop(TimedOut) ==> p.ch.clock > deadline)
    && (verdict == Stop(Finished) ==>
          FinishedProperly(env, p.ch, separateStderr) && WaitedOut(env, p.ch, separateStderr, deadline))
  }

  lemma MergedHasNoStderr(s: State, env: Schedule)
    requires s.Valid(env) && s.combine
    ensures s.err.Arrived() == []
  {
    MergedDeliversNoStderr(env, s.origin, s.step);
  }

  /** What a look finds empty was empty before it. */
  lemma NothingWasThere(env: Schedule, p: Progress, d: Direction)
    requires var r := LookAt(env, p, d); !r.didRead && !r.raised
    ensures p.ch.Of(d).buffer == []
  {
  }

  /** Both looks found nothing: then nothing at all was buffered before them. */
  lemma NothingWasBuffered(env: Schedule, p: Progress, separateStderr: bool)
    requires Good(env, p) && p.ch.combine == !separateStderr
    requires var r := LookAtBoth(env, p, separateStderr); !r.didRead && !r.raised
    ensures p.ch.IsEmpty()
  {
    NothingWasThere(env, p, Stdout);
    if separateStderr {
      var first := LookAt(env, p, Stdout);
      NothingWasThere(env, first.p, Stderr);
      StdoutLeavesStderr(env, p);
    } else {
      MergedHasNoStderr(p.ch, env);
    }
  }

  lemma StdoutLeavesStderr(env: Schedule, p: Progress)
    ensures p.ch.err.buffer <= LookAt(env, p, Stdout).p.ch.err.buffer
  {
  }

  /** The wait of a drain pass, seen from behind a look that found nothing. */
  lemma DrainWaits(env: Schedule, p: Progress, now: int, deadline: int, separateStderr: bool)
    requires Good(env, p) && p.ch.exitAt <= p.ch.step && p.ch.combine == !separateStderr
    requires DrainPass(env, p, now, deadline, separateStderr).verdict == Stop(Finished)
    ensures WaitedOut(env, DrainPass(env, p, now, deadline, separateStderr).p.ch, separateStderr, deadline)
  {
    var left := AtLeastZero(deadline - now);
    var b := p.ch.AfterWait(env, now, Min(MAX_WAIT, left), Min(PAUSE, left));
    var waited := p.(ch := b);
    var look := LookAtBoth(env, waited, separateStderr);
    WaitKeepsGood(env, p, now, Min(MAX_WAIT, left), Min(PAUSE, left));
    NothingWasBuffered(env, waited, separateStderr);
    WaitIsOut(env, p.ch, now, left);
    LookBothKeeps(env, waited, separateStderr);
    StillOut(env, p.ch, b, look.p.ch, now, deadline, separateStderr);
  }

  lemma WaitKeepsGood(env: Schedule, p: Progress, now: int, length: nat, pause: nat)
    requires Good(env, p)
    ensures var b := p.ch.AfterWait(env, now, length, pause);
            Good(env, p.(ch := b)) && b.exitAt == p.ch.exitAt && b.combine == p.ch.combine
  {
    WaitValid(p.ch, env, now, length, pause);
    WaitLeaves(p.ch, env, now, length, pause);
  }

  lemma SleepIsOut(env: Schedule, s: State, now: int, length: nat, left: nat)
    requires env(s.step).raises
    ensures var b := s.AfterSelect(env, now, length).AfterSleep(env, now, Min(PAUSE, left));
            && b.waits != [] && QuietWait(env, LastWait(b), s.step, left)
            && LastWait(b).from == now && LastWait(b).at < b.step && LastWait(b).until <= b.clock
  {
  }

  lemma WaitIsOut(env: Schedule, s: State, now: int, left: nat)
    requires var b := s.AfterWait(env, now, Min(MAX_WAIT, left), Min(PAUSE, left));
             b.IsEmpty() && b.ended == EndedBy(env, b.step)
    ensures var b := s.AfterWait(env, now, Min(MAX_WAIT, left), Min(PAUSE, left));
            && b.waits != [] && QuietWait(env, LastWait(b), s.step, left)
            && LastWait(b).from == now && LastWait(b).at < b.step && LastWait(b).until <= b.clock
  {
    if env(s.step).raises {
      SleepIsOut(env, s, now, Min(MAX_WAIT, left), left);
    }
  }

  /** A look that follows changes none of this. */
  lemma StillOut(env: Schedule, a: State, b: State, end: State, now: int, deadline: int, separateStderr: bool)
    requires b.waits != [] && QuietWait(env, LastWait(b), a.step, AtLeastZero(deadline - now))
    requires LastWait(b).from == now && LastWait(b).at < b.step && LastWait(b).until <= b.clock
    requires a.exitAt <= a.step && end.exitAt == a.exitAt && end.waits == b.waits && b.clock <= end.clock
    requires b.step < end.outChecked && (separateStderr ==> b.step < end.errChecked)
    ensures WaitedOut(env, end, separateStderr, deadline)
  {
  }

  lemma DrainKeeps(env: Schedule, p: Progress, now: int, deadline: int, separateStderr: bool)
    requires Sound(env, p, Again, deadline, separateStderr) && now <= deadline && p.ch.exitSeen
    ensures var r := DrainPass(env, p, now, deadline, separateStderr);
            Sound(env, r.p, r.verdict, deadline, separateStderr)
  {
    var remaining := deadline - now;
    var length, pause := Min(MAX_WAIT, AtLeastZero(remaining)), Min(PAUSE, AtLeastZero(remaining));
    WaitKeeps(env, p, now, length, pause, deadline);
    LookBothKeeps(env, p.(ch := p.ch.AfterWait(env, now, length, pause)), separateStderr);
    if DrainPass(env, p, now, deadline, separateStderr).verdict == Stop(Finished) {
      DrainWaits(env, p, now, deadline, separateStderr);
    }
  }

  lemma TimeKeeps(env: Schedule, p: Progress)
    requires Good(env, p)
    ensures Good(env, p.(ch := p.ch.AfterTime(env)))
  {
    NextValid(p.ch, env);
  }

  lemma ExitStatusKeeps(env: Schedule, p: Progress)
    requires Good(env, p)
    ensures Good(env, p.(ch := p.ch.AfterExitStatus(env)))
  {
    NextValid(p.ch, env);
  }

  lemma NothingReadyKeeps(env: Schedule, p: Progress, now: int, deadline: int, separateStderr: bool)
    requires Sound(env, p, Again, deadline, separateStderr) && now <= deadline
    ensures var r := NothingReady(env, p, now, deadline, separateStderr);
            Sound(env, r.p, r.verdict, deadline, separateStderr)
  {
    var asked := p.(ch := p.ch.AfterExitStatus(env));
    ExitStatusKeeps(env, p);
    if asked.ch.exited {
      DrainKeeps(env, asked, now, deadline, separateStderr);
    } else if now < deadline {
      WaitKeeps(env, asked, now, Min(MAX_WAIT, deadline - now), Min(PAUSE, deadline - now), deadline);
    }
  }

  lemma PassKeeps(env: Schedule, p: Progress, deadline: int, separateStderr: bool)
    requires Sound(env, p, Again, deadline, separateStderr)
    ensures var r := LoopPass(env, p, deadline, separateStderr);
            Sound(env, r.p, r.verdict, deadline, separateStderr)
  {
    var start := p.(ch := p.ch.AfterTime(env));
    var now := start.ch.clock;
    TimeKeeps(env, p);
    if now <= deadline {
      LookBothKeeps(env, start, separateStderr);
      var look := LookAtBoth(env, start, separateStderr);
      if !look.raised && !look.didRead {
        NothingReadyKeeps(env, look.p, now, deadline, separateStderr);
      }
    }
  }

  lemma {:induction false} RunKeeps(env: Schedule, p: Progress, deadline: int, separateStderr: bool)
    requires Sound(env, p, Again, deadline, separateStderr)
    ensures var r := LoopRun(env, p, deadline, separateStderr);
            Sound(env, r.p, Stop(r.exit), deadline, separateStderr)
    decreases if p.ch.clock <= deadline then deadline - p.ch.clock + 1 else 0
  {
    PassKeeps(env, p, deadline, separateStderr);
    var pass := LoopPass(env, p, deadline, separateStderr);
    if pass.verdict.Again? {
      RunKeeps(env, pass.p, deadline, separateStderr);
    }
  }

  // ---- what every pass reads ----

  /** What has been read, and up to `n` bytes of what is waiting behind it. */
  function Due(s: State, d: Direction, n: nat): seq<Byte> {
    s.Of(d).Read() + s.Of(d).buffer[..Min(n, |s.Of(d).buffer|)]
  }

  predicate Captured(d: Direction, separateStderr: bool) {
    d.Stdout? || separateStderr
  }

  /** What has arrived stays, and more follows it. */
  lemma ArrivedGrows(env: Schedule, a: State, b: State, d: Direction)
    requires a.Valid(env) && b.Valid(env) && a.Precedes(b)
    ensures a.Of(d).Arrived() <= b.Of(d).Arrived()
  {
    DeliveredGrows(env, a.combine, d, a.origin, a.step, b.step);
    SamePrefix(if d.Stdout? then a.outBase else a.errBase, Delivered(env, a.combine, d, a.origin, a.step),
               Delivered(env, a.combine, d, a.origin, b.step));
    assert a.Of(d).Arrived() == a.ArrivedBy(env, d, a.step) && b.Of(d).Arrived() == a.ArrivedBy(env, d, b.step);
  }

  lemma SamePrefix(base: seq<Byte>, early: seq<Byte>, late: seq<Byte>)
    requires early <= late
    ensures base + early <= base + late
  {
  }

  lemma {:induction false} DeliveredGrows(env: Schedule, combine: bool, d: Direction, from: nat, mid: nat, end: nat)
    requires from <= mid <= end
    ensures Delivered(env, combine, d, from, mid) <= Delivered(env, combine, d, from, end)
    decreases end
  {
    if mid < end {
      DeliveredGrows(env, combine, d, from, mid, end - 1);
    }
  }

  /** Enough bytes were read: then they are those that were due. */
  lemma DueIsRead(env: Schedule, a: State, b: State, d: Direction, n: nat)
    requires a.Valid(env) && b.Valid(env) && a.Precedes(b)
    requires |b.Of(d).Read()| >= |a.Of(d).Read()| + Min(n, |a.Of(d).buffer|)
    ensures Due(a, d, n) <= b.Of(d).Read()
  {
    ArrivedGrows(env, a, b, d);
    var due, all, read := Due(a, d, n), b.Of(d).Arrived(), b.Of(d).Read();
    assert due == a.Of(d).Arrived()[..|due|];
    assert read == all[..|read|];
    assert due == all[..|due|] == read[..|due|];
  }

  /** One look takes the next bytes of its stream, 32768 at most, in one chunk, if any are there. */
  lemma LookReads(env: Schedule, p: Progress, d: Direction)
    requires !LookAt(env, p, d).raised
    ensures var a, b := p.ch, LookAt(env, p, d).p.ch;
            && (a.Of(d).buffer != [] ==> ReadChunk(a.Of(d), b.Of(d)))
            && (LookAt(env, p, d).didRead <==> a.Of(d).chunks != b.Of(d).chunks)
  {
  }

  lemma LookSpares(env: Schedule, p: Progress, d: Direction)
    ensures p.ch.Of(Other(d)).buffer <= LookAt(env, p, d).p.ch.Of(Other(d)).buffer
  {
  }

  /** One chunk more: all that was waiting, or at least 32768 bytes of it. */
  predicate ReadChunk(a: Stream, b: Stream) {
    |a.chunks| < |b.chunks| && a.chunks == b.chunks[..|a.chunks|] && |b.chunks[|a.chunks|]| >= Min(32768, |a.buffer|)
  }

  lemma ChunksGrow(a: Stream, b: Stream)
    requires a.chunks <= b.chunks
    ensures |b.Read()| >= |a.Read()|
    ensures |a.chunks| < |b.chunks| ==> |b.Read()| >= |a.Read()| + |b.chunks[|a.chunks|]|
  {
    var more := b.chunks[|a.chunks|..];
    assert b.chunks == a.chunks + more;
    FlattenAppend(a.chunks, more);
    if more != [] {
      assert Flatten(more) == more[0] + Flatten(more[1..]);
    }
  }

  lemma LookGrows(env: Schedule, p: Progress, d: Direction, e: Direction)
    ensures p.ch.Of(e).chunks <= LookAt(env, p, d).p.ch.Of(e).chunks
  {
  }

  lemma LookBothGrows(env: Schedule, p: Progress, separateStderr: bool, e: Direction)
    ensures p.ch.Of(e).chunks <= LookAtBoth(env, p, separateStderr).p.ch.Of(e).chunks
  {
    LookGrows(env, p, Stdout, e);
    LookGrows(env, LookAt(env, p, Stdout).p, Stderr, e);
  }

  lemma LookBothReads(env: Schedule, p: Progress, separateStderr: bool, d: Direction)
    requires !LookAtBoth(env, p, separateStderr).raised && Captured(d, separateStderr)
    ensures var a, b := p.ch, LookAtBoth(env, p, separateStderr).p.ch;
            && a.step < b.CheckedAt(d)
            && (a.Of(d).buffer != [] ==> ReadChunk(a.Of(d), b.Of(d)))
  {
    LookReads(env, p, Stdout);
    LookMarks(env, p, Stdout);
    if separateStderr {
      var first := LookAt(env, p, Stdout);
      LookSpares(env, p, Stdout);
      LookReads(env, first.p, Stderr);
      LookMarks(env, first.p, Stderr);
    }
  }

  lemma DrainGrows(env: Schedule, p: Progress, now: int, deadline: int, separateStderr: bool, e: Direction)
    ensures var r := DrainPass(env, p, now, deadline, separateStderr);
            p.ch.Of(e).chunks <= r.p.ch.Of(e).chunks
  {
    var left := AtLeastZero(deadline - now);
    LookBothGrows(env, p.(ch := p.ch.AfterWait(env, now, Min(MAX_WAIT, left), Min(PAUSE, left))), separateStderr, e);
  }

  lemma NothingReadyGrows(env: Schedule, p: Progress, now: int, deadline: int, separateStderr: bool, e: Direction)
    ensures var r := NothingReady(env, p, now, deadline, separateStderr);
            p.ch.Of(e).chunks <= r.p.ch.Of(e).chunks
  {
    DrainGrows(env, p.(ch := p.ch.AfterExitStatus(env)), now, deadline, separateStderr, e);
  }

  lemma PassGrows(env: Schedule, p: Progress, deadline: int, separateStderr: bool, e: Direction)
    ensures p.ch.Of(e).chunks <= LoopPass(env, p, deadline, separateStderr).p.ch.Of(e).chunks
  {
    var start := p.(ch := p.ch.AfterTime(env));
    LookBothGrows(env, start, separateStderr, e);
    NothingReadyGrows(env, LookAtBoth(env, start, separateStderr).p, start.ch.clock, deadline, separateStderr, e);
  }

  lemma ChecksAdvance(env: Schedule, p: Progress, now: int, deadline: int, separateStderr: bool, d: Direction)
    requires p.ch.CheckedAt(d) <= p.ch.step
    ensures p.ch.CheckedAt(d) <= NothingReady(env, p, now, deadline, separateStderr).p.ch.CheckedAt(d)
  {
    var asked := p.(ch := p.ch.AfterExitStatus(env));
    var left := AtLeastZero(deadline - now);
    WaitMarks(env, asked.ch, now, Min(MAX_WAIT, left), Min(PAUSE, left), d);
    LookBothMarks(env, asked.(ch := asked.ch.AfterWait(env, now, Min(MAX_WAIT, left), Min(PAUSE, left))), separateStderr, d);
  }

  lemma WaitMarks(env: Schedule, s: State, now: int, length: nat, pause: nat, d: Direction)
    ensures s.AfterWait(env, now, length, pause).CheckedAt(d) == s.CheckedAt(d)
  {
  }

  lemma LookBothMarks(env: Schedule, p: Progress, separateStderr: bool, d: Direction)
    requires p.ch.CheckedAt(d) <= p.ch.step
    ensures p.ch.CheckedAt(d) <= LookAtBoth(env, p, separateStderr).p.ch.CheckedAt(d)
  {
    LookMarks(env, p, Stdout);
    LookMarks(env, LookAt(env, p, Stdout).p, Stderr);
  }

  /**
    A pass that begins within the deadline and does not fail looks at every captured stream. Of what
    is waiting there it reads all, or at least 32768 bytes.
   */
  lemma PassLooks(env: Schedule, p: Progress, deadline: int, separateStderr: bool, d: Direction)
    requires Sound(env, p, Again, deadline, separateStderr) && Captured(d, separateStderr)
    requires p.ch.clock + env(p.ch.step).elapsed < deadline
    requires LoopPass(env, p, deadline, separateStderr).verdict != Stop(Failed)
    ensures var a, b := p.ch, LoopPass(env, p, deadline, separateStderr).p.ch;
            && a.step < b.CheckedAt(d)
            && (a.Of(d).buffer != [] ==> ReadChunk(a.Of(d), b.Of(d)))
            && Due(a, d, 32768) <= b.Of(d).Read()
  {
    var r := LoopPass(env, p, deadline, separateStderr);
    PassKeeps(env, p, deadline, separateStderr);
    PassReads(env, p, deadline, separateStderr, d);
    DueIsRead(env, p.ch, r.p.ch, d, 32768);
  }

  lemma PassReads(env: Schedule, p: Progress, deadline: int, separateStderr: bool, d: Direction)
    requires Good(env, p) && Captured(d, separateStderr)
    requires p.ch.clock + env(p.ch.step).elapsed < deadline
    requires LoopPass(env, p, deadline, separateStderr).verdict != Stop(Failed)
    ensures var a, b := p.ch, LoopPass(env, p, deadline, separateStderr).p.ch;
            && a.step < b.CheckedAt(d)
            && (a.Of(d).buffer != [] ==> ReadChunk(a.Of(d), b.Of(d)))
            && |b.Of(d).Read()| >= |a.Of(d).Read()| + Min(32768, |a.Of(d).buffer|)
  {
    var start := p.(ch := p.ch.AfterTime(env));
    var look := LookAtBoth(env, start, separateStderr);
    var r := LoopPass(env, p, deadline, separateStderr);
    LookBothReads(env, start, separateStderr, d);
    LookBothGrows(env, start, separateStderr, d);
    TimeKeeps(env, p);
    LookBothKeeps(env, start, separateStderr);
    assert look.p.ch.CheckedAt(d) <= look.p.ch.step;
    ChecksAdvance(env, look.p, start.ch.clock, deadline, separateStderr, d);
    NothingReadyGrows(env, look.p, start.ch.clock, deadline, separateStderr, d);
    StartsBefore(p.ch.Of(d), start.ch.Of(d), look.p.ch.Of(d), r.p.ch.Of(d));
  }

  /** More was waiting at the look than at the start of the pass, and what was read there stays. */
  lemma StartsBefore(a: Stream, start: Stream, look: Stream, b: Stream)
    requires start.chunks == a.chunks && |a.buffer| <= |start.buffer| && look.chunks <= b.chunks
    requires start.chunks <= look.chunks && (start.buffer != [] ==> ReadChunk(start, look))
    ensures a.buffer != [] ==> ReadChunk(a, b)
    ensures |b.Read()| >= |a.Read()| + Min(32768, |a.buffer|)
  {
    ChunksGrow(a, b);
    if a.buffer != [] {
      assert b.chunks[|a.chunks|] == look.chunks[|a.chunks|];
    }
  }

  /** A pass ends by the deadline exactly when its own reading of the clock is past it; it then reads nothing. */
  lemma PassTimesOut(env: Schedule, p: Progress, deadline: int, separateStderr: bool)
    ensures var r := LoopPass(env, p, deadline, separateStderr);
            && (r.verdict == Stop(TimedOut) <==> p.ch.clock + env(p.ch.step).elapsed >= deadline)
            && (r.verdict == Stop(TimedOut) ==> r.p.ch.out.chunks == p.ch.out.chunks && r.p.ch.err.chunks == p.ch.err.chunks)
  {
  }

  /** `select` for 500 ms or the time left; if that fails, a sleep of 50 ms or the time left. */
  predicate IsPollingWait(waits: seq<Wait>, now: int, left: nat) {
    && waits != [] && waits[0].from == now && waits[0].length == Min(500, left)
    && waits[0].how != Slept
    && (waits[0].how == Whole ==> waits[0].until >= waits[0].began + waits[0].length)
    && (waits[0].how == SelectRaised ==> |waits| > 1 && IsPause(waits[1], now, left))
  }

  predicate IsPause(w: Wait, now: int, left: nat) {
    w.from == now && w.length == Min(50, left) && w.how == Slept && w.until >= w.began + w.length
  }

  lemma WaitPolls(env: Schedule, s: State, now: int, left: nat)
    ensures var b := s.AfterWait(env, now, Min(MAX_WAIT, left), Min(PAUSE, left));
            s.waits <= b.waits && IsPollingWait(b.waits[|s.waits|..], now, left)
  {
    var length, pause := Min(MAX_WAIT, left), Min(PAUSE, left);
    var first := s.AfterSelect(env, now, length);
    assert first.waits[|s.waits|..] == [first.waits[|s.waits|]];
    if s.WaitEnds(env) == SelectRaised {
      var both := first.AfterSleep(env, now, pause);
      assert both.waits[|s.waits|..] == [first.waits[|s.waits|], both.waits[|s.waits| + 1]];
    }
  }

  /** With nothing to read and the command running, the pass waits while time is left. */
  lemma IdleWaits(env: Schedule, p: Progress, now: int, deadline: int, separateStderr: bool)
    requires NothingReady(env, p, now, deadline, separateStderr).verdict.Again?
    ensures var a, b := p.ch, NothingReady(env, p, now, deadline, separateStderr).p.ch;
            && a.waits <= b.waits
            && (now < deadline ==> IsPollingWait(b.waits[|a.waits|..], now, deadline - now))
  {
    var asked := p.(ch := p.ch.AfterExitStatus(env));
    var left := AtLeastZero(deadline - now);
    WaitPolls(env, asked.ch, now, left);
    LookBothLeaves(env, asked.(ch := asked.ch.AfterWait(env, now, Min(MAX_WAIT, left), Min(PAUSE, left))), separateStderr);
  }

  lemma LookBothLeaves(env: Schedule, p: Progress, separateStderr: bool)
    ensures LookAtBoth(env, p, separateStderr).p.ch.waits == p.ch.waits
  {
    LookLeaves(env, p, Stdout);
    LookLeaves(env, LookAt(env, p, Stdout).p, Stderr);
  }

  predicate IsWaiting(s: State, separateStderr: bool) {
    s.out.buffer != [] || (separateStderr && s.err.buffer != [])
  }

  /** A look reads something when something is waiting, and says so exactly when it has read. */
  lemma LookBothFinds(env: Schedule, p: Progress, separateStderr: bool)
    requires !LookAtBoth(env, p, separateStderr).raised
    ensures var r := LookAtBoth(env, p, separateStderr);
            && (IsWaiting(p.ch, separateStderr) ==> r.didRead)
            && (r.didRead <==> p.ch.out.chunks != r.p.ch.out.chunks || (separateStderr && p.ch.err.chunks != r.p.ch.err.chunks))
  {
    LookReads(env, p, Stdout);
    if separateStderr {
      LookSpares(env, p, Stdout);
      LookReads(env, LookAt(env, p, Stdout).p, Stderr);
    }
  }

  /** Stdout comes first, and an error there keeps the loop from stderr: a look that fails has read nothing from stderr. */
  lemma FailedLookSparesStderr(env: Schedule, p: Progress, separateStderr: bool)
    requires LookAtBoth(env, p, separateStderr).raised
    ensures LookAtBoth(env, p, separateStderr).p.ch.err.chunks == p.ch.err.chunks
  {
    LookLeaves(env, LookAt(env, p, Stdout).p, Stderr);
  }

  lemma TimeAlone(env: Schedule, s: State)
    ensures var t := s.AfterTime(env);
            && t.waits == s.waits && t.out.chunks == s.out.chunks && t.err.chunks == s.err.chunks
            && s.out.buffer <= t.out.buffer && s.err.buffer <= t.err.buffer
  {
  }

  /** Where something is waiting at its start, a pass that goes on has read and not waited. */
  lemma WaitingIsRead(env: Schedule, p: Progress, deadline: int, separateStderr: bool)
    requires LoopPass(env, p, deadline, separateStderr).verdict.Again? && IsWaiting(p.ch, separateStderr)
    ensures LoopPass(env, p, deadline, separateStderr).p.ch.waits == p.ch.waits
  {
    var start := p.(ch := p.ch.AfterTime(env));
    TimeAlone(env, p.ch);
    LookBothFinds(env, start, separateStderr);
    LookBothLeaves(env, start, separateStderr);
  }

  /** A pass that goes on without having read anything has waited, for 500 ms or the time left, whichever is less. */
  lemma IdlePassWaits(env: Schedule, p: Progress, deadline: int, separateStderr: bool)
    requires var r := LoopPass(env, p, deadline, separateStderr);
             r.verdict.Again? && r.p.ch.out.chunks == p.ch.out.chunks && r.p.ch.err.chunks == p.ch.err.chunks
    ensures var a, b := p.ch, LoopPass(env, p, deadline, separateStderr).p.ch;
            var now := a.clock + env(a.step).elapsed + 1;
            && a.waits <= b.waits
            && (now < deadline ==> IsPollingWait(b.waits[|a.waits|..], now, deadline - now))
  {
    var start := p.(ch := p.ch.AfterTime(env));
    TimeAlone(env, p.ch);
    LookBothFinds(env, start, separateStderr);
    LookBothLeaves(env, start, separateStderr);
    var look := LookAtBoth(env, start, separateStderr);
    assert !look.didRead;
    IdleWaits(env, look.p, start.ch.clock, deadline, separateStderr);
  }

  // ---- what a run has read by its end ----

  type Pass = Progress -> Passed

  function PassOf(env: Schedule, deadline: int, separateStderr: bool): Pass {
    (p: Progress) => LoopPass(env, p, deadline, separateStderr)
  }

  /** The first `n` passes all go on. */
  predicate GoesOn(f: Pass, p: Progress, n: nat)
    decreases n
  {
    n == 0 || (f(p).verdict.Again? && GoesOn(f, f(p).p, n - 1))
  }

  /** Behind `n` passes. */
  function AfterPasses(f: Pass, p: Progress, n: nat): Progress
    decreases n
  {
    if n == 0 then p else AfterPasses(f, f(p).p, n - 1)
  }

  /** What every pass that goes on keeps. */
  ghost predicate Keeps(f: Pass, inv: Progress -> bool) {
    forall p :: inv(p) && f(p).verdict.Again? ==> inv(f(p).p)
  }

  lemma {:induction false} PassesKeep(f: Pass, inv: Progress -> bool, p: Progress, n: nat)
    requires Keeps(f, inv) && inv(p) && GoesOn(f, p, n)
    ensures inv(AfterPasses(f, p, n))
    decreases n
  {
    if n > 0 {
      PassesKeep(f, inv, f(p).p, n - 1);
    }
  }

  /** Every pass that goes on reads all that has arrived, or 32768 bytes more of it than before. */
  ghost predicate ReadsOn(f: Pass, inv: Progress -> bool, d: Direction) {
    forall p :: inv(p) && f(p).verdict.Again? ==>
      && |f(p).p.ch.Of(d).Read()| >= |p.ch.Of(d).Read()| + Min(32768, |p.ch.Of(d).buffer|)
      && p.ch.Of(d).Arrived() <= f(p).p.ch.Of(d).Arrived()
  }

  lemma {:induction false} PassesRead(f: Pass, inv: Progress -> bool, p: Progress, n: nat, d: Direction)
    requires Keeps(f, inv) && ReadsOn(f, inv, d) && inv(p) && GoesOn(f, p, n)
    ensures |AfterPasses(f, p, n).ch.Of(d).Read()| >= |p.ch.Of(d).Read()| + Min(32768 * n, |p.ch.Of(d).buffer|)
    decreases n
  {
    if n > 0 {
      PassesRead(f, inv, f(p).p, n - 1, d);
    }
  }

  /** The loop is the repetition of its pass. */
  lemma {:induction false} RunRepeats(f: Pass, run: Progress -> Ended, p: Progress, n: nat)
    requires forall q :: f(q).verdict.Again? ==> run(q) == run(f(q).p)
    requires GoesOn(f, p, n)
    ensures run(AfterPasses(f, p, n)) == run(p)
    decreases n
  {
    if n > 0 {
      RunRepeats(f, run, f(p).p, n - 1);
    }
  }

  lemma LoopRepeats(env: Schedule, p: Progress, deadline: int, separateStderr: bool, n: nat)
    requires GoesOn(PassOf(env, deadline, separateStderr), p, n)
    ensures LoopRun(env, AfterPasses(PassOf(env, deadline, separateStderr), p, n), deadline, separateStderr)
         == LoopRun(env, p, deadline, separateStderr)
  {
    RunRepeats(PassOf(env, deadline, separateStderr), q => LoopRun(env, q, deadline, separateStderr), p, n);
  }

  lemma {:induction false} RunGrows(env: Schedule, p: Progress, deadline: int, separateStderr: bool, d: Direction)
    ensures p.ch.Of(d).chunks <= LoopRun(env, p, deadline, separateStderr).p.ch.Of(d).chunks
    decreases if p.ch.clock <= deadline then deadline - p.ch.clock + 1 else 0
  {
    PassGrows(env, p, deadline, separateStderr, d);
    var pass := LoopPass(env, p, deadline, separateStderr);
    if pass.verdict.Again? {
      RunGrows(env, pass.p, deadline, separateStderr, d);
    }
  }

  lemma OnePassReads(env: Schedule, p: Progress, deadline: int, separateStderr: bool, d: Direction)
    requires Sound(env, p, Again, deadline, separateStderr) && Captured(d, separateStderr)
    requires LoopPass(env, p, deadline, separateStderr).verdict.Again?
    ensures var b := LoopPass(env, p, deadline, separateStderr).p.ch;
            && |b.Of(d).Read()| >= |p.ch.Of(d).Read()| + Min(32768, |p.ch.Of(d).buffer|)
            && p.ch.Of(d).Arrived() <= b.Of(d).Arrived()
  {
    PassTimesOut(env, p, deadline, separateStderr);
    PassReads(env, p, deadline, separateStderr, d);
    PassKeeps(env, p, deadline, separateStderr);
    ArrivedGrows(env, p.ch, LoopPass(env, p, deadline, separateStderr).p.ch, d);
  }

  function SoundAt(env: Schedule, deadline: int, separateStderr: bool): Progress -> bool {
    (p: Progress) => Sound(env, p, Again, deadline, separateStderr)
  }

  lemma LoopKeeps(env: Schedule, deadline: int, separateStderr: bool)
    ensures Keeps(PassOf(env, deadline, separateStderr), SoundAt(env, deadline, separateStderr))
  {
    var f, inv := PassOf(env, deadline, separateStderr), SoundAt(env, deadline, separateStderr);
    forall p | inv(p) && f(p).verdict.Again?
      ensures inv(f(p).p)
    {
      PassKeeps(env, p, deadline, separateStderr);
    }
  }

  lemma LoopReadsOn(env: Schedule, deadline: int, separateStderr: bool, d: Direction)
    requires Captured(d, separateStderr)
    ensures ReadsOn(PassOf(env, deadline, separateStderr), SoundAt(env, deadline, separateStderr), d)
  {
    var f, inv := PassOf(env, deadline, separateStderr), SoundAt(env, deadline, separateStderr);
    forall p | inv(p) && f(p).verdict.Again?
      ensures |f(p).p.ch.Of(d).Read()| >= |p.ch.Of(d).Read()| + Min(32768, |p.ch.Of(d).buffer|)
      ensures p.ch.Of(d).Arrived() <= f(p).p.ch.Of(d).Arrived()
    {
      OnePassReads(env, p, deadline, separateStderr, d);
    }
  }

  /**
    However the run ends: what was waiting behind some of its passes is in what was read, up to 32768
    bytes for each pass that went on from there.
   */
  ghost predicate ReadsWhatIsDue(env: Schedule, p: Progress, deadline: int, separateStderr: bool, end: State) {
    forall n: nat, m: nat, d ::
      Captured(d, separateStderr) && AreGoing(PassOf(env, deadline, separateStderr), p, n, m) ==>
        ReadFrom(env, AfterPasses(PassOf(env, deadline, separateStderr), p, n).ch, d, m, end)
  }

  /** `n` passes go on, and then `m` more. */
  predicate AreGoing(f: Pass, p: Progress, n: nat, m: nat) {
    GoesOn(f, p, n) && GoesOn(f, AfterPasses(f, p, n), m)
  }

  /** What was there, and of what was waiting 32768 bytes for each of `m` passes, has been read in the end. */
  predicate ReadFrom(env: Schedule, mid: State, d: Direction, m: nat, end: State) {
    mid.Valid(env) && Due(mid, d, 32768 * m) <= end.Of(d).Read()
  }

  lemma RunReads(env: Schedule, p: Progress, deadline: int, separateStderr: bool)
    requires Sound(env, p, Again, deadline, separateStderr)
    ensures ReadsWhatIsDue(env, p, deadline, separateStderr, LoopRun(env, p, deadline, separateStderr).p.ch)
  {
    forall n: nat, m: nat, d
      | Captured(d, separateStderr) && AreGoing(PassOf(env, deadline, separateStderr), p, n, m)
      ensures ReadFrom(env, AfterPasses(PassOf(env, deadline, separateStderr), p, n).ch, d, m,
                       LoopRun(env, p, deadline, separateStderr).p.ch)
    {
      DueOnRun(env, p, deadline, separateStderr, d, n, m);
    }
  }

  lemma DueOnRun(env: Schedule, p: Progress, deadline: int, separateStderr: bool, d: Direction, n: nat, m: nat)
    requires Sound(env, p, Again, deadline, separateStderr) && Captured(d, separateStderr)
    requires AreGoing(PassOf(env, deadline, separateStderr), p, n, m)
    ensures ReadFrom(env, AfterPasses(PassOf(env, deadline, separateStderr), p, n).ch, d, m,
                     LoopRun(env, p, deadline, separateStderr).p.ch)
  {
    var f, inv := PassOf(env, deadline, separateStderr), SoundAt(env, deadline, separateStderr);
    var end := LoopRun(env, p, deadline, separateStderr).p;
    LoopKeeps(env, deadline, separateStderr);
    LoopReadsOn(env, deadline, separateStderr, d);
    PassesKeep(f, inv, p, n);
    var mid := AfterPasses(f, p, n);
    PassesKeep(f, inv, mid, m);
    PassesRead(f, inv, mid, m, d);
    var last := AfterPasses(f, mid, m);
    LoopRepeats(env, p, deadline, separateStderr, n);
    LoopRepeats(env, mid, deadline, separateStderr, m);
    RunGrows(env, last, deadline, separateStderr, d);
    ChunksGrow(last.ch.Of(d), end.ch.Of(d));
    RunKeeps(env, mid, deadline, separateStderr);
    DueIsRead(env, mid.ch, end.ch, d, 32768 * m);
  }

  // ---- the whole call ----

  /** In front of the first pass. */
  function Start(env: Schedule, s: State, separateStderr: bool): Progress {
    Unread(s.Combined(!separateStderr).AfterTime(env))
  }

  function Unread(s: State): Progress {
    Progress(s, Lines([], ""), Lines([], ""))
  }

  function RunOf(env: Schedule, s: State, maxExecTime: int, separateStderr: bool): (r: Ended)
    ensures s.Combined(!separateStderr).Precedes(r.p.ch)
    ensures !separateStderr ==> r.p.ch.err.chunks == s.err.chunks
  {
    LoopRun(env, Start(env, s, separateStderr), DeadlineOf(env, s, maxExecTime, separateStderr), separateStderr)
  }

  /** The time is counted from the first reading of the clock. */
  function DeadlineOf(env: Schedule, s: State, maxExecTime: int, separateStderr: bool): (deadline: int)
    ensures deadline == s.clock + env(s.step).elapsed + 1 + maxExecTime
  {
    Start(env, s, separateStderr).ch.clock + maxExecTime
  }

  lemma StartIsSound(env: Schedule, s: State, deadline: int, separateStderr: bool)
    requires s.IsFresh() && s.Valid(env)
    ensures Sound(env, Start(env, s, separateStderr), Again, deadline, separateStderr)
  {
    var c := s.Combined(!separateStderr);
    CombinedValid(s, env, !separateStderr);
    FlushReassembled([]);
    TimeKeeps(env, Unread(c));
  }

  /** What holds at the end of every run. */
  lemma RunIsSound(env: Schedule, s: State, maxExecTime: int, separateStderr: bool)
    requires s.IsFresh() && s.Valid(env)
    ensures var r := RunOf(env, s, maxExecTime, separateStderr);
            Sound(env, r.p, Stop(r.exit), DeadlineOf(env, s, maxExecTime, separateStderr), separateStderr)
  {
    StartIsSound(env, s, DeadlineOf(env, s, maxExecTime, separateStderr), separateStderr);
    RunKeeps(env, Start(env, s, separateStderr), DeadlineOf(env, s, maxExecTime, separateStderr), separateStderr);
  }

  /** The lines that are returned, and what merging does. */
  lemma LinesAtEnd(env: Schedule, p: Progress, separateStderr: bool)
    requires Good(env, p) && p.ch.combine == !separateStderr
    ensures Flush(p.out) == LinesOf(p.ch.out.chunks) && Flush(p.err) == LinesOf(p.ch.err.chunks)
    ensures !separateStderr ==> p.ch.err.Arrived() == []
    ensures !separateStderr && p.ch.err.chunks == [] ==> Flush(p.err) == []
  {
    FlushReassembled(p.ch.out.chunks);
    FlushReassembled(p.ch.err.chunks);
    if !separateStderr {
      MergedHasNoStderr(p.ch, env);
    }
  }

  /** The loop itself. */
  method RunLoop(channel: Channel, deadline: int, separateStderr: bool)
    returns (out: Lines, err: Lines, exit: Exit)
    modifies channel`s
    ensures Ended(Progress(channel.s, out, err), exit)
         == LoopRun(channel.env, Unread(old(channel.s)), deadline, separateStderr)
  {
    out, err := Lines([], ""), Lines([], "");
    var verdict := Again;
    ghost var start := Progress(channel.s, out, err);
    while verdict.Again?
      invariant LoopRun(channel.env, start, deadline, separateStderr)
             == match verdict
                case Again => LoopRun(channel.env, Progress(channel.s, out, err), deadline, separateStderr)
                case Stop(exit) => Ended(Progress(channel.s, out, err), exit)
      decreases verdict.Again?, if deadline >= channel.s.clock then deadline - channel.s.clock + 1 else 0
    {
      out, err, verdict := Iterate(channel, deadline, separateStderr, out, err);
    }
    exit := verdict.exit;
  }

  method ReadOutputWithTimeout(channel: Channel, maxExecTime: int, separateStderr: bool)
    returns (stdoutLines: seq<string>, stderrLines: seq<string>, exit: Exit)
    requires channel.s.IsFresh() && channel.s.Valid(channel.env)
    modifies channel`s
    // the final state follows from the schedule alone
    ensures var r := RunOf(channel.env, old(channel.s), maxExecTime, separateStderr);
            channel.s == r.p.ch && exit == r.exit
    // stderr is merged into stdout unless it is wanted separately; what was buffered before is kept
    ensures old(channel.s).Combined(!separateStderr).Precedes(channel.s)
    ensures !separateStderr ==> stderrLines == [] && channel.s.err.Arrived() == []
    // whatever the exit, what arrived is what the schedule delivered, and the lines are those of what was read
    ensures channel.s.Valid(channel.env)
    ensures stdoutLines == LinesOf(channel.s.out.chunks)
    ensures stderrLines == LinesOf(channel.s.err.chunks)
    ensures exit == Finished ==>
              && FinishedProperly(channel.env, channel.s, separateStderr)
              && WaitedOut(channel.env, channel.s, separateStderr,
                           DeadlineOf(channel.env, old(channel.s), maxExecTime, separateStderr))
    ensures exit == Failed <==> channel.s.failed
    ensures exit == TimedOut ==> channel.s.clock > DeadlineOf(channel.env, old(channel.s), maxExecTime, separateStderr)
    ensures WaitsWithin(channel.s.waits, DeadlineOf(channel.env, old(channel.s), maxExecTime, separateStderr))
    // at every exit, by the deadline too: what the passes had time to read has been read, from each captured stream
    ensures ReadsWhatIsDue(channel.env, Start(channel.env, old(channel.s), separateStderr),
                           DeadlineOf(channel.env, old(channel.s), maxExecTime, separateStderr), separateStderr, channel.s)
  {
    ghost var env, s := channel.env, channel.s;
    channel.SetCombineStderr(!separateStderr);
    var startTime := channel.Time();
    assert Unread(channel.s) == Start(env, s, separateStderr);
    var deadline := startTime + maxExecTime;
    assert deadline == DeadlineOf(env, s, maxExecTime, separateStderr);
    var out, err;
    out, err, exit := RunLoop(channel, deadline, separateStderr);
    assert Ended(Progress(channel.s, out, err), exit) == RunOf(env, s, maxExecTime, separateStderr);
    RunIsSound(channel.env, old(channel.s), maxExecTime, separateStderr);
    StartIsSound(env, s, deadline, separateStderr);
    RunReads(env, Start(env, s, separateStderr), deadline, separateStderr);
    LinesAtEnd(channel.env, Progress(channel.s, out, err), separateStderr);
    stdoutLines := if out.partial != "" then out.lines + [out.partial] else out.lines;
    stderrLines := if err.partial != "" then err.lines + [err.partial] else err.lines;
  }

  // ---- the callers ----

  /** `execute_command_output`, from the reading on: the exit code is -1 unless the loop ended normally. */
  method ExecuteCommandOutput(channel: Channel, maxExecTime: int, separateStderr: bool)
    returns (code: int, stdoutLines: seq<string>, stderrLines: seq<string>, ghost exit: Exit)
    requires channel.s.IsFresh() && channel.s.Valid(channel.env)
    modifies channel
    ensures channel.closed
    ensures var r := RunOf(channel.env, old(channel.s), maxExecTime, separateStderr);
            channel.s == r.p.ch && exit == r.exit
    ensures code == if exit == Finished then channel.exitStatus else -1
    ensures stdoutLines == LinesOf(channel.s.out.chunks) && stderrLines == LinesOf(channel.s.err.chunks)
    ensures !separateStderr ==> stderrLines == [] && channel.s.err.Arrived() == []
    ensures exit == Finished ==> FinishedProperly(channel.env, channel.s, separateStderr)
    ensures exit == Failed <==> channel.s.failed
    ensures ReadsWhatIsDue(channel.env, Start(channel.env, old(channel.s), separateStderr),
                           DeadlineOf(channel.env, old(channel.s), maxExecTime, separateStderr), separateStderr, channel.s)
  {
    var how;
    stdoutLines, stderrLines, how := ReadOutputWithTimeout(channel, maxExecTime, separateStderr);
    exit := how;
    code := if how != Finished then -1 else channel.exitStatus;
    if !channel.closed {
      channel.Close();
    }
  }
}
