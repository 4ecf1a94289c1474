/**
  What the read loop of score/itf/core/com/ssh.py loses at a normal end, and when it loses nothing.
 */
module SshLoss {
  import opened Text
  import opened Utf8
  import opened SshChannel
  import opened SshReadLoop

  // ---- what is lost ----

  /** All that ever arrives on the stream, at whatever step, has been read. */
  ghost predicate ReadEverything(env: Schedule, s: State, d: Direction) {
    && s.origin <= s.CheckedAt(d)
    && forall end: nat :: end >= s.CheckedAt(d) ==> s.ArrivedBy(env, d, end) == s.Of(d).Read()
  }

  /** A drained stream was read to its end exactly when the schedule is silent from its last check on. */
  lemma NothingLost(env: Schedule, s: State, d: Direction)
    requires s.Drained(env, d)
    ensures ReadEverything(env, s, d) <==> SilentFrom(env, s.combine, d, s.CheckedAt(d))
  {
    var mark := s.CheckedAt(d);
    var base, before := if d.Stdout? then s.outBase else s.errBase, Delivered(env, s.combine, d, s.origin, mark);
    CompleteExactly(env, s.combine, d, s.origin, mark);
    forall end: nat | end >= mark
      ensures s.ArrivedBy(env, d, end) == s.Of(d).Read() <==> Delivered(env, s.combine, d, s.origin, end) == before
    {
      var later := Delivered(env, s.combine, d, s.origin, end);
      assert (base + later)[|base|..] == later && (base + before)[|base|..] == before;
    }
    if ReadEverything(env, s, d) {
      forall end: nat | end >= mark
        ensures Delivered(env, s.combine, d, s.origin, end) == before
      {
        assert s.ArrivedBy(env, d, end) == s.Of(d).Read();
      }
    }
  }

  /**
    After a normal end each captured stream has given up exactly what the schedule delivered before
    its last check; nothing is lost exactly when it is silent from then on.
   */
  lemma FinishedReadsAll(env: Schedule, s: State, maxExecTime: int, separateStderr: bool)
    requires s.IsFresh() && s.Valid(env) && RunOf(env, s, maxExecTime, separateStderr).exit == Finished
    ensures var end := RunOf(env, s, maxExecTime, separateStderr).p.ch;
            && FinishedProperly(env, end, separateStderr)
            && (ReadEverything(env, end, Stdout) <==> SilentFrom(env, !separateStderr, Stdout, end.outChecked))
            && (separateStderr ==>
                  (ReadEverything(env, end, Stderr) <==> SilentFrom(env, false, Stderr, end.errChecked)))
  {
    RunIsSound(env, s, maxExecTime, separateStderr);
    var end := RunOf(env, s, maxExecTime, separateStderr).p.ch;
    assert FinishedProperly(env, end, separateStderr);
    NothingLost(env, end, Stdout);
    if separateStderr {
      NothingLost(env, end, Stderr);
    }
  }

  /** The same condition, on the schedule alone: the stream is silent since before the command exited. */
  lemma SilentBeforeExitReadsAll(
    env: Schedule, s: State, maxExecTime: int, separateStderr: bool, d: Direction, since: nat)
    requires s.IsFresh() && s.Valid(env) && RunOf(env, s, maxExecTime, separateStderr).exit == Finished
    requires d.Stdout? || separateStderr
    requires !ExitedBy(env, since) && SilentFrom(env, !separateStderr, d, since)
    ensures ReadEverything(env, RunOf(env, s, maxExecTime, separateStderr).p.ch, d)
  {
    RunIsSound(env, s, maxExecTime, separateStderr);
    FinishedReadsAll(env, s, maxExecTime, separateStderr);
    var end := RunOf(env, s, maxExecTime, separateStderr).p.ch;
    if end.exitAt <= since {
      ExitedLater(env, end.exitAt, since);
    }
    assert since < end.CheckedAt(d);
  }

  /**
    A normal end loses something only after a whole quiet wait, or a pause after an error: when the
    end of the streams had woken the loop instead, everything was read.
   */
  lemma EndOfStreamReadsAll(env: Schedule, s: State, maxExecTime: int, separateStderr: bool, d: Direction)
    requires s.IsFresh() && s.Valid(env) && RunOf(env, s, maxExecTime, separateStderr).exit == Finished
    requires EndsProperly(env) && (d.Stdout? || separateStderr)
    ensures var end := RunOf(env, s, maxExecTime, separateStderr).p.ch;
            && WaitedOut(env, end, separateStderr, DeadlineOf(env, s, maxExecTime, separateStderr))
            && (LastWait(end).how == Woken ==> ReadEverything(env, end, d))
  {
    RunIsSound(env, s, maxExecTime, separateStderr);
    var end := RunOf(env, s, maxExecTime, separateStderr).p.ch;
    assert FinishedProperly(env, end, separateStderr);
    if LastWait(end).how == Woken {
      WokenAtTheEnd(env, end, separateStderr, DeadlineOf(env, s, maxExecTime, separateStderr), d);
    }
  }

  lemma WokenAtTheEnd(env: Schedule, end: State, separateStderr: bool, deadline: int, d: Direction)
    requires EndsProperly(env) && WaitedOut(env, end, separateStderr, deadline) && LastWait(end).how == Woken
    requires end.Drained(env, d) && (d.Stdout? || separateStderr)
    ensures ReadEverything(env, end, d)
  {
    EndedIsSilent(env, end.combine, d, LastWait(end).at + 1, end.CheckedAt(d));
    NothingLost(env, end, d);
  }

  lemma EndedIsSilent(env: Schedule, combine: bool, d: Direction, ended: nat, from: nat)
    requires EndsProperly(env) && EndedBy(env, ended) && ended <= from
    ensures SilentFrom(env, combine, d, from)
  {
    forall k: nat | k >= from
      ensures BytesAt(env, combine, d, k) == []
    {
      ExitedLater(env, ended, k);
    }
  }

  // ---- a run that loses something ----

  /** Nothing has arrived and nothing was read, however much time has passed. */
  predicate Unmoved(a: State, b: State) {
    b.out == a.out && b.err == a.err && (a.exited ==> b.exited)
  }

  lemma LookIdle(env: Schedule, p: Progress, d: Direction)
    requires Idle(env, p.ch.step, p.ch.step + 1) && p.ch.IsEmpty()
    ensures var r := LookAt(env, p, d);
            !r.didRead && !r.raised && Unmoved(p.ch, r.p.ch) && r.p.ch.step == p.ch.step + 1
  {
    IdleNext(p.ch, env, p.ch.step + 1);
  }

  lemma LookBothIdle(env: Schedule, p: Progress, separateStderr: bool)
    requires Idle(env, p.ch.step, p.ch.step + 2) && p.ch.IsEmpty()
    ensures var r := LookAtBoth(env, p, separateStderr);
            !r.didRead && !r.raised && Unmoved(p.ch, r.p.ch) && r.p.ch.step <= p.ch.step + 2
  {
    LookIdle(env, p, Stdout);
    if separateStderr {
      LookIdle(env, LookAt(env, p, Stdout).p, Stderr);
    }
  }

  lemma WaitIdle(env: Schedule, s: State, from: int, length: nat, pause: nat)
    requires Idle(env, s.step, s.step + 2)
    ensures var w := s.AfterWait(env, from, length, pause); Unmoved(s, w) && s.step < w.step <= s.step + 2
  {
    IdleNext(s, env, s.step + 2);
    IdleNext(s.AfterSelect(env, from, length), env, s.step + 2);
  }

  lemma DrainIdle(env: Schedule, p: Progress, now: int, deadline: int, separateStderr: bool)
    requires Idle(env, p.ch.step, p.ch.step + 4) && p.ch.IsEmpty()
    ensures var r := DrainPass(env, p, now, deadline, separateStderr);
            r.verdict == Stop(Finished) && Unmoved(p.ch, r.p.ch) && r.p.ch.step <= p.ch.step + 4
  {
    var remaining := deadline - now;
    var length, pause := Min(MAX_WAIT, AtLeastZero(remaining)), Min(PAUSE, AtLeastZero(remaining));
    WaitIdle(env, p.ch, now, length, pause);
    LookBothIdle(env, p.(ch := p.ch.AfterWait(env, now, length, pause)), separateStderr);
  }

  /**
    The command has exited, nothing is buffered and nothing arrives for eight steps, of which one is
    the wait after the exit: the pass is the last, unless the deadline is over at its start.
   */
  lemma PassIdle(env: Schedule, p: Progress, deadline: int, separateStderr: bool)
    requires Idle(env, p.ch.step, p.ch.step + 8) && p.ch.IsEmpty() && p.ch.exited
    requires p.ch.clock + env(p.ch.step).elapsed < deadline
    ensures var r := LoopPass(env, p, deadline, separateStderr);
            && r.verdict == Stop(Finished) && r.p.ch.step <= p.ch.step + 8
            && r.p.ch.out == p.ch.out && r.p.ch.err == p.ch.err
  {
    var start := p.(ch := p.ch.AfterTime(env));
    IdleNext(p.ch, env, p.ch.step + 8);
    LookBothIdle(env, start, separateStderr);
    var look := LookAtBoth(env, start, separateStderr);
    IdleNext(look.p.ch, env, p.ch.step + 8);
    DrainIdle(env, look.p.(ch := look.p.ch.AfterExitStatus(env)), start.ch.clock, deadline, separateStderr);
  }

  /**
    A command that exits at once and is followed by nine steps in which nothing arrives: the call has
    ended by then, without output. The time that they take is limited only between the first two
    readings of the clock.
   */
  lemma QuietExit(env: Schedule, s: State, maxExecTime: int, separateStderr: bool)
    requires s.IsEmpty() && env(s.step).exits && Idle(env, s.step, s.step + 9)
    requires env(s.step + 1).elapsed < maxExecTime
    ensures var r := RunOf(env, s, maxExecTime, separateStderr);
            && r.exit == Finished && r.p.ch.step <= s.step + 9
            && r.p.ch.out.chunks == s.out.chunks && r.p.ch.err.chunks == s.err.chunks
  {
    var c, start := s.Combined(!separateStderr), Start(env, s, separateStderr);
    assert c.IsEmpty();
    IdleNext(c, env, s.step + 9);
    PassIdle(env, start, DeadlineOf(env, s, maxExecTime, separateStderr), separateStderr);
  }

  /**
    The loop stops at the first quiet look after the exit, not at the end of the stream: whatever is
    delivered after such a beginning is lost, although the call ends normally. The wait after the exit
    has then taken its whole time, unless it failed or the end of the streams was received.
   */
  lemma LateBytesAreLost(env: Schedule, s: State, at: nat, maxExecTime: int, separateStderr: bool)
    requires s.IsFresh() && s.Valid(env) && s.IsEmpty()
    requires env(s.step).exits && Idle(env, s.step, s.step + 9) && env(s.step + 1).elapsed < maxExecTime
    requires at >= s.step + 9 && BytesAt(env, !separateStderr, Stdout, at) != []
    ensures var r := RunOf(env, s, maxExecTime, separateStderr);
            && r.exit == Finished && r.p.ch.out.chunks == []
            && WaitedOut(env, r.p.ch, separateStderr, DeadlineOf(env, s, maxExecTime, separateStderr))
            && !ReadEverything(env, r.p.ch, Stdout)
  {
    QuietExit(env, s, maxExecTime, separateStderr);
    RunIsSound(env, s, maxExecTime, separateStderr);
    FinishedReadsAll(env, s, maxExecTime, separateStderr);
    var end := RunOf(env, s, maxExecTime, separateStderr).p.ch;
    assert at >= end.outChecked;
  }

  /** One delivery on stdout, at one step, by a command that exited at the start; `gaps` is the time between the steps. */
  function LateSchedule(late: seq<Byte>, at: nat, gaps: nat -> nat): Schedule {
    (k: nat) => EnvStep(if k == at then late else [], [], true, false, gaps(k), false)
  }

  lemma LateScheduleIs(late: seq<Byte>, at: nat, gaps: nat -> nat, k: nat)
    ensures var env := LateSchedule(late, at, gaps);
            && !EndedBy(env, k) && !env(k).raises && env(k).exits && env(k).elapsed == gaps(k)
            && env(k).out == (if k == at then late else []) && env(k).err == []
    decreases k
  {
    if k > 0 {
      LateScheduleIs(late, at, gaps, k - 1);
    }
  }

  lemma LateBeginning(s: State, late: seq<Byte>, at: nat, gaps: nat -> nat, separateStderr: bool)
    requires s == NOT_STARTED && at >= 9
    ensures var env := LateSchedule(late, at, gaps);
            && s.Valid(env) && env(s.step).exits && Idle(env, s.step, s.step + 9)
            && env(s.step + 1).elapsed == gaps(1) && BytesAt(env, !separateStderr, Stdout, at) == late
            && forall k: nat :: !EndedBy(env, k) && !env(k).raises
  {
    var env := LateSchedule(late, at, gaps);
    forall k: nat
      ensures !EndedBy(env, k) && !env(k).raises
    {
      LateScheduleIs(late, at, gaps, k);
    }
    forall k: nat | k < 9
      ensures env(k).out == [] && env(k).err == []
    {
      LateScheduleIs(late, at, gaps, k);
    }
    LateScheduleIs(late, at, gaps, 0);
    LateScheduleIs(late, at, gaps, 1);
    LateScheduleIs(late, at, gaps, at);
    assert late + [] == late;
  }

  /** Such a run: a whole wait of 500 ms, or of the time left, passes after the exit, and the output comes after that. */
  lemma LateRun(s: State, late: seq<Byte>, at: nat, gaps: nat -> nat, maxExecTime: int, separateStderr: bool)
    requires s == NOT_STARTED && late != [] && at >= 9 && gaps(1) < maxExecTime
    ensures var env := LateSchedule(late, at, gaps);
            var r := RunOf(env, s, maxExecTime, separateStderr);
            && r.exit == Finished && r.p.ch.out.chunks == [] && !ReadEverything(env, r.p.ch, Stdout)
            && r.p.ch.waits != []
            && var w := LastWait(r.p.ch);
            && w.how == Whole && w.until >= w.began + w.length
            && w.length == Min(500, AtLeastZero(DeadlineOf(env, s, maxExecTime, separateStderr) - w.from))
  {
    var env := LateSchedule(late, at, gaps);
    LateBeginning(s, late, at, gaps, separateStderr);
    LateBytesAreLost(env, s, at, maxExecTime, separateStderr);
    WholeWhenCalm(env, RunOf(env, s, maxExecTime, separateStderr).p.ch, separateStderr,
                  DeadlineOf(env, s, maxExecTime, separateStderr));
  }

  lemma WholeWhenCalm(env: Schedule, ch: State, separateStderr: bool, deadline: int)
    requires WaitedOut(env, ch, separateStderr, deadline)
    requires forall k: nat :: !EndedBy(env, k) && !env(k).raises
    ensures var w := LastWait(ch);
            && w.how == Whole && w.until >= w.began + w.length
            && w.length == Min(500, AtLeastZero(deadline - w.from))
  {
  }

  // ---- a command that does not end ----

  /** The command never exits, and no call fails. */
  ghost predicate NeverEnds(env: Schedule) {
    forall k: nat :: !env(k).exits && !env(k).raises
  }

  lemma {:induction false} NotExited(env: Schedule, k: nat)
    requires NeverEnds(env)
    ensures !ExitedBy(env, k)
    decreases k
  {
    if k > 0 {
      NotExited(env, k - 1);
    }
  }

  lemma LookSucceeds(env: Schedule, p: Progress, d: Direction)
    requires NeverEnds(env)
    ensures !LookAt(env, p, d).raised
  {
    var ready := p.ch.AfterReady(env, d);
    assert !env(ready.step).raises;
    if ready.Of(d).buffer != [] {
      assert ready.Next(env).Of(d).buffer != [];
    }
  }

  /** Its passes all go on, up to the deadline. */
  lemma PassGoesOn(env: Schedule, p: Progress, deadline: int, separateStderr: bool)
    requires NeverEnds(env) && Good(env, p)
    ensures LoopPass(env, p, deadline, separateStderr).verdict
         == if p.ch.clock + env(p.ch.step).elapsed < deadline then Again else Stop(TimedOut)
  {
    var start := p.(ch := p.ch.AfterTime(env));
    LookSucceeds(env, start, Stdout);
    LookSucceeds(env, LookAt(env, start, Stdout).p, Stderr);
    TimeKeeps(env, p);
    LookBothKeeps(env, start, separateStderr);
    var look := LookAtBoth(env, start, separateStderr).p;
    NotExited(env, look.ch.step);
    assert !env(look.ch.step).exits;
  }

  lemma {:induction false} RunTimesOut(env: Schedule, p: Progress, deadline: int, separateStderr: bool)
    requires NeverEnds(env) && Sound(env, p, Again, deadline, separateStderr)
    ensures LoopRun(env, p, deadline, separateStderr).exit == TimedOut
    decreases if p.ch.clock <= deadline then deadline - p.ch.clock + 1 else 0
  {
    PassGoesOn(env, p, deadline, separateStderr);
    if LoopPass(env, p, deadline, separateStderr).verdict.Again? {
      PassKeeps(env, p, deadline, separateStderr);
      RunTimesOut(env, LoopPass(env, p, deadline, separateStderr).p, deadline, separateStderr);
    }
  }

  /** A first pass that goes on reads what is waiting at the start, all of it or 32768 bytes. */
  lemma FirstPassReads(env: Schedule, p: Progress, deadline: int, separateStderr: bool, d: Direction)
    requires Sound(env, p, Again, deadline, separateStderr) && Captured(d, separateStderr)
    requires PassOf(env, deadline, separateStderr)(p).verdict.Again?
    ensures Due(p.ch, d, 32768) <= LoopRun(env, p, deadline, separateStderr).p.ch.Of(d).Read()
  {
    var f := PassOf(env, deadline, separateStderr);
    assert AfterPasses(f, p, 0) == p && GoesOn(f, p, 0) && GoesOn(f, f(p).p, 0);
    DueOnRun(env, p, deadline, separateStderr, d, 0, 1);
  }

  /**
    The call times out, and returns what each captured stream brought at the beginning: all of it, or
    32768 bytes.
   */
  lemma TimeoutKeepsOutput(env: Schedule, s: State, maxExecTime: int, separateStderr: bool, d: Direction)
    requires s.IsFresh() && s.Valid(env) && NeverEnds(env) && Captured(d, separateStderr)
    requires env(s.step + 1).elapsed < maxExecTime
    ensures var r := RunOf(env, s, maxExecTime, separateStderr);
            r.exit == TimedOut && Due(Start(env, s, separateStderr).ch, d, 32768) <= r.p.ch.Of(d).Read()
  {
    var start, deadline := Start(env, s, separateStderr), DeadlineOf(env, s, maxExecTime, separateStderr);
    StartIsSound(env, s, deadline, separateStderr);
    RunTimesOut(env, start, deadline, separateStderr);
    PassGoesOn(env, start, deadline, separateStderr);
    FirstPassReads(env, start, deadline, separateStderr, d);
  }

  /** With enough passes left to read it, nothing that had arrived by some pass is missing at the end, however the run ends. */
  lemma EnoughPassesReadAll(
    env: Schedule, p: Progress, deadline: int, separateStderr: bool, d: Direction, n: nat, m: nat)
    requires Sound(env, p, Again, deadline, separateStderr) && Captured(d, separateStderr)
    requires AreGoing(PassOf(env, deadline, separateStderr), p, n, m)
    requires |AfterPasses(PassOf(env, deadline, separateStderr), p, n).ch.Of(d).buffer| <= 32768 * m
    ensures AfterPasses(PassOf(env, deadline, separateStderr), p, n).ch.Of(d).Arrived()
         <= LoopRun(env, p, deadline, separateStderr).p.ch.Of(d).Read()
  {
    var mid := AfterPasses(PassOf(env, deadline, separateStderr), p, n).ch.Of(d);
    DueOnRun(env, p, deadline, separateStderr, d, n, m);
    assert mid.buffer[..|mid.buffer|] == mid.buffer;
  }
}
