/**
  The lifecycle of an asynchronously running command: `wait` and `stop` of `QemuAsyncProcess`
  (score/itf/plugins/qemu/qemu_target.py) and `DockerAsyncProcess` (score/itf/plugins/docker.py),
  which differ only in the SSH session that the first one closes, and their client `WrappedProcess`
  (score/itf/core/process/wrapped_process.py).

  Before every observation, signal or sleep the environment takes one step of an arbitrary schedule,
  in which the command may exit and time may pass. Times are in milliseconds.
 */
module AsyncProcess {
  import opened Text

  datatype EnvStep = EnvStep(exits: bool, elapsed: nat)

  /** What the handle did or saw, in order. */
  datatype Action =
    | SentTerm
    | SentKill
    | Observed(running: bool)   // is_running()
    | Slept(ms: nat)
    | Joined                    // the output thread
    | ReadCode(code: int)
    | ClosedSession

  /** The last entries are TERM, the whole grace period, and one more look at a running command. */
  predicate KillJustified(log: seq<Action>) {
    |log| >= 12 && log[|log| - 12..] == Grace(5) + [Observed(true)]
  }

  predicate SawExit(log: seq<Action>) {
    Observed(false) in log
  }

  /** The output thread was joined and then the exit code read, with nothing in between. */
  predicate CodeAfterJoin(log: seq<Action>) {
    var n := |log|;
    n >= 2 && log[n - 2] == Joined && log[n - 1].ReadCode?
  }

  /** What has to come before an action. */
  predicate MayFollow(log: seq<Action>, a: Action) {
    match a
    case SentKill => KillJustified(log)
    case Joined => SawExit(log)
    case ReadCode(_) => SawExit(log)
    case ClosedSession => SawExit(log) && CodeAfterJoin(log) && ClosedSession !in log
    case Observed(running) => running ==> !SawExit(log)
    case SentTerm => true
    case Slept(_) => true
  }

  ghost predicate Safe(log: seq<Action>) {
    forall i {:trigger log[..i]} :: 0 <= i < |log| ==> MayFollow(log[..i], log[i])
  }

  lemma SafeSnoc(log: seq<Action>, a: Action)
    requires Safe(log) && MayFollow(log, a)
    ensures Safe(log + [a])
  {
    var l := log + [a];
    forall i {:trigger l[..i]} | 0 <= i < |l|
      ensures MayFollow(l[..i], l[i])
    {
      if i < |log| {
        assert l[..i] == log[..i] && l[i] == log[i];
      } else {
        assert l[..i] == log;
      }
    }
  }

  // ---- what one call does ----

  /** The command was seen running `k` times, and each time followed by a sleep of 100 ms. */
  function Polls(k: nat): (r: seq<Action>)
    ensures |r| == 2 * k && forall i :: 0 <= i < k ==> r[2 * i] == Observed(true) && r[2 * i + 1] == Slept(100)
  {
    if k == 0 then [] else Polls(k - 1) + [Observed(true), Slept(100)]
  }

  /** `k` sleeps of a second, and behind each the command was seen running. */
  function Naps(k: nat): (r: seq<Action>)
    ensures |r| == 2 * k && forall i :: 0 <= i < k ==> r[2 * i] == Slept(1000) && r[2 * i + 1] == Observed(true)
  {
    if k == 0 then [] else Naps(k - 1) + [Slept(1000), Observed(true)]
  }

  function Conclusion(code: int, closes: bool): seq<Action> {
    [Joined, ReadCode(code)] + (if closes then [ClosedSession] else [])
  }

  /** Polls of a running command, and one more look: it is still running and the time is up, or it has ended. */
  function WaitTrace(k: nat, r: Option<int>, closes: bool): seq<Action> {
    Polls(k) + (if r.None? then [Observed(true)] else [Observed(false)] + Conclusion(r.value, closes))
  }

  lemma PollsMore(before: seq<Action>, k: nat, running: bool)
    ensures before + Polls(k) + [Observed(true)] + [Slept(100)] + [Observed(running)]
         == before + Polls(k + 1) + [Observed(running)]
  {
  }

  lemma Behind(before: seq<Action>, a: seq<Action>, b: seq<Action>)
    ensures before <= before + a + b && (before + a + b)[|before|..] == a + b
  {
  }

  lemma WaitGivesUp(before: seq<Action>, k: nat, closes: bool)
    ensures var log := before + Polls(k) + [Observed(true)];
            before <= log && IsWait(log[|before|..], None, closes)
  {
    Behind(before, Polls(k), [Observed(true)]);
    assert WaitTrace(k, None, closes) == Polls(k) + [Observed(true)];
  }

  lemma WaitEnds(before: seq<Action>, k: nat, code: int, closes: bool)
    ensures var log := before + Polls(k) + [Observed(false)] + Conclusion(code, closes);
            before <= log && IsWait(log[|before|..], Some(code), closes)
  {
    var end := [Observed(false)] + Conclusion(code, closes);
    assert before + Polls(k) + [Observed(false)] + Conclusion(code, closes) == before + Polls(k) + end;
    Behind(before, Polls(k), end);
    assert WaitTrace(k, Some(code), closes) == Polls(k) + end;
  }

  ghost predicate IsWait(trace: seq<Action>, r: Option<int>, closes: bool) {
    exists k: nat :: trace == WaitTrace(k, r, closes)
  }

  /** TERM and at most five observations, each behind a second of sleep, up to the first that shows the end. */
  function Grace(k: nat): seq<Action> {
    [SentTerm] + Naps(k) + (if k < 5 then [Slept(1000), Observed(false)] else [])
  }

  /** The command ended in the grace period, and is looked at once more. */
  function EndedTrace(k: nat, code: int, closes: bool): seq<Action> {
    Grace(k) + [Observed(false)] + Conclusion(code, closes)
  }

  /** It did not, and is still running at the sixth look: KILL and a wait, and if that ends the same conclusion again. */
  function KilledTrace(waited: seq<Action>, r: Option<int>): seq<Action> {
    Grace(5) + [Observed(true), SentKill] + waited + (if r.None? then [] else Conclusion(r.value, false))
  }

  ghost predicate IsStop(trace: seq<Action>, r: Option<int>, closes: bool) {
    || (r.Some? && exists k: nat :: k <= 5 && trace == EndedTrace(k, r.value, closes))
    || (exists waited :: IsWait(waited, r, closes) && trace == KilledTrace(waited, r))
  }

  lemma StopEnds(before: seq<Action>, k: nat, code: int, closes: bool)
    requires k <= 5
    ensures var log := before + Grace(k) + [Observed(false)] + Conclusion(code, closes);
            before <= log && IsStop(log[|before|..], Some(code), closes)
  {
    var end := [Observed(false)] + Conclusion(code, closes);
    assert before + Grace(k) + [Observed(false)] + Conclusion(code, closes) == before + Grace(k) + end;
    Behind(before, Grace(k), end);
    assert EndedTrace(k, code, closes) == Grace(k) + end;
  }

  lemma GraceJustifiesKill(before: seq<Action>)
    ensures KillJustified(before + Grace(5) + [Observed(true)])
  {
    Behind(before, Grace(5), [Observed(true)]);
  }

  /** Every sleep from some point on was begun by a given time. */
  predicate SleepsBy(log: seq<Action>, times: seq<int>, since: nat, latest: int)
    requires |times| == |log|
  {
    forall i :: since <= i < |log| && log[i].Slept? ==> times[i] <= latest
  }

  class AsyncHandle {
    const env: nat -> EnvStep
    const exitCode: int
    const hasSession: bool    // QEMU: an SSH session of its own
    var step: nat
    var clock: int
    var exited: bool
    var closed: bool
    ghost var log: seq<Action>
    ghost var times: seq<int>    // when each of these was done, or a sleep begun

    ghost predicate Valid()
      reads this
    {
      && Safe(log) && |times| == |log|
      && (closed <==> ClosedSession in log)
      && (closed ==> hasSession)
      && (SawExit(log) ==> exited)
      && (forall c :: ReadCode(c) in log ==> c == exitCode)
    }

    constructor (env: nat -> EnvStep, exitCode: int, hasSession: bool)
      ensures Valid() && log == [] && !closed
      ensures this.env == env && this.exitCode == exitCode && this.hasSession == hasSession
    {
      this.env, this.exitCode, this.hasSession := env, exitCode, hasSession;
      step, clock, exited, closed, log, times := 0, 0, false, false, [], [];
    }

    /** The exit is final and the clock does not run back. */
    method Advance(atLeast: nat)
      modifies this`step, this`clock, this`exited
      ensures exited == old(WillBeGone())
      ensures old(clock) + atLeast <= clock
    {
      exited := exited || env(step).exits;
      clock := clock + atLeast + env(step).elapsed;
      step := step + 1;
    }

    /** What the next look at the command will show. */
    predicate WillBeGone()
      reads this
    {
      exited || env(step).exits
    }

    method IsRunning() returns (running: bool)
      requires Valid()
      modifies this`step, this`clock, this`exited, this`log, this`times
      ensures Valid() && log == old(log) + [Observed(running)] && old(times) <= times
      ensures running == !old(WillBeGone())
      ensures running == !exited && (old(exited) ==> exited) && old(clock) <= clock
    {
      Advance(0);
      running := !exited;
      SafeSnoc(log, Observed(running));
      log, times := log + [Observed(running)], times + [clock];
    }

    /** `time.sleep` */
    method Sleep(ms: nat)
      requires Valid()
      modifies this`step, this`clock, this`exited, this`log, this`times
      ensures Valid() && log == old(log) + [Slept(ms)] && times == old(times) + [old(clock)]
      ensures (old(exited) ==> exited) && old(clock) + ms <= clock
    {
      SafeSnoc(log, Slept(ms));
      log, times := log + [Slept(ms)], times + [clock];
      Advance(ms);
    }

    method SendTerm()
      requires Valid()
      modifies this`step, this`clock, this`exited, this`log, this`times
      ensures Valid() && log == old(log) + [SentTerm] && old(times) <= times
      ensures (old(exited) ==> exited) && old(clock) <= clock
    {
      Advance(0);
      SafeSnoc(log, SentTerm);
      log, times := log + [SentTerm], times + [clock];
    }

    method SendKill()
      requires Valid() && KillJustified(log)
      modifies this`step, this`clock, this`exited, this`log, this`times
      ensures Valid() && log == old(log) + [SentKill] && old(times) <= times
      ensures (old(exited) ==> exited) && old(clock) <= clock
    {
      Advance(0);
      SafeSnoc(log, SentKill);
      log, times := log + [SentKill], times + [clock];
    }

    /** The thread ends once the command has exited, so joining it earlier could block. */
    method Join()
      requires Valid() && SawExit(log)
      modifies this`log, this`times
      ensures Valid() && log == old(log) + [Joined] && old(times) <= times
    {
      SafeSnoc(log, Joined);
      log, times := log + [Joined], times + [clock];
    }

    method GetExitCode() returns (code: int)
      requires Valid() && SawExit(log)
      modifies this`log, this`times
      ensures Valid() && log == old(log) + [ReadCode(code)] && old(times) <= times && code == exitCode
    {
      code := exitCode;
      SafeSnoc(log, ReadCode(code));
      log, times := log + [ReadCode(code)], times + [clock];
    }

    /** `_close_ssh`; Docker has nothing to close. */
    method CloseSession()
      requires Valid() && SawExit(log) && CodeAfterJoin(log)
      modifies this`closed, this`log, this`times
      ensures Valid() && closed == (old(closed) || hasSession)
      ensures log == if hasSession && !old(closed) then old(log) + [ClosedSession] else old(log)
      ensures old(times) <= times
    {
      if hasSession && !closed {
        closed := true;
        SafeSnoc(log, ClosedSession);
        log, times := log + [ClosedSession], times + [clock];
      }
    }

    /** The last lines of `wait` and of `stop`. */
    method Conclude() returns (code: int)
      requires Valid() && SawExit(log)
      modifies this`closed, this`log, this`times
      ensures Valid() && SawExit(log)
      ensures log == old(log) + Conclusion(code, hasSession && !old(closed)) && old(times) <= times
      ensures code == exitCode && closed == (old(closed) || hasSession)
    {
      Join();
      code := GetExitCode();
      CloseSession();
    }

    /** The exit code of a command that has stopped, or a timeout while it was still running. */
    method Wait(timeout: int) returns (r: Option<int>)
      requires Valid()
      modifies this`step, this`clock, this`exited, this`closed, this`log, this`times
      ensures Valid() && old(log) <= log && old(times) <= times
      ensures IsWait(log[|old(log)|..], r, hasSession && !old(closed))
      // it sleeps and looks again as long as the time is not up, and only then
      ensures SleepsBy(log, times, |old(log)|, old(clock) + timeout)
      ensures (old(exited) ==> exited) && (old(closed) ==> closed)
      ensures r.Some? ==> r.value == exitCode && exited && (hasSession ==> closed) && SawExit(log)
      ensures r.None? ==> clock > old(clock) + timeout && log[|log| - 1] == Observed(true) && closed == old(closed)
    {
      ghost var before, k := log, 0;
      var stopped;
      stopped, k := Poll(timeout);
      if !stopped {
        WaitGivesUp(before, k, hasSession && !old(closed));
        return None;
      }
      ghost var seen := log;
      assert seen[|seen| - 1] == Observed(false);
      var code := Conclude();
      assert seen <= log && forall i :: |seen| <= i < |log| ==> !log[i].Slept?;
      WaitEnds(before, k, code, hasSession && !old(closed));
      r := Some(code);
    }

    /** The loop of `wait`: a look every 100 ms, until the command has exited or the time is up. */
    method Poll(timeout: int) returns (stopped: bool, ghost k: nat)
      requires Valid()
      modifies this`step, this`clock, this`exited, this`log, this`times
      ensures Valid() && log == old(log) + Polls(k) + [Observed(!stopped)] && old(times) <= times
      ensures (old(exited) ==> exited) && stopped == exited && old(clock) <= clock
      ensures !stopped ==> clock > old(clock) + timeout
      ensures SleepsBy(log, times, |old(log)|, old(clock) + timeout)
    {
      ghost var before := log;
      var startTime := clock;
      k := 0;
      var running := IsRunning();
      while running
        invariant Valid() && startTime <= clock
        invariant log == before + Polls(k) + [Observed(running)]
        invariant running == !exited && (old(exited) ==> exited)
        invariant old(times) <= times && SleepsBy(log, times, |before|, startTime + timeout)
        decreases running, startTime + timeout - clock
      {
        if clock - startTime > timeout {
          return false, k;
        }
        Sleep(100);
        running := IsRunning();
        PollsMore(before, k, running);
        k := k + 1;
      }
      stopped := true;
    }

    /** TERM and five seconds of grace, then KILL; a timeout only when even KILL did not help. */
    method Stop() returns (r: Option<int>)
      requires Valid()
      modifies this`step, this`clock, this`exited, this`closed, this`log, this`times
      ensures Valid() && old(log) <= log
      ensures IsStop(log[|old(log)|..], r, hasSession && !old(closed))
      ensures (old(exited) ==> exited) && (old(closed) ==> closed)
      ensures r.Some? ==> r.value == exitCode && exited && (hasSession ==> closed) && SawExit(log)
      ensures r.None? ==> log[|log| - 1] == Observed(true) && clock > old(clock) + 20_000 && closed == old(closed)
    {
      ghost var before := log;
      SendTerm();
      ghost var k := TimeToStop(before);
      var running := IsRunning();
      if running {
        r := KillAndWait(before);
        return;
      }
      assert log[|log| - 1] == Observed(false);
      var code := Conclude();
      r := Some(code);
      StopEnds(before, k, code, hasSession && !old(closed));
    }

    /** The second half of `stop`: the command is still running after the grace period. */
    method KillAndWait(ghost before: seq<Action>) returns (r: Option<int>)
      requires Valid() && log == before + Grace(5) + [Observed(true)]
      modifies this`step, this`clock, this`exited, this`closed, this`log, this`times
      ensures Valid() && before <= log && IsStop(log[|before|..], r, hasSession && !old(closed))
      ensures (old(exited) ==> exited) && (old(closed) ==> closed)
      ensures r.Some? ==> r.value == exitCode && exited && (hasSession ==> closed) && SawExit(log)
      ensures r.None? ==> log[|log| - 1] == Observed(true) && clock > old(clock) + 15_000 && closed == old(closed)
    {
      GraceJustifiesKill(before);
      SendKill();
      ghost var killed, waited := log, [];
      r, waited := WaitAgain();
      StopKilled(before, killed, waited, log, r, hasSession && !old(closed));
    }

    /** The wait after KILL, and the conclusion behind it. */
    method WaitAgain() returns (r: Option<int>, ghost waited: seq<Action>)
      requires Valid()
      modifies this`step, this`clock, this`exited, this`closed, this`log, this`times
      ensures Valid() && IsWait(waited, r, hasSession && !old(closed))
      ensures log == old(log) + waited + (if r.None? then [] else Conclusion(r.value, false))
      ensures SleepsBy(log, times, |old(log)|, old(clock) + 15_000)
      ensures (old(exited) ==> exited) && (old(closed) ==> closed)
      ensures r.Some? ==> r.value == exitCode && exited && (hasSession ==> closed) && SawExit(log)
      ensures r.None? ==> log[|log| - 1] == Observed(true) && clock > old(clock) + 15_000 && closed == old(closed)
    {
      r := Wait(15_000);
      waited := log[|old(log)|..];
      assert log == old(log) + waited;
      if r.Some? {
        ghost var ended := log;
        var code := Conclude();
        assert ended <= log && forall i :: |ended| <= i < |log| ==> !log[i].Slept?;
        r := Some(code);
      }
    }

    /** The loop of `stop`: five times one second, or until the command has exited. */
    method TimeToStop(ghost before: seq<Action>) returns (ghost k: nat)
      requires Valid() && log == before + [SentTerm]
      modifies this`step, this`clock, this`exited, this`log, this`times
      ensures Valid() && k <= 5 && log == before + Grace(k)
      ensures (old(exited) ==> exited) && (k < 5 ==> exited)
      ensures k == 5 ==> clock >= old(clock) + 5000
      ensures old(clock) <= clock
    {
      k := 0;
      for i := 0 to 5
        invariant Valid() && k == i && log == before + ([SentTerm] + Naps(k))
        invariant (old(exited) ==> exited) && clock >= old(clock) + 1000 * i
      {
        Sleep(1000);
        var running := IsRunning();
        if !running {
          return;
        }
        k := k + 1;
      }
    }
  }

  /** The pieces of a `stop` that had to kill, put together. */
  lemma StopKilled(
    before: seq<Action>, killed: seq<Action>, waited: seq<Action>, log: seq<Action>, r: Option<int>, closes: bool)
    requires killed == before + Grace(5) + [Observed(true)] + [SentKill] && IsWait(waited, r, closes)
    requires log == killed + waited + (if r.None? then [] else Conclusion(r.value, false))
    ensures before <= log && IsStop(log[|before|..], r, closes)
  {
    var start, end := Grace(5) + [Observed(true), SentKill], if r.None? then [] else Conclusion(r.value, false);
    assert killed == before + start;
    assert log == before + start + (waited + end);
    Behind(before, start, waited + end);
    assert KilledTrace(waited, r) == start + (waited + end);
  }

  // ---- any sequence of calls ----

  datatype Call = CallWait(timeout: int) | CallStop

  /** Safety over whole runs: no sequence of `wait` and `stop` calls breaks the order of the log. */
  method Drive(handle: AsyncHandle, calls: seq<Call>) returns (results: seq<Option<int>>)
    requires handle.Valid()
    modifies handle
    ensures handle.Valid() && Safe(handle.log)
    ensures |results| == |calls| && forall i :: 0 <= i < |calls| && results[i].Some? ==> results[i].value == handle.exitCode
    ensures (exists i :: 0 <= i < |calls| && results[i].Some?) ==> handle.exited && (handle.hasSession ==> handle.closed)
  {
    results := [];
    for i := 0 to |calls|
      invariant handle.Valid() && |results| == i
      invariant forall k :: 0 <= k < i && results[k].Some? ==> results[k].value == handle.exitCode
      invariant (exists k :: 0 <= k < i && results[k].Some?) ==> handle.exited && (handle.hasSession ==> handle.closed)
    {
      var r;
      match calls[i] {
        case CallWait(timeout) => r := handle.Wait(timeout);
        case CallStop => r := handle.Stop();
      }
      results := results + [r];
    }
  }

  /** In a safe log the session is closed at most once, right after the code that followed a join. */
  lemma ClosedOnce(log: seq<Action>, i: nat, j: nat)
    requires Safe(log) && i < |log| && j < |log| && log[i] == ClosedSession && log[j] == ClosedSession
    ensures i == j && i >= 2 && log[i - 1].ReadCode? && log[i - 2] == Joined && SawExit(log[..i])
  {
    assert MayFollow(log[..i], log[i]) && MayFollow(log[..j], log[j]);
    assert forall k :: 0 <= k < i ==> log[..i][k] == log[k];
    assert forall k :: 0 <= k < j ==> log[..j][k] == log[k];
  }

  /** In a safe log every KILL is preceded by TERM, five seconds of sleep and six observations of a running command. */
  lemma KillIsLastResort(log: seq<Action>, i: nat)
    requires Safe(log) && i < |log| && log[i] == SentKill
    ensures i >= 12 && log[i - 12] == SentTerm && log[i - 1] == Observed(true)
    ensures forall k :: 0 <= k < 5 ==> log[i - 11 + 2 * k] == Slept(1000) && log[i - 10 + 2 * k] == Observed(true)
  {
    assert MayFollow(log[..i], log[i]);
    var last, naps := log[..i][i - 12..], Naps(5);
    assert last == [SentTerm] + naps + [Observed(true)];
    assert last[0] == log[i - 12] && last[11] == log[i - 1];
    forall k | 0 <= k < 5
      ensures log[i - 11 + 2 * k] == Slept(1000) && log[i - 10 + 2 * k] == Observed(true)
    {
      assert last[1 + 2 * k] == naps[2 * k] && last[2 + 2 * k] == naps[2 * k + 1];
    }
  }

  // ---- the client ----

  const SIGNAL_BASE := 128
  const SIGABRT := 6
  const SIGKILL := 9
  const SIGSEGV := 11
  const SIGTERM := 15

  /** How leaving the block ends. */
  datatype BlockEnd =
    | Normal
    | WaitTimedOut
    | SanitizersFailed
    | KilledInsteadOfStopped
    | SegmentationFault
    | AbortSignal
    | ErrorCode

  predicate Acceptable(code: int, enforceCleanShutdown: bool, expectedExitCode: int) {
    || code == 0 || code == SIGNAL_BASE + SIGTERM || code == expectedExitCode
    || (!enforceCleanShutdown && code == SIGNAL_BASE + SIGKILL)
  }

  /** Leaving the block: a wait, or one look and then a stop or, when the command is gone, just the exit code. */
  ghost predicate IsExit(trace: seq<Action>, r: Option<int>, waits: bool, gone: bool, closes: bool) {
    if waits then IsWait(trace, r, closes)
    else if gone then r.Some? && trace == [Observed(false), ReadCode(r.value)]
    else trace != [] && trace[0] == Observed(true) && IsStop(trace[1..], r, closes)
  }

  lemma ExitByStop(before: seq<Action>, log: seq<Action>, r: Option<int>, closes: bool)
    requires before + [Observed(true)] <= log && IsStop(log[|before| + 1..], r, closes)
    ensures before < log && IsExit(log[|before|..], r, false, false, closes)
  {
    assert log[|before|] == (before + [Observed(true)])[|before|];
    assert log[|before|..][1..] == log[|before| + 1..];
    assert log[..|before|] == (before + [Observed(true)])[..|before|] == before;
  }

  lemma ExitByLook(before: seq<Action>, code: int, closes: bool)
    ensures var log := before + [Observed(false)] + [ReadCode(code)];
            before < log && IsExit(log[|before|..], Some(code), false, true, closes)
  {
    var log := before + [Observed(false)] + [ReadCode(code)];
    assert log[|before|..] == [Observed(false), ReadCode(code)];
  }

  lemma ExitByWait(before: seq<Action>, log: seq<Action>, r: Option<int>, gone: bool, closes: bool)
    requires before <= log && IsWait(log[|before|..], r, closes)
    ensures before < log && IsExit(log[|before|..], r, true, gone, closes)
  {
    assert |log[|before|..]| > 0;
  }

  lemma WaitJoins(trace: seq<Action>, code: int, closes: bool)
    requires IsWait(trace, Some(code), closes)
    ensures Joined in trace
  {
    var k: nat :| trace == WaitTrace(k, Some(code), closes);
    assert trace[2 * k + 1] == Joined;
  }

  lemma StopJoins(trace: seq<Action>, code: int, closes: bool)
    requires IsStop(trace, Some(code), closes)
    ensures Joined in trace
  {
    if k: nat :| k <= 5 && trace == EndedTrace(k, code, closes) {
      assert trace[|Grace(k)| + 1] == Joined;
    } else {
      var waited :| IsWait(waited, Some(code), closes) && trace == KilledTrace(waited, Some(code));
      assert trace[|Grace(5)| + 2 + |waited|] == Joined;
    }
  }

  /** The output thread is joined exactly when the block waits or finds the command still running. */
  lemma ExitJoins(trace: seq<Action>, code: int, waits: bool, gone: bool, closes: bool)
    requires IsExit(trace, Some(code), waits, gone, closes)
    ensures Joined in trace <==> waits || !gone
  {
    if waits {
      WaitJoins(trace, code, closes);
    } else if !gone {
      StopJoins(trace[1..], code, closes);
      assert forall a :: a in trace[1..] ==> a in trace;
    }
  }

  class WrappedProcess {
    const waitOnExit: bool
    const waitTimeout: int
    const enforceCleanShutdown: bool
    const expectedExitCode: int
    var process: AsyncHandle?
    var retCode: Option<int>

    constructor (waitOnExit: bool, waitTimeout: int, enforceCleanShutdown: bool, expectedExitCode: int)
      ensures process == null && retCode == None
    {
      this.waitOnExit, this.waitTimeout := waitOnExit, waitTimeout;
      this.enforceCleanShutdown, this.expectedExitCode := enforceCleanShutdown, expectedExitCode;
      process, retCode := null, None;
    }

    /** The handle comes from `target.execute_async`. */
    method Enter(handle: AsyncHandle)
      requires handle.Valid()
      modifies this
      ensures process == handle && handle.Valid() && retCode == old(retCode)
    {
      process := handle;
    }

    /**
      `_handle_process_exit`. A block that does not wait and whose command is gone at the first look
      reads the code without joining the output thread or closing the session; all others do both.
     */
    method HandleProcessExit(handle: AsyncHandle) returns (r: Option<int>)
      requires handle.Valid()
      modifies handle
      ensures handle.Valid() && old(handle.log) < handle.log
      ensures IsExit(handle.log[|old(handle.log)|..], r, waitOnExit, old(handle.WillBeGone()),
                     handle.hasSession && !old(handle.closed))
      ensures r.Some? ==> r.value == handle.exitCode && handle.exited
      ensures r.Some? && handle.hasSession ==>
                (handle.closed <==> old(handle.closed) || waitOnExit || !old(handle.WillBeGone()))
      ensures r.None? ==> handle.closed == old(handle.closed)
    {
      if waitOnExit {
        ghost var before, closes := handle.log, handle.hasSession && !handle.closed;
        r := handle.Wait(waitTimeout);
        ExitByWait(before, handle.log, r, old(handle.WillBeGone()), closes);
        return;
      }
      r := StopUnlessGone(handle);
    }

    /** Its second half, for a block that does not wait. */
    method StopUnlessGone(handle: AsyncHandle) returns (r: Option<int>)
      requires handle.Valid()
      modifies handle
      ensures handle.Valid() && old(handle.log) < handle.log
      ensures IsExit(handle.log[|old(handle.log)|..], r, false, old(handle.WillBeGone()),
                     handle.hasSession && !old(handle.closed))
      ensures r.Some? ==> r.value == handle.exitCode && handle.exited
      ensures r.Some? && handle.hasSession ==> (handle.closed <==> old(handle.closed) || !old(handle.WillBeGone()))
      ensures r.None? ==> handle.closed == old(handle.closed)
    {
      ghost var before, closes := handle.log, handle.hasSession && !handle.closed;
      var running := handle.IsRunning();
      if running {
        r := handle.Stop();
        ExitByStop(before, handle.log, r, closes);
      } else {
        var code := handle.GetExitCode();
        r := Some(code);
        ExitByLook(before, code, closes);
      }
    }

    /** `_check_process_exit_code` */
    function CheckExitCode(code: int): (r: BlockEnd)
      ensures r == Normal <==> Acceptable(code, enforceCleanShutdown, expectedExitCode)
      ensures r != WaitTimedOut
      // zero, the expected code and SIGTERM are fine, and SIGKILL is unless a clean shutdown is enforced
      ensures r == Normal
         <==> code == 0 || code == 143 || code == expectedExitCode || (code == 137 && !enforceCleanShutdown)
      ensures r == SanitizersFailed <==> code == 55 && expectedExitCode != 55
      ensures r == KilledInsteadOfStopped <==> code == 137 && expectedExitCode != 137 && enforceCleanShutdown
      ensures r == SegmentationFault <==> code == 139 && expectedExitCode != 139
      ensures r == AbortSignal <==> code == 134 && expectedExitCode != 134
    {
      if Acceptable(code, enforceCleanShutdown, expectedExitCode) then Normal
      else if code == 55 then SanitizersFailed
      else if code == SIGNAL_BASE + SIGKILL then KilledInsteadOfStopped
      else if code == SIGNAL_BASE + SIGSEGV then SegmentationFault
      else if code == SIGNAL_BASE + SIGABRT then AbortSignal
      else ErrorCode
    }

    /** A block that ends normally leaves a stopped command with an acceptable exit code. */
    method Exit() returns (end: BlockEnd)
      requires process != null && process.Valid()
      modifies this, process
      ensures process == old(process) && process != null && process.Valid()
      ensures end == Normal ==>
                && process.exited && retCode == Some(process.exitCode)
                && (process.exitCode == 0 || process.exitCode == 143 || process.exitCode == expectedExitCode
                    || (process.exitCode == 137 && !enforceCleanShutdown))
      ensures end != WaitTimedOut ==> end == CheckExitCode(process.exitCode) && retCode == Some(process.exitCode)
      ensures end == WaitTimedOut ==> retCode == old(retCode)
      ensures old(process.log) < process.log
      ensures IsExit(process.log[|old(process.log)|..], if end == WaitTimedOut then None else retCode,
                     waitOnExit, old(process.WillBeGone()), process.hasSession && !old(process.closed))
      // the thread is joined, and a session closed, unless the block does not wait and the command is gone already
      ensures end != WaitTimedOut ==>
                (Joined in process.log[|old(process.log)|..] <==> waitOnExit || !old(process.WillBeGone()))
      ensures end != WaitTimedOut && process.hasSession ==>
                (process.closed <==> old(process.closed) || waitOnExit || !old(process.WillBeGone()))
      ensures !waitOnExit && old(process.WillBeGone()) ==>
                end == CheckExitCode(process.exitCode) && process.closed == old(process.closed)
    {
      var r := HandleProcessExit(process);
      if r.None? {
        return WaitTimedOut;
      }
      retCode := r;
      end := CheckExitCode(r.value);
      ExitJoins(process.log[|old(process.log)|..], r.value, waitOnExit, old(process.WillBeGone()),
                process.hasSession && !old(process.closed));
    }
  }
}
