/**
  `QemuTarget.execute_async` of score/itf/plugins/qemu/qemu_target.py, from the channel on: the PID line is
  read byte by byte, and the logging thread reads on from there.
 */
module QemuAsync {
  import opened Text
  import opened Utf8
  import opened SshChannel
  import opened AsyncOutput

  /** By step `horizon` the command has exited and the streams have ended; nothing is delivered from then on. */
  ghost predicate FinishesBy(env: Schedule, horizon: nat) {
    SettlesBy(env, horizon) && env(horizon).ends
  }

  /** A horizon that has been passed has brought the exit and the end. */
  predicate OnTime(s: State, horizon: nat) {
    s.step > horizon ==> s.exited && s.ended
  }

  lemma TryOnTime(s: State, env: Schedule, horizon: nat, limit: nat)
    requires FinishesBy(env, horizon) && OnTime(s, horizon)
    ensures OnTime(s.AfterTry(env, limit), horizon)
    ensures s.Tries(env, limit).Waits? ==> s.step < horizon
    ensures s.Tries(env, limit).Got? && limit > 0 ==> Lower(s.AfterTry(env, limit), s, horizon)
  {
    if s.step > horizon {
      assert BytesAt(env, s.combine, Stdout, s.step) == [];
    }
  }

  /** `channel.recv(limit)` in blocking mode: nothing at the end of the stream, and an exception on a timeout. */
  method RecvBlocking(channel: Channel, limit: nat, ghost horizon: nat) returns (r: Attempt)
    requires channel.s.Valid(channel.env) && limit > 0
    requires FinishesBy(channel.env, horizon) && OnTime(channel.s, horizon)
    modifies channel`s
    ensures Received(channel.env, old(channel.s), channel.s, r, horizon, limit)
  {
    ghost var env, before, last := channel.env, channel.s, channel.s;
    OneTry(env, before, last, horizon, limit);
    r := channel.TryRecv(limit);
    while r.Waits?
      invariant StillWaiting(env, before, last, horizon)
      invariant channel.s == last.AfterTry(env, limit) && r == last.Tries(env, limit)
      invariant r.Waits? ==> StillWaiting(env, before, channel.s, horizon) && last.step < horizon
      invariant !r.Waits? ==> Received(env, before, channel.s, r, horizon, limit)
      decreases Before(last.step, horizon)
    {
      last := channel.s;
      OneTry(env, before, last, horizon, limit);
      r := channel.TryRecv(limit);
    }
  }

  /** Nothing has been read while waiting. */
  predicate StillWaiting(env: Schedule, a: State, b: State, horizon: nat) {
    && b.Valid(env) && OnTime(b, horizon)
    && a.Precedes(b) && b.failed == a.failed && b.out.chunks == a.out.chunks
    && (b == a || a.step < b.step <= horizon)
  }

  /** What a blocking `recv` leaves behind. */
  predicate Received(env: Schedule, a: State, b: State, r: Attempt, horizon: nat, limit: nat) {
    && b.Valid(env) && OnTime(b, horizon) && a.Precedes(b)
    && b.failed == (a.failed || r.Fails?) && !r.Waits?
    && b.out.chunks == (if r.Got? then a.out.chunks + [r.data] else a.out.chunks)
    && (r.Got? ==> 0 < |r.data| <= limit && Lower(b, a, horizon))
    && (r.AtEnd? ==> b.ended && b.out.buffer == [])
  }

  lemma OneTry(env: Schedule, a: State, b: State, horizon: nat, limit: nat)
    requires StillWaiting(env, a, b, horizon) && FinishesBy(env, horizon) && limit > 0
    ensures var c, r := b.AfterTry(env, limit), b.Tries(env, limit);
            if r.Waits? then StillWaiting(env, a, c, horizon) && b.step < horizon
            else Received(env, a, c, r, horizon, limit)
  {
    TryValid(b, env, limit);
    TryOnTime(b, env, horizon, limit);
  }

  /** What was read since there were `before` chunks. */
  function ReadSince(s: State, before: nat): seq<Byte>
    requires before <= |s.out.chunks|
  {
    Flatten(s.out.chunks[before..])
  }

  /** The bytes read so far are the line, and then the line feed if it was found. */
  predicate HasRead(s: State, before: nat, pidLine: seq<Byte>, newline: bool) {
    && before <= |s.out.chunks| && LF !in pidLine
    && ReadSince(s, before) == pidLine + (if newline then [LF] else [])
  }

  lemma ReadMore(a: State, b: State, before: nat, pidLine: seq<Byte>, data: seq<Byte>)
    requires HasRead(a, before, pidLine, false) && |data| == 1 && b.out.chunks == a.out.chunks + [data]
    ensures if data[0] == LF then HasRead(b, before, pidLine, true) else HasRead(b, before, pidLine + data, false)
  {
    assert b.out.chunks[before..] == a.out.chunks[before..] + [data];
    FlattenSnoc(a.out.chunks[before..], data);
    assert data == [data[0]];
    assert pidLine + [] == pidLine && pidLine + data + [] == pidLine + data;
  }

  /** The loop that reads the PID line: one byte at a time, up to a line feed or the end. */
  method ReadPidLine(channel: Channel, ghost horizon: nat) returns (pidLine: seq<Byte>, raised: bool, newline: bool)
    requires channel.s.Valid(channel.env) && FinishesBy(channel.env, horizon) && OnTime(channel.s, horizon)
    modifies channel`s
    ensures channel.s.Valid(channel.env) && OnTime(channel.s, horizon) && old(channel.s).Precedes(channel.s)
    ensures channel.s.failed == (old(channel.s).failed || raised)
    ensures HasRead(channel.s, |old(channel.s).out.chunks|, pidLine, newline)
    ensures channel.s.out.chunks[..|old(channel.s).out.chunks|] == old(channel.s).out.chunks
    ensures !raised && !newline ==> channel.s.ended && channel.s.out.buffer == []
  {
    ghost var before := channel.s.out.chunks;
    pidLine, raised, newline := [], false, false;
    assert before[|before|..] == [];
    var running := true;
    while running
      invariant channel.s.Valid(channel.env) && OnTime(channel.s, horizon) && old(channel.s).Precedes(channel.s)
      invariant channel.s.failed == (old(channel.s).failed || raised)
      invariant HasRead(channel.s, |before|, pidLine, newline) && channel.s.out.chunks[..|before|] == before
      invariant running ==> !raised && !newline
      invariant !running && !raised && !newline ==> channel.s.ended && channel.s.out.buffer == []
      decreases running, Before(channel.s.step, horizon), |channel.s.out.buffer|
    {
      ghost var s := channel.s;
      var r := RecvBlocking(channel, 1, horizon);
      match r {
        case Got(data) =>
          ReadMore(s, channel.s, |before|, pidLine, data);
          if data[0] == LF {
            newline, running := true, false;
          } else {
            pidLine := pidLine + data;
          }
        case AtEnd => running := false;
        case _ => raised, running := true, false;
      }
    }
  }

  datatype Launch = Launched(pid: int, outputLines: seq<string>) | NotANumber | ReadFailed

  /** A stream that has ended brings nothing more. */
  lemma EndedStays(env: Schedule, a: State, b: State)
    requires EndsProperly(env) && a.Valid(env) && b.Valid(env) && a.Precedes(b) && a.ended
    ensures b.out.Arrived() == a.out.Arrived()
  {
    forall k: nat | k >= a.step
      ensures BytesAt(env, a.combine, Stdout, k) == []
    {
      ExitedLater(env, a.step, k);
    }
    SilenceDelivers(env, a.combine, Stdout, a.origin, a.step, b.step);
  }

  /** Behind the PID line: parse it, and read on in the logging thread, here up to its end. */
  method StartThread(channel: Channel, pidLine: seq<Byte>, ghost newline: bool, ghost horizon: nat)
    returns (r: Launch, logFailed: bool, ghost logged: seq<seq<Byte>>)
    requires channel.s.Valid(channel.env) && !channel.s.failed && EndsProperly(channel.env)
    requires FinishesBy(channel.env, horizon) && OnTime(channel.s, horizon)
    requires HasRead(channel.s, 0, pidLine, newline)
    requires !newline ==> channel.s.ended && channel.s.out.buffer == []
    modifies channel`s
    ensures channel.s.Valid(channel.env) && channel.s.combine == old(channel.s).combine
    ensures !r.ReadFailed? && (channel.s.failed <==> logFailed)
    ensures r.Launched? ==> GetOutput(r.outputLines) == OutputOf(logged)
    ensures r.Launched? ==> NonSpace(GetOutput(r.outputLines)) == NonSpace(Flatten(DecodeAll(logged)))
    ensures r.Launched? && !logFailed ==> LoggedToExit(channel.env, channel.s)
    ensures LineBytes(channel.s.out.Arrived()) == pidLine
    ensures ParsePid(pidLine) == if r.Launched? then Some(r.pid) else None
    ensures RestFollows(channel.s.out, pidLine, logged)
  {
    ghost var env, first := channel.env, channel.s;
    logged, logFailed := [], false;
    var pid := ParsePid(pidLine);
    if pid.None? {
      FirstLine(env, first, first, pidLine, newline, []);
      return NotANumber, false, [];
    }
    var lines;
    lines, logFailed := AsyncLog(channel, horizon);
    logged := channel.s.out.chunks[|first.out.chunks|..];
    assert channel.s.out.chunks == first.out.chunks + logged;
    FirstLine(env, first, channel.s, pidLine, newline, logged);
    r := Launched(pid.value, lines);
  }

  /**
    The whole call and its thread. `logged` are the chunks that the thread read; what was read before
    them is the PID line and its line feed.
   */
  method ExecuteAsync(channel: Channel, ghost horizon: nat)
    returns (r: Launch, logFailed: bool, ghost logged: seq<seq<Byte>>)
    requires channel.s.IsFresh() && channel.s.Valid(channel.env) && EndsProperly(channel.env)
    requires FinishesBy(channel.env, horizon) && OnTime(channel.s, horizon)
    modifies channel`s
    ensures channel.s.Valid(channel.env) && channel.s.combine
    ensures channel.s.failed <==> r.ReadFailed? || logFailed
    ensures r.Launched? ==> GetOutput(r.outputLines) == OutputOf(logged)
    ensures r.Launched? ==> NonSpace(GetOutput(r.outputLines)) == NonSpace(Flatten(DecodeAll(logged)))
    ensures r.Launched? && !logFailed ==> LoggedToExit(channel.env, channel.s)
    // the first line of what arrives is the PID, if it is a number
    ensures !r.ReadFailed? ==>
              ParsePid(LineBytes(channel.s.out.Arrived())) == if r.Launched? then Some(r.pid) else None
    // a PID line and then the command's output: the thread has logged that output as far as it was read
    ensures !r.ReadFailed? ==> RestFollows(channel.s.out, LineBytes(channel.s.out.Arrived()), logged)
  {
    CombinedValid(channel.s, channel.env, true);
    channel.SetCombineStderr(true);
    var pidLine, raised, newline := ReadPidLine(channel, horizon);
    if raised {
      return ReadFailed, false, [];
    }
    r, logFailed, logged := StartThread(channel, pidLine, newline, horizon);
  }

  /** The first line of all that has arrived in the end is the line that was read, and the rest follows it. */
  lemma FirstLine(
    env: Schedule, a: State, b: State, pidLine: seq<Byte>, newline: bool, logged: seq<seq<Byte>>)
    requires a.Valid(env) && b.Valid(env) && a.Precedes(b) && EndsProperly(env)
    requires HasRead(a, 0, pidLine, newline) && (!newline ==> a.ended && a.out.buffer == [])
    requires b.out.chunks == a.out.chunks + logged
    ensures LineBytes(b.out.Arrived()) == pidLine
    ensures RestFollows(b.out, pidLine, logged)
  {
    var tail := Flatten(logged) + b.out.buffer;
    assert a.out.chunks[0..] == a.out.chunks;
    FlattenAppend(a.out.chunks, logged);
    if newline {
      assert b.out.Arrived() == pidLine + ([LF] + tail);
      RestOfLine(pidLine, tail);
    } else {
      EndedStays(env, a, b);
      assert b.out.Arrived() == pidLine + [];
    }
    LineBytesAre(pidLine, if newline then [LF] + tail else []);
    RestIs(b.out, pidLine, newline, logged);
  }

  lemma RestOfLine(line: seq<Byte>, tail: seq<Byte>)
    ensures (line + ([LF] + tail))[|line| + 1..] == tail
  {
  }

  /** When a PID line has arrived, the line that was read is that PID, and what was logged or is still buffered follows it. */
  ghost predicate RestFollows(out: Stream, pidLine: seq<Byte>, logged: seq<seq<Byte>>) {
    forall pid: nat, rest :: out.Arrived() == Encode(Decimal(pid)) + [LF] + rest ==>
      ParsePid(pidLine) == Some(pid) && Flatten(logged) + out.buffer == rest
  }

  lemma RestIs(out: Stream, pidLine: seq<Byte>, newline: bool, logged: seq<seq<Byte>>)
    requires LineBytes(out.Arrived()) == pidLine
    requires if newline then |pidLine| < |out.Arrived()| && out.Arrived()[|pidLine| + 1..] == Flatten(logged) + out.buffer
             else out.Arrived() == pidLine
    ensures RestFollows(out, pidLine, logged)
  {
    forall pid: nat, rest | out.Arrived() == Encode(Decimal(pid)) + [LF] + rest
      ensures ParsePid(pidLine) == Some(pid) && Flatten(logged) + out.buffer == rest
    {
      PidRoundTrip(pid, rest);
    }
  }
}
