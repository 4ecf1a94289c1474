/**
  An SSH channel whose environment is adversarial: before every call the environment takes one step of
  an arbitrary schedule, in which it may deliver bytes on either stream, let the command exit, end the
  streams, let time pass, or make a call fail. Times are in milliseconds.

  A wait that is not woken by data or by the end of the streams, and does not fail, takes its whole
  length, besides the time that the schedule lets pass.

  What has arrived on a stream, and what of it has been read, is tied to the schedule step by step.
 */
module SshChannel {
  import opened Text
  import opened Utf8

  datatype EnvStep = EnvStep(
    out: seq<Byte>, err: seq<Byte>, exits: bool, ends: bool, elapsed: nat, raises: bool)

  type Schedule = nat -> EnvStep

  datatype Direction = Stdout | Stderr

  function Other(d: Direction): Direction {
    if d.Stdout? then Stderr else Stdout
  }

  /** What one step of the schedule puts on a stream; with stderr merged, both go to stdout. */
  function BytesAt(env: Schedule, combine: bool, d: Direction, k: nat): (r: seq<Byte>)
    ensures env(k).out == [] && env(k).err == [] ==> r == []
  {
    if d.Stdout? then (if combine then env(k).out + env(k).err else env(k).out)
    else if combine then [] else env(k).err
  }

  /** What the steps from `from` up to, but not including, `end` put on a stream. */
  function Delivered(env: Schedule, combine: bool, d: Direction, from: nat, end: nat): seq<Byte>
    requires from <= end
  {
    if from == end then [] else Delivered(env, combine, d, from, end - 1) + BytesAt(env, combine, d, end - 1)
  }

  predicate ExitedBy(env: Schedule, k: nat) {
    k > 0 && (env(k - 1).exits || ExitedBy(env, k - 1))
  }

  /** The end of the streams was received before step `k`. */
  predicate EndedBy(env: Schedule, k: nat) {
    k > 0 && (env(k - 1).ends || EndedBy(env, k - 1))
  }

  /** Nothing arrives behind the end of the streams. */
  ghost predicate EndsProperly(env: Schedule) {
    forall k: nat :: EndedBy(env, k) ==> env(k).out == [] && env(k).err == []
  }

  lemma {:induction false} ExitedLater(env: Schedule, j: nat, k: nat)
    requires j <= k
    ensures ExitedBy(env, j) ==> ExitedBy(env, k)
    ensures EndedBy(env, j) ==> EndedBy(env, k)
    decreases k
  {
    if j < k {
      ExitedLater(env, j, k - 1);
    }
  }

  /** Nothing arrives on the stream from a step on. */
  ghost predicate SilentFrom(env: Schedule, combine: bool, d: Direction, from: nat) {
    forall k: nat :: k >= from ==> BytesAt(env, combine, d, k) == []
  }

  /** In these steps nothing arrives, however much time passes. */
  predicate Idle(env: Schedule, from: nat, end: nat) {
    forall k: nat :: from <= k < end ==> env(k).out == [] && env(k).err == []
  }

  /** What has been delivered by a step is all that ever will be. */
  ghost predicate CompleteBy(env: Schedule, combine: bool, d: Direction, from: nat, mark: nat)
    requires from <= mark
  {
    forall end: nat :: end >= mark ==> Delivered(env, combine, d, from, end) == Delivered(env, combine, d, from, mark)
  }

  /** The deliveries are complete by a step exactly when the stream is silent from that step on. */
  lemma CompleteExactly(env: Schedule, combine: bool, d: Direction, from: nat, mark: nat)
    requires from <= mark
    ensures CompleteBy(env, combine, d, from, mark) <==> SilentFrom(env, combine, d, mark)
  {
    if SilentFrom(env, combine, d, mark) {
      forall end: nat | end >= mark
        ensures Delivered(env, combine, d, from, end) == Delivered(env, combine, d, from, mark)
      {
        SilenceDelivers(env, combine, d, from, mark, end);
      }
    }
    if CompleteBy(env, combine, d, from, mark) {
      forall k: nat | k >= mark
        ensures BytesAt(env, combine, d, k) == []
      {
        var now, next := Delivered(env, combine, d, from, k), Delivered(env, combine, d, from, k + 1);
        assert next == now + BytesAt(env, combine, d, k);
        assert next == now == Delivered(env, combine, d, from, mark);
        assert |next| == |now| + |BytesAt(env, combine, d, k)|;
      }
    }
  }

  lemma {:induction false} SilenceDelivers(
    env: Schedule, combine: bool, d: Direction, from: nat, mark: nat, end: nat)
    requires from <= mark <= end && SilentFrom(env, combine, d, mark)
    ensures Delivered(env, combine, d, from, end) == Delivered(env, combine, d, from, mark)
    decreases end
  {
    if mark < end {
      SilenceDelivers(env, combine, d, from, mark, end - 1);
      assert BytesAt(env, combine, d, end - 1) == [];
    }
  }

  lemma {:induction false} MergedDeliversNoStderr(env: Schedule, from: nat, end: nat)
    requires from <= end
    ensures Delivered(env, true, Stderr, from, end) == []
    decreases end
  {
    if from < end {
      MergedDeliversNoStderr(env, from, end - 1);
    }
  }

  datatype Received = Data(bytes: seq<Byte>) | Raised

  /** One step of a `recv` that blocks: it may fail, get something, learn of the end, or go on waiting. */
  datatype Attempt = Fails | Got(data: seq<Byte>) | AtEnd | Waits

  /** One direction of the channel: the buffer, and what recv returned so far. */
  datatype Stream = Stream(buffer: seq<Byte>, chunks: seq<seq<Byte>>) {
    function Read(): seq<Byte> {
      Flatten(chunks)
    }

    /** Everything that ever reached the buffer. */
    function Arrived(): seq<Byte> {
      Read() + buffer
    }

    function Arrive(more: seq<Byte>): (s: Stream)
      ensures s.Arrived() == Arrived() + more
      ensures more == [] ==> s == this
    {
      assert Read() + (buffer + more) == Arrived() + more;
      assert buffer + [] == buffer;
      this.(buffer := buffer + more)
    }

    function Take(n: nat): (s: Stream)
      requires n <= |buffer|
      ensures s.Arrived() == Arrived() && s.chunks == chunks + [buffer[..n]]
    {
      FlattenSnoc(chunks, buffer[..n]);
      assert Read() + buffer[..n] + buffer[n..] == Arrived();
      Stream(buffer[n..], chunks + [buffer[..n]])
    }
  }

  const NOTHING := Stream([], [])

  lemma ArrivesNext(
    s: Stream, base: seq<Byte>, env: Schedule, combine: bool, d: Direction, from: nat, k: nat)
    requires from <= k && s.Arrived() == base + Delivered(env, combine, d, from, k)
    ensures s.Arrive(BytesAt(env, combine, d, k)).Arrived() == base + Delivered(env, combine, d, from, k + 1)
  {
    var before, more := Delivered(env, combine, d, from, k), BytesAt(env, combine, d, k);
    assert base + (before + more) == base + before + more;
  }

  lemma NothingReadYet(s: Stream)
    requires s.chunks == []
    ensures s.Arrived() == s.buffer == s.buffer + []
  {
  }

  function Min(a: int, b: int): int {
    if a < b then a else b
  }

  /** How a wait ended: by data or the end of the streams, after its whole length, with an error, or as a plain sleep. */
  datatype WaitEnd = Woken | Whole | SelectRaised | Slept

  /** A wait: its step, the loop-head time it was computed from, its length, when it began and ended, and how. */
  datatype Wait = Wait(at: nat, from: int, length: nat, began: int, until: int, how: WaitEnd)

  /**
    The channel, and besides what it did: from which step deliveries are counted and what had arrived
    before it, the steps of the last readiness checks and of the last report that the command has
    exited, whether a read raised, and the waits.
   */
  datatype State = State(
    step: nat, clock: int, combine: bool, exited: bool, ended: bool, out: Stream, err: Stream,
    origin: nat, outBase: seq<Byte>, errBase: seq<Byte>,
    outChecked: nat, errChecked: nat, exitSeen: bool, exitAt: nat, failed: bool, waits: seq<Wait>)
  {
    function Of(d: Direction): Stream {
      if d.Stdout? then out else err
    }

    function With(d: Direction, s: Stream): (r: State)
      ensures r.Of(d) == s && r.Of(Other(d)) == Of(Other(d))
      ensures Precedes(r) && ReportsAs(r)
      ensures r.failed == failed && r.outChecked == outChecked && r.errChecked == errChecked
    {
      if d.Stdout? then this.(out := s) else this.(err := s)
    }

    function CheckedAt(d: Direction): nat {
      if d.Stdout? then outChecked else errChecked
    }

    /** All that has arrived on a stream before step `k`. */
    function ArrivedBy(env: Schedule, d: Direction, k: nat): seq<Byte>
      requires origin <= k
    {
      (if d.Stdout? then outBase else errBase) + Delivered(env, combine, d, origin, k)
    }

    /** What arrived is what the schedule delivered, and the exit is the schedule's. */
    predicate Valid(env: Schedule) {
      && origin <= outChecked <= step && origin <= errChecked <= step
      && out.Arrived() == ArrivedBy(env, Stdout, step)
      && err.Arrived() == ArrivedBy(env, Stderr, step)
      && exited == ExitedBy(env, step) && ended == EndedBy(env, step)
      && (exitSeen ==> exitAt <= step && ExitedBy(env, exitAt))
      && (combine ==> errBase == [])
    }

    /** Nothing was read or observed yet. */
    predicate IsFresh() {
      out.chunks == [] && err.chunks == [] && !exitSeen && !failed && waits == []
    }

    /** Nothing is waiting to be read. */
    predicate IsEmpty() {
      out.buffer == [] && err.buffer == []
    }

    /** Read so far: exactly what had arrived by the step of the last readiness check. */
    predicate Drained(env: Schedule, d: Direction) {
      origin <= CheckedAt(d) && Of(d).Read() == ArrivedBy(env, d, CheckedAt(d))
    }

    /** Deliveries are counted as before, time has not run back, and exit and end are final. */
    predicate Precedes(s: State) {
      && s.origin == origin && s.combine == combine && s.outBase == outBase && s.errBase == errBase
      && step <= s.step && clock <= s.clock && (exited ==> s.exited) && (ended ==> s.ended)
    }

    /** Neither the exit was reported again nor waited for anything. */
    predicate ReportsAs(s: State) {
      s.exitSeen == exitSeen && s.exitAt == exitAt && s.waits == waits
    }

    // ---- what the calls do ----

    /** One step of the schedule. */
    function Next(env: Schedule): (s: State)
      ensures s.step == step + 1 && s.clock == clock + env(step).elapsed
      ensures s.out.chunks == out.chunks && s.err.chunks == err.chunks
      ensures Precedes(s) && ReportsAs(s)
      ensures s.failed == failed && s.outChecked == outChecked && s.errChecked == errChecked
    {
      this.(step := step + 1,
            clock := clock + env(step).elapsed,
            exited := exited || env(step).exits,
            ended := ended || env(step).ends,
            out := out.Arrive(BytesAt(env, combine, Stdout, step)),
            err := err.Arrive(BytesAt(env, combine, Stderr, step)))
    }

    /** Merging moves what is already buffered for stderr to stdout; deliveries are counted from here. */
    function Combined(on: bool): State {
      var o := if on then Stream(out.buffer + err.buffer, out.chunks) else out;
      var e := if on then Stream([], err.chunks) else err;
      this.(combine := on, out := o, err := e, origin := step, outBase := o.buffer, errBase := e.buffer,
            outChecked := step, errChecked := step)
    }

    /** The clock advances between two readings. */
    function AfterTime(env: Schedule): (s: State)
      ensures Precedes(s) && clock < s.clock
    {
      var n := Next(env);
      n.(clock := n.clock + 1)
    }

    function AfterReady(env: Schedule, d: Direction): (s: State)
      ensures Precedes(s) && ReportsAs(s) && s.failed == failed
      ensures step < s.step == s.CheckedAt(d) && s.CheckedAt(Other(d)) == CheckedAt(Other(d))
      ensures s.out.chunks == out.chunks && s.err.chunks == err.chunks
    {
      var n := Next(env);
      if d.Stdout? then n.(outChecked := n.step) else n.(errChecked := n.step)
    }

    /** Up to `limit` buffered bytes; with nothing buffered, or when the schedule says so, the call raises. */
    function Receives(env: Schedule, d: Direction, limit: nat): (r: Received)
      ensures r.Data? ==> |r.bytes| <= |Next(env).Of(d).buffer| && r.bytes == Next(env).Of(d).buffer[..|r.bytes|]
      ensures r.Data? && limit > 0 ==> 0 < |r.bytes| <= limit
    {
      var there := Next(env).Of(d).buffer;
      if env(step).raises || there == [] then Raised else Data(there[..Min(|there|, limit)])
    }

    function AfterRecv(env: Schedule, d: Direction, limit: nat): (s: State)
      ensures Precedes(s) && ReportsAs(s)
      ensures s.failed == (failed || Receives(env, d, limit).Raised?)
      ensures s.outChecked == outChecked && s.errChecked == errChecked
      ensures s.Of(Other(d)).chunks == Of(Other(d)).chunks
      ensures s.Of(d).chunks
           == match Receives(env, d, limit) case Raised => Of(d).chunks case Data(bytes) => Of(d).chunks + [bytes]
    {
      var n := Next(env);
      match Receives(env, d, limit)
      case Raised => n.(failed := true)
      case Data(bytes) => n.With(d, n.Of(d).Take(|bytes|))
    }

    function Tries(env: Schedule, limit: nat): (r: Attempt)
      ensures r.Got? ==> |r.data| <= |Next(env).out.buffer| && r.data == Next(env).out.buffer[..|r.data|]
      ensures r.Got? && limit > 0 ==> 0 < |r.data| <= limit
    {
      var there := Next(env).out.buffer;
      if env(step).raises then Fails
      else if there != [] then Got(there[..Min(|there|, limit)])
      else if Next(env).ended then AtEnd
      else Waits
    }

    function AfterTry(env: Schedule, limit: nat): (s: State)
      ensures Precedes(s) && ReportsAs(s) && s.step == step + 1
      ensures s.failed == (failed || Tries(env, limit).Fails?)
      ensures s.out.chunks == match Tries(env, limit) case Got(data) => out.chunks + [data] case _ => out.chunks
    {
      var n := Next(env);
      match Tries(env, limit)
      case Fails => n.(failed := true)
      case Got(data) => n.With(Stdout, n.out.Take(|data|))
      case _ => n
    }

    function AfterExitStatus(env: Schedule): (s: State)
      ensures Precedes(s)
      ensures s.out.chunks == out.chunks && s.err.chunks == err.chunks
    {
      var n := Next(env);
      if n.exited then n.(exitSeen := true, exitAt := n.step) else n
    }

    /** A wait has ended: it is noted, and the clock stands where it ended. */
    function Waited(w: Wait): State {
      this.(clock := w.until, waits := waits + [w])
    }

    /** The fallback sleep, after a wait that failed. */
    function AfterSleep(env: Schedule, from: int, length: nat): (s: State)
      ensures Precedes(s) && s.out.chunks == out.chunks && s.err.chunks == err.chunks
    {
      var n := Next(env);
      n.Waited(Wait(step, from, length, clock, n.clock + length, Slept))
    }

    /** How a wait that starts now ends. */
    function WaitEnds(env: Schedule): WaitEnd {
      if env(step).raises then SelectRaised
      else if Next(env).IsEmpty() && !Next(env).ended then Whole
      else Woken
    }

    /** `select.select([channel], [], [], length)`; only when nothing wakes it does it take its whole length. */
    function AfterSelect(env: Schedule, from: int, length: nat): (s: State)
      ensures Precedes(s) && s.out.chunks == out.chunks && s.err.chunks == err.chunks
    {
      var n, how := Next(env), WaitEnds(env);
      n.Waited(Wait(step, from, length, clock, n.clock + (if how == Whole then length else 0), how))
    }

    function AfterWait(env: Schedule, from: int, length: nat, fallback: nat): (s: State)
      ensures Precedes(s) && s.out.chunks == out.chunks && s.err.chunks == err.chunks
    {
      var s := AfterSelect(env, from, length);
      if WaitEnds(env) == SelectRaised then s.AfterSleep(env, from, fallback) else s
    }
  }

  lemma NextValid(s: State, env: Schedule)
    requires s.Valid(env)
    ensures s.Next(env).Valid(env)
  {
    ArrivesNext(s.out, s.outBase, env, s.combine, Stdout, s.origin, s.step);
    ArrivesNext(s.err, s.errBase, env, s.combine, Stderr, s.origin, s.step);
  }

  lemma CombinedValid(s: State, env: Schedule, on: bool)
    requires s.IsFresh() && s.exited == ExitedBy(env, s.step) && s.ended == EndedBy(env, s.step)
    ensures s.Combined(on).Valid(env)
  {
    var c := s.Combined(on);
    NothingReadYet(c.out);
    NothingReadYet(c.err);
    assert c.ArrivedBy(env, Stdout, c.step) == c.outBase + [] == c.outBase;
    assert c.ArrivedBy(env, Stderr, c.step) == c.errBase + [] == c.errBase;
  }

  /** After a readiness check that finds nothing, the stream is drained. */
  lemma ReadyValid(s: State, env: Schedule, d: Direction)
    requires s.Valid(env)
    ensures s.AfterReady(env, d).Valid(env)
    ensures s.AfterReady(env, d).Of(d).buffer == [] ==> s.AfterReady(env, d).Drained(env, d)
  {
    NextValid(s, env);
    var n := s.Next(env);
    assert n.Of(d).Read() + [] == n.Of(d).Read();
  }

  lemma RecvValid(s: State, env: Schedule, d: Direction, limit: nat)
    requires s.Valid(env)
    ensures s.AfterRecv(env, d, limit).Valid(env)
  {
    NextValid(s, env);
    var n := s.Next(env);
    MarksKeepValid(n, env, n.waits, true);
    if s.Receives(env, d, limit).Data? {
      TakeValid(n, env, d, |s.Receives(env, d, limit).bytes|);
    }
  }

  lemma TryValid(s: State, env: Schedule, limit: nat)
    requires s.Valid(env)
    ensures s.AfterTry(env, limit).Valid(env)
  {
    NextValid(s, env);
    var n := s.Next(env);
    MarksKeepValid(n, env, n.waits, true);
    if s.Tries(env, limit).Got? {
      TakeValid(n, env, Stdout, |s.Tries(env, limit).data|);
    }
  }

  lemma TakeValid(s: State, env: Schedule, d: Direction, n: nat)
    requires s.Valid(env) && n <= |s.Of(d).buffer|
    ensures s.With(d, s.Of(d).Take(n)).Valid(env)
  {
    assert s.Of(d).Take(n).Arrived() == s.Of(d).Arrived();
  }

  lemma MarksKeepValid(s: State, env: Schedule, waits: seq<Wait>, failed: bool)
    requires s.Valid(env)
    ensures s.(waits := waits).Valid(env) && s.(failed := failed).Valid(env)
  {
  }

  lemma WaitedValid(s: State, env: Schedule, w: Wait)
    requires s.Valid(env)
    ensures s.Waited(w).Valid(env)
  {
  }

  lemma SelectValid(s: State, env: Schedule, from: int, length: nat)
    requires s.Valid(env)
    ensures s.AfterSelect(env, from, length).Valid(env)
  {
    var n, how := s.Next(env), s.WaitEnds(env);
    NextValid(s, env);
    WaitedValid(n, env, Wait(s.step, from, length, s.clock, n.clock + (if how == Whole then length else 0), how));
  }

  lemma SleepValid(s: State, env: Schedule, from: int, length: nat)
    requires s.Valid(env)
    ensures s.AfterSleep(env, from, length).Valid(env)
  {
    var n := s.Next(env);
    NextValid(s, env);
    WaitedValid(n, env, Wait(s.step, from, length, s.clock, n.clock + length, Slept));
  }

  lemma WaitValid(s: State, env: Schedule, from: int, length: nat, fallback: nat)
    requires s.Valid(env)
    ensures s.AfterWait(env, from, length, fallback).Valid(env)
  {
    SelectValid(s, env, from, length);
    SleepValid(s.AfterSelect(env, from, length), env, from, fallback);
  }

  /** In an idle step nothing changes but the step itself and the clock, and possibly what the command does. */
  lemma IdleNext(s: State, env: Schedule, end: nat)
    requires Idle(env, s.step, end) && s.step < end
    ensures s.Next(env)
         == s.(step := s.step + 1, clock := s.clock + env(s.step).elapsed,
               exited := s.exited || env(s.step).exits, ended := s.ended || env(s.step).ends)
  {
  }

  const NOT_STARTED := State(0, 0, false, false, false, NOTHING, NOTHING, 0, [], [], 0, 0, false, 0, false, [])

  /** A paramiko channel, as its callers see it. */
  class Channel {
    const env: Schedule
    const exitStatus: int
    var s: State
    var closed: bool

    constructor (env: Schedule, exitStatus: int, clock: int)
      ensures this.env == env && this.exitStatus == exitStatus && !closed
      ensures s == NOT_STARTED.(clock := clock) && s.IsFresh() && s.Valid(env)
    {
      this.env, this.exitStatus := env, exitStatus;
      s, closed := NOT_STARTED.(clock := clock), false;
    }

    /** Merging moves what is buffered for stderr behind what is buffered for stdout. */
    method SetCombineStderr(on: bool)
      modifies this`s
      ensures s == old(s).Combined(on)
      ensures s.combine == on && s.origin == s.step == old(s.step)
      ensures s.out.buffer == if on then old(s.out.buffer) + old(s.err.buffer) else old(s.out.buffer)
      ensures s.err.buffer == if on then [] else old(s.err.buffer)
      ensures s.out.chunks == old(s.out.chunks) && s.err.chunks == old(s.err.chunks)
      // from here on everything goes to stdout, or each stream to its own
      ensures forall k: nat :: BytesAt(env, s.combine, Stdout, k) == if on then env(k).out + env(k).err else env(k).out
      ensures forall k: nat :: BytesAt(env, s.combine, Stderr, k) == if on then [] else env(k).err
    {
      s := s.Combined(on);
    }

    method Time() returns (now: int)
      modifies this`s
      ensures s == old(s).AfterTime(env) && now == s.clock
    {
      s := s.AfterTime(env);
      now := s.clock;
    }

    method RecvReady() returns (ready: bool)
      modifies this`s
      ensures s == old(s).AfterReady(env, Stdout) && ready == (s.out.buffer != [])
    {
      s := s.AfterReady(env, Stdout);
      ready := s.out.buffer != [];
    }

    method RecvStderrReady() returns (ready: bool)
      modifies this`s
      ensures s == old(s).AfterReady(env, Stderr) && ready == (s.err.buffer != [])
    {
      s := s.AfterReady(env, Stderr);
      ready := s.err.buffer != [];
    }

    method Recv(limit: nat) returns (r: Received)
      modifies this`s
      ensures s == old(s).AfterRecv(env, Stdout, limit) && r == old(s).Receives(env, Stdout, limit)
    {
      r := s.Receives(env, Stdout, limit);
      s := s.AfterRecv(env, Stdout, limit);
    }

    /** A step of a blocking `recv`. */
    method TryRecv(limit: nat) returns (r: Attempt)
      modifies this`s
      ensures s == old(s).AfterTry(env, limit) && r == old(s).Tries(env, limit)
    {
      r := s.Tries(env, limit);
      s := s.AfterTry(env, limit);
    }

    method RecvStderr(limit: nat) returns (r: Received)
      modifies this`s
      ensures s == old(s).AfterRecv(env, Stderr, limit) && r == old(s).Receives(env, Stderr, limit)
    {
      r := s.Receives(env, Stderr, limit);
      s := s.AfterRecv(env, Stderr, limit);
    }

    method ExitStatusReady() returns (ready: bool)
      modifies this`s
      ensures s == old(s).AfterExitStatus(env) && ready == s.exited
    {
      s := s.AfterExitStatus(env);
      ready := s.exited;
    }

    method WaitFor(from: int, length: nat, fallback: nat)
      modifies this`s
      ensures s == old(s).AfterWait(env, from, length, fallback)
    {
      s := s.AfterWait(env, from, length, fallback);
    }

    /** `time.sleep` */
    method Sleep(length: nat)
      modifies this`s
      ensures s == old(s).AfterSleep(env, old(s.clock), length)
    {
      s := s.AfterSleep(env, s.clock, length);
    }

    method Close()
      modifies this`closed
      ensures closed
    {
      closed := true;
    }
  }
}
