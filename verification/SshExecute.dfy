/**
  `QemuTarget.execute` of score/itf/plugins/qemu/qemu_target.py on top of the SSH read loop: when the
  output comes back byte for byte.
 */
module SshExecute {
  import opened Text
  import opened Utf8
  import opened ChannelLines
  import opened SshChannel
  import opened SshReadLoop

  // ---- schedules that cut no character ----

  /** What arrives on stdout in any eight steps in a row fits into one read. */
  ghost predicate Gentle(env: Schedule, combine: bool) {
    forall from: nat, end: nat :: from <= end <= from + 8 ==>
      |Delivered(env, combine, Stdout, from, end)| <= 32768
  }

  /** Every delivery on stdout is well-formed text. */
  ghost predicate DeliversText(env: Schedule, combine: bool) {
    forall k: nat :: WellFormed(BytesAt(env, combine, Stdout, k))
  }

  predicate AllWellFormed(chunks: seq<seq<Byte>>) {
    forall i :: 0 <= i < |chunks| ==> WellFormed(chunks[i])
  }

  lemma WellFormedConcat(a: seq<Byte>, b: seq<Byte>)
    requires WellFormed(a) && WellFormed(b)
    ensures WellFormed(a + b)
  {
    EncodeDecoded(a);
    EncodeDecoded(b);
    EncodeConcat(Decode(a), Decode(b));
    DecodeEncoded(Decode(a) + Decode(b));
  }

  lemma {:induction false} DeliveredText(env: Schedule, combine: bool, from: nat, end: nat)
    requires from <= end && DeliversText(env, combine)
    ensures WellFormed(Delivered(env, combine, Stdout, from, end))
    decreases end
  {
    if from < end {
      DeliveredText(env, combine, from, end - 1);
      WellFormedConcat(Delivered(env, combine, Stdout, from, end - 1), BytesAt(env, combine, Stdout, end - 1));
    }
  }

  /** The buffer holds what arrived in the last steps, `n` at most, and nothing else. */
  predicate Held(env: Schedule, s: State, mark: nat, n: nat) {
    mark <= s.step <= mark + n && s.out.buffer == Delivered(env, s.combine, Stdout, mark, s.step)
  }

  lemma NextHeld(env: Schedule, s: State, mark: nat, n: nat)
    requires Held(env, s, mark, n)
    ensures Held(env, s.Next(env), mark, n + 1)
  {
  }

  lemma EmptyHeld(env: Schedule, s: State)
    requires s.out.buffer == []
    ensures Held(env, s, s.step, 0)
  {
  }

  /** A look at stdout then takes all of it, in one well-formed chunk. */
  lemma LookOutHeld(env: Schedule, p: Progress, mark: nat)
    requires Gentle(env, p.ch.combine) && DeliversText(env, p.ch.combine)
    requires Held(env, p.ch, mark, 6) && AllWellFormed(p.ch.out.chunks)
    ensures var r := LookAt(env, p, Stdout);
            AllWellFormed(r.p.ch.out.chunks) && (!r.raised ==> Held(env, r.p.ch, r.p.ch.step, 0))
  {
    NextHeld(env, p.ch, mark, 6);
    var ready := p.ch.AfterReady(env, Stdout);
    assert Held(env, ready, mark, 7);
    if ready.out.buffer == [] {
      EmptyHeld(env, ready);
    } else {
      TakesAll(env, ready, mark);
    }
  }

  lemma TakesAll(env: Schedule, s: State, mark: nat)
    requires Gentle(env, s.combine) && DeliversText(env, s.combine)
    requires Held(env, s, mark, 7) && AllWellFormed(s.out.chunks)
    ensures var got := s.AfterRecv(env, Stdout, RECV_LIMIT);
            && AllWellFormed(got.out.chunks)
            && (s.Receives(env, Stdout, RECV_LIMIT).Data? ==> Held(env, got, got.step, 0))
  {
    var n := s.Next(env);
    var there := n.out.buffer;
    NextHeld(env, s, mark, 7);
    DeliveredText(env, s.combine, mark, n.step);
    assert |there| <= RECV_LIMIT && WellFormed(there);
    if s.Receives(env, Stdout, RECV_LIMIT).Data? {
      WholeBuffer(env, s, RECV_LIMIT);
      EmptyHeld(env, s.AfterRecv(env, Stdout, RECV_LIMIT));
    }
  }

  lemma WholeBuffer(env: Schedule, s: State, limit: nat)
    requires s.Receives(env, Stdout, limit).Data? && |s.Next(env).out.buffer| <= limit
    ensures s.Receives(env, Stdout, limit).bytes == s.Next(env).out.buffer
    ensures s.AfterRecv(env, Stdout, limit).out.buffer == []
  {
    var there := s.Next(env).out.buffer;
    assert there[..|there|] == there && there[|there|..] == [];
  }

  lemma LookErrHeld(env: Schedule, p: Progress, mark: nat, n: nat)
    requires Held(env, p.ch, mark, n)
    ensures Held(env, LookAt(env, p, Stderr).p.ch, mark, n + 2)
  {
    var ready := p.ch.AfterReady(env, Stderr);
    NextHeld(env, p.ch, mark, n);
    assert Held(env, ready, mark, n + 1);
    NextHeld(env, ready, mark, n + 1);
  }

  lemma LookBothHeld(env: Schedule, p: Progress, mark: nat, separateStderr: bool) returns (mark': nat)
    requires Gentle(env, p.ch.combine) && DeliversText(env, p.ch.combine)
    requires Held(env, p.ch, mark, 6) && AllWellFormed(p.ch.out.chunks)
    ensures var r := LookAtBoth(env, p, separateStderr);
            AllWellFormed(r.p.ch.out.chunks) && (!r.raised ==> Held(env, r.p.ch, mark', 2))
  {
    LookOutHeld(env, p, mark);
    var first := LookAt(env, p, Stdout);
    mark' := first.p.ch.step;
    if !first.raised && separateStderr {
      LookErrHeld(env, first.p, mark', 0);
    }
  }

  lemma WaitHeld(env: Schedule, s: State, mark: nat, from: int, length: nat, pause: nat)
    requires Held(env, s, mark, 3)
    ensures Held(env, s.AfterWait(env, from, length, pause), mark, 5)
  {
    NextHeld(env, s, mark, 3);
    var first := s.AfterSelect(env, from, length);
    assert Held(env, first, mark, 4);
    NextHeld(env, first, mark, 4);
  }

  lemma DrainHeld(env: Schedule, p: Progress, mark: nat, now: int, deadline: int, separateStderr: bool)
    returns (mark': nat)
    requires Gentle(env, p.ch.combine) && DeliversText(env, p.ch.combine)
    requires Held(env, p.ch, mark, 3) && AllWellFormed(p.ch.out.chunks)
    ensures var r := DrainPass(env, p, now, deadline, separateStderr);
            AllWellFormed(r.p.ch.out.chunks) && (r.verdict.Again? ==> Held(env, r.p.ch, mark', 5))
  {
    var remaining := deadline - now;
    var length, pause := Min(MAX_WAIT, AtLeastZero(remaining)), Min(PAUSE, AtLeastZero(remaining));
    WaitHeld(env, p.ch, mark, now, length, pause);
    mark' := LookBothHeld(env, p.(ch := p.ch.AfterWait(env, now, length, pause)), mark, separateStderr);
  }

  lemma NothingReadyHeld(env: Schedule, p: Progress, mark: nat, now: int, deadline: int, separateStderr: bool)
    returns (mark': nat)
    requires Gentle(env, p.ch.combine) && DeliversText(env, p.ch.combine)
    requires Held(env, p.ch, mark, 2) && AllWellFormed(p.ch.out.chunks)
    ensures var r := NothingReady(env, p, now, deadline, separateStderr);
            AllWellFormed(r.p.ch.out.chunks) && (r.verdict.Again? ==> Held(env, r.p.ch, mark', 5))
  {
    var asked := p.(ch := p.ch.AfterExitStatus(env));
    NextHeld(env, p.ch, mark, 2);
    assert Held(env, asked.ch, mark, 3);
    mark' := mark;
    if asked.ch.exited {
      mark' := DrainHeld(env, asked, mark, now, deadline, separateStderr);
    } else if now < deadline {
      WaitHeld(env, asked.ch, mark, now, Min(MAX_WAIT, deadline - now), Min(PAUSE, deadline - now));
    }
  }

  lemma PassHeld(env: Schedule, p: Progress, mark: nat, deadline: int, separateStderr: bool) returns (mark': nat)
    requires Gentle(env, p.ch.combine) && DeliversText(env, p.ch.combine)
    requires Held(env, p.ch, mark, 5) && AllWellFormed(p.ch.out.chunks)
    ensures var r := LoopPass(env, p, deadline, separateStderr);
            AllWellFormed(r.p.ch.out.chunks) && (r.verdict.Again? ==> Held(env, r.p.ch, mark', 5))
  {
    var start := p.(ch := p.ch.AfterTime(env));
    var now := start.ch.clock;
    NextHeld(env, p.ch, mark, 5);
    assert Held(env, start.ch, mark, 6);
    mark' := mark;
    if now <= deadline {
      mark' := LookBothHeld(env, start, mark, separateStderr);
      var look := LookAtBoth(env, start, separateStderr);
      if !look.raised && !look.didRead {
        mark' := NothingReadyHeld(env, look.p, mark', now, deadline, separateStderr);
      }
    }
  }

  lemma {:induction false} RunHeld(env: Schedule, p: Progress, mark: nat, deadline: int, separateStderr: bool)
    requires Gentle(env, p.ch.combine) && DeliversText(env, p.ch.combine)
    requires Held(env, p.ch, mark, 5) && AllWellFormed(p.ch.out.chunks)
    ensures AllWellFormed(LoopRun(env, p, deadline, separateStderr).p.ch.out.chunks)
    decreases if p.ch.clock <= deadline then deadline - p.ch.clock + 1 else 0
  {
    var mark' := PassHeld(env, p, mark, deadline, separateStderr);
    var pass := LoopPass(env, p, deadline, separateStderr);
    if pass.verdict.Again? {
      RunHeld(env, pass.p, mark', deadline, separateStderr);
    }
  }

  /** On a schedule that delivers text gently, every chunk that is read is well formed. */
  lemma GentleRun(env: Schedule, s: State, maxExecTime: int, separateStderr: bool)
    requires s.IsFresh() && s.Combined(!separateStderr).out.buffer == []
    requires Gentle(env, !separateStderr) && DeliversText(env, !separateStderr)
    ensures AllWellFormed(RunOf(env, s, maxExecTime, separateStderr).p.ch.out.chunks)
  {
    var c, start := s.Combined(!separateStderr), Start(env, s, separateStderr);
    EmptyHeld(env, c);
    NextHeld(env, c, c.step, 0);
    assert Held(env, start.ch, c.step, 5);
    RunHeld(env, start, c.step, DeadlineOf(env, s, maxExecTime, separateStderr), separateStderr);
  }

  // ---- a schedule that has a character cut ----

  /** There is such a text: one byte more than a read takes, with a character of two bytes at the end. */
  function CutText(limit: nat): seq<Byte>
    requires limit > 0
  {
    Letters(limit - 1) + [0xC3, 0xA9]
  }

  function Letters(n: nat): seq<Byte> {
    seq(n, _ => 97)
  }

  lemma {:induction false} LettersThen(n: nat, rest: seq<Byte>)
    ensures WellFormed(Letters(n) + rest) <==> WellFormed(rest)
  {
    if n == 0 {
      assert Letters(n) + rest == rest;
    } else {
      var all := Letters(n) + rest;
      assert all[0] == 97 && all[1..] == Letters(n - 1) + rest;
      LettersThen(n - 1, rest);
    }
  }

  /** A text that arrives at once, from a command that exits at the start. */
  function AtOnce(text: seq<Byte>): Schedule {
    (k: nat) => EnvStep(if k == 0 then text else [], [], true, false, 0, false)
  }

  lemma CutTextIsText(limit: nat)
    requires limit > 0
    ensures |CutText(limit)| == limit + 1 && WellFormed(CutText(limit)) && !WellFormed(CutText(limit)[..limit])
  {
    var c: seq<Byte>, cut: seq<Byte> := [0xC3, 0xA9], [0xC3];
    assert DecodeOne(c).ok && c[2..] == [];
    assert !DecodeOne(cut).ok;
    LettersThen(limit - 1, c);
    LettersThen(limit - 1, cut);
    assert CutText(limit)[..limit] == Letters(limit - 1) + cut;
  }

  /** The first pass over a full buffer reads the first part of it. */
  lemma FirstChunk(env: Schedule, p: Progress, deadline: int, separateStderr: bool)
    requires p.ch.out.chunks == [] && |p.ch.out.buffer| > RECV_LIMIT
    requires CalmFrom(env, p.ch.step) && p.ch.clock < deadline
    ensures [p.ch.out.buffer[..RECV_LIMIT]] <= LoopPass(env, p, deadline, separateStderr).p.ch.out.chunks
  {
    var start := p.(ch := p.ch.AfterTime(env));
    assert start.ch.out == p.ch.out;
    var ready := start.ch.AfterReady(env, Stdout);
    assert ready.out == p.ch.out;
    assert ready.Next(env).out == p.ch.out;
    var first := LookAt(env, start, Stdout);
    assert first.p.ch.out.chunks == [] + [p.ch.out.buffer[..RECV_LIMIT]] == [p.ch.out.buffer[..RECV_LIMIT]];
    LookGrows(env, first.p, Stderr, Stdout);
  }

  lemma FullBuffer(s: State, text: seq<Byte>, maxExecTime: int, separateStderr: bool)
    requires s == NOT_STARTED && maxExecTime > 0
    ensures var start := Start(AtOnce(text), s, separateStderr);
            && start.ch.out == Stream(text, []) && start.ch.step == 1
            && start.ch.clock < DeadlineOf(AtOnce(text), s, maxExecTime, separateStderr)
  {
    assert text + [] == text && [] + text == text;
  }

  lemma AtOnceDelivers(text: seq<Byte>, separateStderr: bool)
    requires WellFormed(text)
    ensures DeliversText(AtOnce(text), !separateStderr)
  {
    assert text + [] == text;
  }

  /**
    A well-formed text whose first part, as much of it as one read takes, is not well formed: all that
    is delivered is text, and yet the first chunk that is read is not.
   */
  lemma CutRun(s: State, text: seq<Byte>, maxExecTime: int, separateStderr: bool)
    requires s == NOT_STARTED && maxExecTime > 0
    requires |text| > 32768 && WellFormed(text) && !WellFormed(text[..32768])
    ensures DeliversText(AtOnce(text), !separateStderr)
    ensures !AllWellFormed(RunOf(AtOnce(text), s, maxExecTime, separateStderr).p.ch.out.chunks)
  {
    var env := AtOnce(text);
    AtOnceDelivers(text, separateStderr);
    FullBuffer(s, text, maxExecTime, separateStderr);
    LaterIsCalm(text);
    OverfullRun(env, Start(env, s, separateStderr), DeadlineOf(env, s, maxExecTime, separateStderr), separateStderr);
  }

  /** From some step on nothing arrives, nothing fails and no time passes by itself. */
  ghost predicate CalmFrom(env: Schedule, from: nat) {
    forall k: nat :: k >= from ==> env(k).out == [] && env(k).err == [] && !env(k).raises && env(k).elapsed == 0
  }

  lemma LaterIsCalm(text: seq<Byte>)
    ensures CalmFrom(AtOnce(text), 1)
  {
  }

  lemma OverfullRun(env: Schedule, p: Progress, deadline: int, separateStderr: bool)
    requires p.ch.out.chunks == [] && |p.ch.out.buffer| > RECV_LIMIT && !WellFormed(p.ch.out.buffer[..RECV_LIMIT])
    requires CalmFrom(env, p.ch.step) && p.ch.clock < deadline
    ensures !AllWellFormed(LoopRun(env, p, deadline, separateStderr).p.ch.out.chunks)
  {
    FirstChunk(env, p, deadline, separateStderr);
    CutStays(env, p, deadline, separateStderr);
  }

  lemma CutStays(env: Schedule, p: Progress, deadline: int, separateStderr: bool)
    requires |p.ch.out.buffer| > RECV_LIMIT && !WellFormed(p.ch.out.buffer[..RECV_LIMIT])
    requires [p.ch.out.buffer[..RECV_LIMIT]] <= LoopPass(env, p, deadline, separateStderr).p.ch.out.chunks
    ensures !AllWellFormed(LoopRun(env, p, deadline, separateStderr).p.ch.out.chunks)
  {
    var pass := LoopPass(env, p, deadline, separateStderr);
    if pass.verdict.Again? {
      RunGrows(env, pass.p, deadline, separateStderr, Stdout);
    }
    var chunks := LoopRun(env, p, deadline, separateStderr).p.ch.out.chunks;
    assert pass.p.ch.out.chunks <= chunks;
    assert chunks[0] == p.ch.out.buffer[..RECV_LIMIT];
  }

  lemma {:induction false} JoinedLines(text: string)
    ensures Flatten(SplitLines(text)) == text
  {
    SplitLinesMeaning(text);
  }

  /** `QemuTarget.execute`, once the SSH session is open. */
  method Execute(channel: Channel) returns (code: int, output: seq<Byte>, ghost exit: Exit)
    requires channel.s.IsFresh() && channel.s.Valid(channel.env)
    modifies channel
    ensures channel.closed
    ensures var r := RunOf(channel.env, old(channel.s), 180_000, true);
            channel.s == r.p.ch && exit == r.exit
    ensures code == if exit == Finished then channel.exitStatus else -1
    ensures output == Encode(Flatten(DecodeAll(channel.s.out.chunks)))
    // the bytes that were read come back unchanged exactly when every chunk is well-formed UTF-8
    ensures output == channel.s.out.Read()
       <==> (forall i :: 0 <= i < |channel.s.out.chunks| ==> WellFormed(channel.s.out.chunks[i]))
    // which they are when every delivery is text and eight steps never bring more than one read takes
    ensures old(channel.s).out.buffer == [] && Gentle(channel.env, false) && DeliversText(channel.env, false) ==>
              output == channel.s.out.Read()
    // and on a normal exit they are what the schedule delivered before the last readiness check
    ensures exit == Finished ==> FinishedProperly(channel.env, channel.s, true)
    ensures exit == Failed <==> channel.s.failed
  {
    var lines, stderrLines;
    code, lines, stderrLines, exit := ExecuteCommandOutput(channel, 180_000, true);
    output := Encode(Flatten(lines));
    JoinedLines(Flatten(DecodeAll(channel.s.out.chunks)));
    ChunkwiseFidelity(channel.s.out.chunks);
    if old(channel.s).out.buffer == [] && Gentle(channel.env, false) && DeliversText(channel.env, false) {
      GentleRun(channel.env, old(channel.s), 180_000, true);
    }
  }

  /** Cuts at code-point boundaries give well-formed chunks, and no other chunks are well formed. */
  lemma WellFormedChunks(chunk: seq<Byte>)
    ensures WellFormed(chunk) <==> exists text :: chunk == Encode(text)
  {
    if WellFormed(chunk) {
      EncodeDecoded(chunk);
      assert chunk == Encode(Decode(chunk));
    }
    forall text | chunk == Encode(text)
      ensures WellFormed(chunk)
    {
      DecodeEncoded(text);
    }
  }
}
