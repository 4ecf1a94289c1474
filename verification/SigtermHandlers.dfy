/**
  `ProcessWrapper` of score/itf/core/process/process_wrapper.py and the one SIGTERM handler of the
  process: every start saves the handler in force and installs its own, every kill puts the saved
  one back, and blocks nest.
 */
module SigtermHandlers {
  import opened Text

  /** A handler from outside, or the `_signal_handler` of a wrapper. */
  datatype Handler = Outside(id: nat) | Own(wrapper: nat)

  // ---- the objects ----

  /** The process-wide table of signal handlers, as far as SIGTERM goes. */
  class SignalTable {
    var sigterm: Handler

    constructor (h: Handler)
      ensures sigterm == h
    {
      sigterm := h;
    }

    /** `signal.signal(signal.SIGTERM, h)` */
    method Signal(h: Handler) returns (previous: Handler)
      modifies this
      ensures previous == old(sigterm) && sigterm == h
    {
      previous := sigterm;
      sigterm := h;
    }
  }

  /**
    What the operating system makes of stopping a process group. Only the last outcome leaves
    `kill_process` by an exception, and then before the handler is put back.
   */
  datatype KillOutcome =
    | AlreadyTerminated
    | StoppedByTerm
    | TermFailed           // OSError, logged
    | StoppedByKill
    | KillTimedOut         // still running five seconds after SIGKILL, logged
    | GroupNotFound        // ProcessLookupError, logged
    | OtherError

  /** Creating the process can fail, and so can the monitoring of its first seconds. */
  datatype StartOutcome = Started | NotCreated | DiedAtStartup

  class ProcessWrapper {
    const id: nat
    var hasProcess: bool                // `_process` is not None
    var oldSigterm: Option<Handler>

    constructor (id: nat)
      ensures this.id == id && !hasProcess && oldSigterm == None
    {
      this.id, hasProcess, oldSigterm := id, false, None;
    }

    /** The handler is installed before the process is created, and stays when the start fails. */
    method StartProcess(table: SignalTable, start: StartOutcome) returns (raised: bool)
      modifies this, table
      ensures oldSigterm == Some(old(table.sigterm)) && table.sigterm == Own(id)
      ensures hasProcess == (old(hasProcess) || start != NotCreated) && raised == (start != Started)
    {
      var previous := table.Signal(Own(id));
      oldSigterm := Some(previous);
      if start == NotCreated {
        return true;
      }
      hasProcess := true;
      raised := start == DiedAtStartup;
    }

    method KillProcess(table: SignalTable, outcome: KillOutcome) returns (raised: bool)
      requires hasProcess ==> oldSigterm.Some?
      modifies table
      ensures raised <==> !hasProcess || outcome == OtherError
      ensures table.sigterm == if raised then old(table.sigterm) else oldSigterm.value
    {
      if !hasProcess || outcome == OtherError {
        return true;
      }
      var _ := table.Signal(oldSigterm.value);
      raised := false;
    }

    method RestartProcess(table: SignalTable, outcome: KillOutcome, start: StartOutcome) returns (raised: bool)
      requires hasProcess ==> oldSigterm.Some?
      modifies this, table
      ensures raised <==> !old(hasProcess) || outcome == OtherError || start != Started
      ensures hasProcess == old(hasProcess)
      ensures !old(hasProcess) || outcome == OtherError ==>
                table.sigterm == old(table.sigterm) && oldSigterm == old(oldSigterm)
      // what is saved again is what the kill has just put back
      ensures old(hasProcess) && outcome != OtherError ==>
                table.sigterm == Own(id) && oldSigterm == old(oldSigterm)
    {
      raised := KillProcess(table, outcome);
      if !raised {
        raised := StartProcess(table, start);
      }
    }

    /** `wait_to_finish` when the time is up: kill, then raise. */
    method WaitTimesOut(table: SignalTable, outcome: KillOutcome) returns (raised: bool)
      requires hasProcess ==> oldSigterm.Some?
      modifies table
      ensures raised
      ensures table.sigterm == if hasProcess && outcome != OtherError then oldSigterm.value else old(table.sigterm)
    {
      var _ := KillProcess(table, outcome);
      raised := true;
    }
  }

  // ---- programs that use wrappers ----

  datatype Cmd =
    | Kill(w: nat, outcome: KillOutcome)
    | Restart(w: nat, outcome: KillOutcome, start: StartOutcome)
    | WaitTimeout(w: nat, outcome: KillOutcome)
    | Signal(outcome: KillOutcome)                    // SIGTERM arrives
    | Raise
    | Try(body: seq<Cmd>)                             // swallow an exception
    | With(w: nat, start: StartOutcome, body: seq<Cmd>, atExit: KillOutcome)

  /** The handler in force, and of every wrapper the saved handler and whether it has a process. */
  datatype World = World(handler: Handler, saved: seq<Option<Handler>>, has: seq<bool>) {
    predicate Valid() {
      |saved| == |has| && forall w :: 0 <= w < |has| && has[w] ==> saved[w].Some?
    }

    function Start(w: nat, start: StartOutcome): (s: World)
      requires Valid() && w < |has|
      ensures s.Valid() && |s.has| == |has|
    {
      World(Own(w), saved[w := Some(handler)], has[w := has[w] || start != NotCreated])
    }

    predicate KillWorks(w: nat, outcome: KillOutcome) {
      w < |has| && has[w] && outcome != OtherError
    }

    function Killed(w: nat, outcome: KillOutcome): (s: World)
      requires Valid()
      ensures s.Valid() && |s.has| == |has| && s.saved == saved
    {
      if KillWorks(w, outcome) then World(saved[w].value, saved, has) else this
    }
  }

  datatype Result = Result(world: World, raised: bool)

  function ExecOne(s: World, cmd: Cmd): (r: Result)
    requires s.Valid()
    ensures r.world.Valid() && |r.world.has| == |s.has|
    decreases cmd, 1
  {
    match cmd
    case Kill(w, outcome) => Result(s.Killed(w, outcome), !s.KillWorks(w, outcome))
    case Restart(w, outcome, start) =>
      if s.KillWorks(w, outcome) then Result(s.Killed(w, outcome).Start(w, start), start != Started)
      else Result(s, true)
    case WaitTimeout(w, outcome) => Result(s.Killed(w, outcome), true)
    case Signal(outcome) =>
      if s.handler.Own?
      then Result(s.Killed(s.handler.wrapper, outcome), !s.KillWorks(s.handler.wrapper, outcome))
      else Result(s, false)
    case Raise => Result(s, true)
    case Try(body) => Result(Exec(s, body).world, false)
    case With(w, start, body, atExit) =>
      if w >= |s.has| then Result(s, true)
      else if start != Started then Result(s.Start(w, start), true)
      else
        var inner := Exec(s.Start(w, Started), body);
        Result(inner.world.Killed(w, atExit), inner.raised || !inner.world.KillWorks(w, atExit))
  }

  function Exec(s: World, cmds: seq<Cmd>): (r: Result)
    requires s.Valid()
    ensures r.world.Valid() && |r.world.has| == |s.has|
    decreases cmds, 0
  {
    if cmds == [] then Result(s, false)
    else
      var first := ExecOne(s, cmds[0]);
      if first.raised then first else Exec(first.world, cmds[1..])
  }

  // ---- the objects behave like the programs' meaning ----

  ghost predicate Represents(table: SignalTable, wrappers: seq<ProcessWrapper>, s: World)
    reads table, wrappers
  {
    && |wrappers| == |s.has| == |s.saved|
    && (forall i :: 0 <= i < |wrappers| ==> wrappers[i].id == i)
    && s.handler == table.sigterm
    && (forall i :: 0 <= i < |wrappers| ==>
          s.has[i] == wrappers[i].hasProcess && s.saved[i] == wrappers[i].oldSigterm)
  }

  method RunOne(table: SignalTable, wrappers: seq<ProcessWrapper>, cmd: Cmd, ghost s: World)
    returns (raised: bool, ghost r: World)
    requires s.Valid() && Represents(table, wrappers, s)
    modifies table, wrappers
    ensures Represents(table, wrappers, r) && Result(r, raised) == ExecOne(s, cmd)
    decreases cmd, 1
  {
    r := ExecOne(s, cmd).world;
    match cmd {
      case Kill(w, outcome) =>
        raised := true;
        if w < |wrappers| {
          raised := wrappers[w].KillProcess(table, outcome);
        }
      case Restart(w, outcome, start) =>
        raised := true;
        if w < |wrappers| {
          raised := wrappers[w].RestartProcess(table, outcome, start);
        }
      case WaitTimeout(w, outcome) =>
        raised := true;
        if w < |wrappers| {
          raised := wrappers[w].WaitTimesOut(table, outcome);
        }
      case Signal(outcome) =>
        raised := false;
        if table.sigterm.Own? {
          raised := true;
          var w := table.sigterm.wrapper;
          if w < |wrappers| {
            raised := wrappers[w].KillProcess(table, outcome);
          }
        }
      case Raise => raised := true;
      case Try(body) =>
        raised, r := RunAll(table, wrappers, body, s);
        raised := false;
      case With(w, start, body, atExit) =>
        raised := true;
        if w < |wrappers| {
          raised := wrappers[w].StartProcess(table, start);
          if !raised {
            raised, r := RunAll(table, wrappers, body, s.Start(w, Started));
            var exitRaised := wrappers[w].KillProcess(table, atExit);
            raised := raised || exitRaised;
            r := r.Killed(w, atExit);
          }
        }
    }
  }

  method RunAll(table: SignalTable, wrappers: seq<ProcessWrapper>, cmds: seq<Cmd>, ghost s: World)
    returns (raised: bool, ghost r: World)
    requires s.Valid() && Represents(table, wrappers, s)
    modifies table, wrappers
    ensures Represents(table, wrappers, r) && Result(r, raised) == Exec(s, cmds)
    decreases cmds, 0
  {
    if cmds == [] {
      return false, s;
    }
    raised, r := RunOne(table, wrappers, cmds[0], s);
    if !raised {
      raised, r := RunAll(table, wrappers, cmds[1..], r);
    }
  }

  // ---- what single commands do inside a block ----

  /**
    In a block, a kill, the signal and a wait that times out each put back the handler from before the
    block, unless stopping the process fails; a wait that times out raises in any case.
   */
  lemma StoppedInside(s: World, w: nat, outcome: KillOutcome, cmd: Cmd)
    requires s.Valid() && w < |s.has|
    requires cmd == Kill(w, outcome) || cmd == Cmd.Signal(outcome) || cmd == WaitTimeout(w, outcome)
    ensures var r := ExecOne(s.Start(w, Started), cmd);
            && r.world.handler == (if outcome == OtherError then Own(w) else s.handler)
            && (r.raised <==> outcome == OtherError || cmd.WaitTimeout?)
            && r.world.saved[w] == Some(s.handler) && r.world.has[w]
  {
  }

  /** A restart in a block leaves the wrapper's own handler in force, and the saved one is still that from before the block. */
  lemma RestartedInside(s: World, w: nat, outcome: KillOutcome, start: StartOutcome)
    requires s.Valid() && w < |s.has|
    ensures var r := ExecOne(s.Start(w, Started), Restart(w, outcome, start));
            && r.world.handler == Own(w) && r.world.saved[w] == Some(s.handler)
            && (r.raised <==> outcome == OtherError || start != Started)
  {
  }

  /** The signal does nothing under a handler from outside; under that of a wrapper it is a kill of this wrapper. */
  lemma SignalIsKill(s: World, outcome: KillOutcome)
    requires s.Valid()
    ensures ExecOne(s, Cmd.Signal(outcome))
         == if s.handler.Own? then ExecOne(s, Kill(s.handler.wrapper, outcome)) else Result(s, false)
  {
  }

  /** A swallowed exception ends the commands behind it in its own body, and none of those that follow. */
  lemma TrySwallows(s: World, before: seq<Cmd>, skipped: seq<Cmd>, after: seq<Cmd>)
    requires s.Valid() && !Exec(s, before).raised
    ensures Exec(s, [Try(before + ([Raise] + skipped))] + after) == Exec(Exec(s, before).world, after)
  {
    ExecConcat(s, before, [Raise] + skipped);
    var world := Exec(s, before).world;
    assert ([Raise] + skipped)[0] == Raise && Exec(world, [Raise] + skipped) == Result(world, true);
    var all := [Try(before + ([Raise] + skipped))] + after;
    assert all[1..] == after;
  }

  /** A wrapper without a process cannot be killed, waited for or restarted: these raise and change nothing. */
  lemma NotStarted(s: World, w: nat, outcome: KillOutcome, start: StartOutcome, cmd: Cmd)
    requires s.Valid() && w < |s.has| && !s.has[w]
    requires cmd == Kill(w, outcome) || cmd == WaitTimeout(w, outcome) || cmd == Restart(w, outcome, start)
    ensures ExecOne(s, cmd) == Result(s, true)
  {
  }

  // ---- restoration ----

  /** No block in the program enters this wrapper. */
  predicate NotEntered(w: nat, cmds: seq<Cmd>)
    decreases cmds, 0
  {
    cmds == [] || (NotEnteredOne(w, cmds[0]) && NotEntered(w, cmds[1..]))
  }

  predicate NotEnteredOne(w: nat, cmd: Cmd)
    decreases cmd, 1
  {
    match cmd
    case Try(body) => NotEntered(w, body)
    case With(v, _, body, _) => v != w && NotEntered(w, body)
    case _ => true
  }

  /** Whatever runs in between, a wrapper that has started keeps the handler saved by its first start. */
  lemma {:induction false} SavedHandlerStays(s: World, cmds: seq<Cmd>, w: nat)
    requires s.Valid() && w < |s.has| && s.has[w] && NotEntered(w, cmds)
    ensures Exec(s, cmds).world.saved[w] == s.saved[w] && Exec(s, cmds).world.has[w]
    decreases cmds, 0
  {
    if cmds != [] {
      SavedHandlerStaysOne(s, cmds[0], w);
      var first := ExecOne(s, cmds[0]);
      if !first.raised {
        SavedHandlerStays(first.world, cmds[1..], w);
      }
    }
  }

  lemma {:induction false} SavedHandlerStaysOne(s: World, cmd: Cmd, w: nat)
    requires s.Valid() && w < |s.has| && s.has[w] && NotEnteredOne(w, cmd)
    ensures ExecOne(s, cmd).world.saved[w] == s.saved[w] && ExecOne(s, cmd).world.has[w]
    decreases cmd, 1
  {
    match cmd {
      case Try(body) =>
        SavedHandlerStays(s, body, w);
      case With(v, start, body, atExit) =>
        if v < |s.has| && start == Started {
          SavedHandlerStays(s.Start(v, Started), body, w);
        }
      case _ =>
    }
  }

  /**
    A block that is entered, whose body does not enter the same wrapper again and whose exit returns
    normally puts back the handler that was in force before it: with kills, restarts, failed starts,
    signals, timed-out waits and exceptions on any wrapper inside.
   */
  lemma BlockRestoresHandler(s: World, w: nat, body: seq<Cmd>, atExit: KillOutcome)
    requires s.Valid() && w < |s.has| && NotEntered(w, body) && atExit != OtherError
    ensures ExecOne(s, With(w, Started, body, atExit)).world.handler == s.handler
    ensures ExecOne(s, With(w, Started, body, atExit)).raised == Exec(s.Start(w, Started), body).raised
  {
    var s1 := s.Start(w, Started);
    var inner := Exec(s1, body);
    SavedHandlerStays(s1, body, w);
    ExitPutsBack(inner.world, w, atExit);
    WithUnfolds(s, w, body, atExit, inner);
  }

  lemma WithUnfolds(s: World, w: nat, body: seq<Cmd>, atExit: KillOutcome, inner: Result)
    requires s.Valid() && w < |s.has| && inner == Exec(s.Start(w, Started), body)
    ensures ExecOne(s, With(w, Started, body, atExit))
         == Result(inner.world.Killed(w, atExit), inner.raised || !inner.world.KillWorks(w, atExit))
  {
  }

  lemma ExitPutsBack(s: World, w: nat, atExit: KillOutcome)
    requires s.Valid() && w < |s.has| && s.has[w] && atExit != OtherError
    ensures s.KillWorks(w, atExit) && s.Killed(w, atExit).handler == s.saved[w].value
  {
  }

  /** Blocks on distinct wrappers, nested to any depth, leave the handler as they found it. */
  predicate WellNested(cmds: seq<Cmd>)
    decreases cmds, 0
  {
    cmds == [] || (WellNestedOne(cmds[0]) && WellNested(cmds[1..]))
  }

  predicate WellNestedOne(cmd: Cmd)
    decreases cmd, 1
  {
    match cmd
    case Raise => true
    case Try(body) => WellNested(body)
    case With(w, start, body, atExit) => start == Started && atExit != OtherError && NotEntered(w, body)
    case _ => false
  }

  lemma {:induction false} WellNestedRestores(s: World, cmds: seq<Cmd>)
    requires s.Valid() && WellNested(cmds)
    ensures Exec(s, cmds).world.handler == s.handler
    decreases cmds, 0
  {
    if cmds != [] {
      WellNestedRestoresOne(s, cmds[0]);
      var first := ExecOne(s, cmds[0]);
      if !first.raised {
        WellNestedRestores(first.world, cmds[1..]);
      }
    }
  }

  lemma {:induction false} WellNestedRestoresOne(s: World, cmd: Cmd)
    requires s.Valid() && WellNestedOne(cmd)
    ensures ExecOne(s, cmd).world.handler == s.handler
    decreases cmd, 1
  {
    match cmd {
      case Try(body) =>
        WellNestedRestores(s, body);
      case With(w, start, body, atExit) =>
        if w < |s.has| {
          BlockRestoresHandler(s, w, body, atExit);
        }
      case _ =>
    }
  }

  // ---- exactly when ----

  /**
    A block whose body does not enter its wrapper again: a start that fails restores nothing, and an
    exit that raises leaves the handler that the body left.
   */
  lemma BlockRestoresExactly(s: World, w: nat, start: StartOutcome, body: seq<Cmd>, atExit: KillOutcome)
    requires s.Valid() && w < |s.has| && NotEntered(w, body)
    ensures ExecOne(s, With(w, start, body, atExit)).world.handler == s.handler
       <==> if start != Started then s.handler == Own(w)
            else atExit != OtherError || Exec(s.Start(w, Started), body).world.handler == s.handler
  {
    if start == Started {
      WithUnfolds(s, w, body, atExit, Exec(s.Start(w, Started), body));
      if atExit != OtherError {
        BlockRestoresHandler(s, w, body, atExit);
      }
    }
  }

  lemma {:induction false} ExecConcat(s: World, a: seq<Cmd>, b: seq<Cmd>)
    requires s.Valid()
    ensures Exec(s, a + b) == if Exec(s, a).raised then Exec(s, a) else Exec(Exec(s, a).world, b)
    decreases |a|
  {
    if a == [] {
      assert a + b == b;
    } else {
      assert (a + b)[0] == a[0] && (a + b)[1..] == a[1..] + b;
      var first := ExecOne(s, a[0]);
      if !first.raised {
        ExecConcat(first.world, a[1..], b);
      }
    }
  }

  /** What a second block on a wrapper saves is what the outer block finds, whatever comes after it. */
  lemma ReentrySaves(s: World, w: nat, body: seq<Cmd>, innerExit: KillOutcome, post: seq<Cmd>)
    requires s.Valid() && w < |s.has| && NotEntered(w, body) && NotEntered(w, post)
    ensures var r := Exec(s, [With(w, Started, body, innerExit)] + post).world;
            r.has[w] && r.saved[w] == Some(s.handler)
  {
    var block := With(w, Started, body, innerExit);
    SavedHandlerStays(s.Start(w, Started), body, w);
    WithUnfolds(s, w, body, innerExit, Exec(s.Start(w, Started), body));
    var first := ExecOne(s, block);
    assert first.world.has[w] && first.world.saved[w] == Some(s.handler);
    assert ([block] + post)[0] == block && ([block] + post)[1..] == post;
    if !first.raised {
      SavedHandlerStays(first.world, post, w);
    }
  }

  /** A wrapper that is entered a second time inside its own block, with anything before, in and after it. */
  function Reentry(w: nat, pre: seq<Cmd>, body: seq<Cmd>, innerExit: KillOutcome, post: seq<Cmd>): seq<Cmd> {
    pre + ([With(w, Started, body, innerExit)] + post)
  }

  /**
    The outer block then restores the original handler exactly when that handler is in force at the
    second entry, which a caller can read there. If it is never reached, the handler is restored.
   */
  lemma ReentryRestoresExactly(
    s: World, w: nat, pre: seq<Cmd>, body: seq<Cmd>, innerExit: KillOutcome, post: seq<Cmd>, atExit: KillOutcome)
    requires s.Valid() && w < |s.has| && atExit != OtherError
    requires NotEntered(w, pre) && NotEntered(w, body) && NotEntered(w, post)
    ensures ExecOne(s, With(w, Started, Reentry(w, pre, body, innerExit, post), atExit)).world.handler == s.handler
       <==> var before := Exec(s.Start(w, Started), pre);
            before.raised || before.world.handler == s.handler
  {
    var s1, all := s.Start(w, Started), Reentry(w, pre, body, innerExit, post);
    var before, inner := Exec(s1, pre), Exec(s1, all);
    ExecConcat(s1, pre, [With(w, Started, body, innerExit)] + post);
    SavedHandlerStays(s1, pre, w);
    if !before.raised {
      ReentrySaves(before.world, w, body, innerExit, post);
    }
    assert inner.world.has[w];
    assert inner.world.saved[w] == Some(if before.raised then s.handler else before.world.handler);
    WithUnfolds(s, w, all, atExit, inner);
    ExitPutsBack(inner.world, w, atExit);
  }

  /** Directly nested blocks on one wrapper leave its own handler behind, whatever the inner one does. */
  lemma ReentryLosesHandler(s: World, w: nat, body: seq<Cmd>, innerExit: KillOutcome, atExit: KillOutcome)
    requires s.Valid() && w < |s.has| && NotEntered(w, body) && atExit != OtherError
    ensures ExecOne(s, With(w, Started, [With(w, Started, body, innerExit)], atExit)).world.handler == Own(w)
  {
    var s1, inner := s.Start(w, Started), With(w, Started, body, innerExit);
    ReentrySaves(s1, w, body, innerExit, []);
    assert [inner] + [] == [inner];
    WithUnfolds(s, w, [inner], atExit, Exec(s1, [inner]));
    ExitPutsBack(Exec(s1, [inner]).world, w, atExit);
  }

  /**
    A start that fails outside of any block leaves the wrapper's own handler, with or without a
    process; only a handler that was the wrapper's own already is as it was.
   */
  lemma FailedStartLeavesHandler(s: World, w: nat, start: StartOutcome, body: seq<Cmd>, atExit: KillOutcome)
    requires s.Valid() && w < |s.has| && start != Started
    ensures var r := ExecOne(s, With(w, start, body, atExit));
            && r.raised && r.world.handler == Own(w) && r.world.saved[w] == Some(s.handler)
            && r.world.has[w] == (s.has[w] || start == DiedAtStartup)
            && (r.world.handler == s.handler <==> s.handler == Own(w))
  {
  }
}
