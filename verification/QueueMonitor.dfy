/**
  The lock and the condition variable of `LineReaderQueue`, with any number of producers and
  consumers, as a transition system.

  `threading.Condition` keeps its waiters in a list. `notify` releases the first of them; a waiter
  that times out stays in the list until it holds the lock again, so it can still be notified.
 */
module QueueMonitor {
  import opened LineQueue
  import opened Text

  type Tid = nat

  /** How a consumer called `get`: without blocking, without a timeout, or with one. */
  datatype GetMode = NonBlocking | Forever | Timed

  /** The part of the code that the holder of the lock is about to execute. */
  datatype Section<T> =
    | Appending(item: T)        // put: evict if full, append
    | Notifying                 // put: notify
    | Clearing                  // clear
    | Checking(mode: GetMode)   // get: look whether the queue is empty

  datatype Lock<T> = Free | Held(owner: Tid, section: Section<T>)

  datatype Monitor<T> = Monitor(
    history: History<T>,
    lock: Lock<T>,
    waiters: seq<Tid>,     // the list of the condition variable, oldest first
    notified: set<Tid>,    // released by notify, waiting for the lock
    expired: set<Tid>,     // timed out, waiting for the lock
    timed: set<Tid>        // whose current get has a timeout
  )

  datatype Step<T> =
    | EnterPut(t: Tid, item: T)
    | Append
    | Notify
    | EnterClear(t: Tid)
    | ClearAll
    | EnterGet(t: Tid, mode: GetMode)
    | Take
    | GiveUp
    | Park
    | Expire(t: Tid)
    | Resume(t: Tid)

  predicate IsWaiting<T>(s: Monitor<T>, t: Tid) {
    t in s.waiters || t in s.notified
  }

  predicate Enabled<T>(s: Monitor<T>, step: Step<T>) {
    match step
    case EnterPut(t, _) => s.lock.Free? && !IsWaiting(s, t)
    case Append => s.lock.Held? && s.lock.section.Appending?
    case Notify => s.lock.Held? && s.lock.section.Notifying?
    case EnterClear(t) => s.lock.Free? && !IsWaiting(s, t)
    case ClearAll => s.lock.Held? && s.lock.section.Clearing?
    case EnterGet(t, _) => s.lock.Free? && !IsWaiting(s, t)
    case Take => s.lock.Held? && s.lock.section.Checking? && s.history.queue != []
    case GiveUp =>
      s.lock.Held? && s.lock.section.Checking? && s.history.queue == [] && !s.lock.section.mode.Forever?
    case Park =>
      s.lock.Held? && s.lock.section.Checking? && s.history.queue == [] && !s.lock.section.mode.NonBlocking?
    case Expire(t) => IsWaiting(s, t) && t in s.timed
    case Resume(t) => s.lock.Free? && IsWaiting(s, t) && (t in s.notified || t in s.expired)
  }

  function Without(list: seq<Tid>, t: Tid): (r: seq<Tid>)
    ensures forall x :: x in r <==> x in list && x != t
  {
    if list == [] then []
    else (if list[0] == t then [] else [list[0]]) + Without(list[1..], t)
  }

  function Next<T>(s: Monitor<T>, step: Step<T>): Monitor<T>
    requires s.history.Valid() && Enabled(s, step)
  {
    match step
    case EnterPut(t, item) => s.(lock := Held(t, Appending(item)))
    case Append => s.(history := s.history.Put(s.lock.section.item), lock := Held(s.lock.owner, Notifying))
    case Notify =>
      if s.waiters == [] then s.(lock := Free)
      else s.(lock := Free, waiters := s.waiters[1..], notified := s.notified + {s.waiters[0]})
    case EnterClear(t) => s.(lock := Held(t, Clearing))
    case ClearAll => s.(history := s.history.Clear(), lock := Free)
    case EnterGet(t, mode) =>
      s.(lock := Held(t, Checking(mode)), timed := if mode.Timed? then s.timed + {t} else s.timed - {t})
    case Take => s.(history := s.history.Get(), lock := Free)
    case GiveUp => s.(lock := Free)
    case Park => s.(waiters := s.waiters + [s.lock.owner], lock := Free)
    case Expire(t) => s.(expired := s.expired + {t})
    case Resume(t) =>
      s.(lock := Held(t, Checking(if t in s.timed then Timed else Forever)),
         waiters := Without(s.waiters, t), notified := s.notified - {t}, expired := s.expired - {t})
  }

  function Initial<T>(maxSize: int): Monitor<T> {
    Monitor(Empty(maxSize), Free, [], {}, {}, {})
  }

  ghost predicate Reachable<T(!new)>(s: Monitor<T>, maxSize: int, steps: seq<Step<T>>)
    decreases |steps|
  {
    if steps == [] then s == Initial(maxSize)
    else exists before ::
      && Reachable(before, maxSize, steps[..|steps| - 1])
      && before.history.Valid() && Enabled(before, steps[|steps| - 1])
      && s == Next(before, steps[|steps| - 1])
  }

  // ---- the invariant ----

  predicate Distinct(list: seq<Tid>) {
    forall i, j :: 0 <= i < j < |list| ==> list[i] != list[j]
  }

  /** One queued item may be accounted for by the holder of the lock. */
  function Credit<T>(lock: Lock<T>): nat {
    if lock.Held? && (lock.section.Notifying? || lock.section.Checking?) then 1 else 0
  }

  ghost predicate Invariant<T>(s: Monitor<T>) {
    && s.history.Valid()
    && Distinct(s.waiters)
    && (forall t :: t in s.waiters ==> t !in s.notified)
    && (s.lock.Held? ==> !IsWaiting(s, s.lock.owner))
    && (s.waiters != [] ==> |s.history.queue| <= |s.notified| + Credit(s.lock))
  }

  lemma {:induction false} WithoutDistinct(list: seq<Tid>, t: Tid)
    requires Distinct(list)
    ensures Distinct(Without(list, t))
  {
    if list != [] {
      WithoutDistinct(list[1..], t);
      assert forall x :: x in Without(list[1..], t) ==> x in list[1..];
      assert forall i :: 1 <= i < |list| ==> list[i] in list[1..];
      assert list[0] !in list[1..];
    }
  }

  lemma NotifyKeepsInvariant<T>(s: Monitor<T>)
    requires Invariant(s) && Enabled(s, Notify)
    ensures Invariant(Next(s, Notify))
  {
    if s.waiters != [] {
      var s' := Next(s, Notify);
      var w := s.waiters[0];
      assert w !in s.notified && |s'.notified| == |s.notified| + 1;
      assert forall t :: t in s'.waiters ==> t in s.waiters && t != w;
    }
  }

  lemma ResumeKeepsInvariant<T>(s: Monitor<T>, t: Tid)
    requires Invariant(s) && Enabled(s, Resume(t))
    ensures Invariant(Next(s, Resume(t)))
  {
    var s' := Next(s, Resume(t));
    WithoutDistinct(s.waiters, t);
    if t in s.notified {
      assert |s'.notified| == |s.notified| - 1;
    } else {
      assert s'.notified == s.notified;
    }
    assert s'.waiters != [] ==> s'.waiters[0] in s.waiters;
  }

  lemma ParkKeepsInvariant<T>(s: Monitor<T>)
    requires Invariant(s) && Enabled(s, Park)
    ensures Invariant(Next(s, Park))
  {
    assert s.history.queue == [];
  }

  lemma InvariantKept<T>(s: Monitor<T>, step: Step<T>)
    requires Invariant(s) && Enabled(s, step)
    ensures Invariant(Next(s, step))
  {
    match step {
      case Notify => NotifyKeepsInvariant(s);
      case Resume(t) => ResumeKeepsInvariant(s, t);
      case Park => ParkKeepsInvariant(s);
      case _ =>
    }
  }

  lemma {:induction false} ReachableInvariant<T(!new)>(s: Monitor<T>, maxSize: int, steps: seq<Step<T>>)
    requires Reachable(s, maxSize, steps)
    ensures Invariant(s)
    decreases |steps|
  {
    if steps != [] {
      var last := steps[|steps| - 1];
      var before :| Reachable(before, maxSize, steps[..|steps| - 1]) && before.history.Valid()
                    && Enabled(before, last) && s == Next(before, last);
      ReachableInvariant(before, maxSize, steps[..|steps| - 1]);
      InvariantKept(before, last);
    }
  }

  // ---- no lost wakeup ----

  /** While anyone is in the wait set, every queued item has its own notified consumer on the way. */
  lemma NoLostWakeup<T(!new)>(s: Monitor<T>, maxSize: int, steps: seq<Step<T>>)
    requires Reachable(s, maxSize, steps) && s.lock.Free? && s.waiters != []
    ensures |s.history.queue| <= |s.notified|
  {
    ReachableInvariant(s, maxSize, steps);
  }

  /** A notified consumer can take the lock, and then takes the oldest item. */
  lemma ResumedConsumerTakes<T>(s: Monitor<T>, t: Tid)
    requires s.history.Valid() && s.lock.Free? && s.history.queue != [] && t in s.notified
    ensures Enabled(s, Resume(t))
    ensures Enabled(Next(s, Resume(t)), Take)
    ensures Next(Next(s, Resume(t)), Take).history == s.history.Get()
  {
  }

  /** Items are never queued with every consumer asleep: some notified consumer is on its way to them. */
  lemma QueuedItemsAreTaken<T(!new)>(s: Monitor<T>, maxSize: int, steps: seq<Step<T>>) returns (t: Tid)
    requires Reachable(s, maxSize, steps) && s.lock.Free?
    requires s.waiters != [] && s.history.queue != []
    ensures s.history.Valid() && t in s.notified
    ensures Enabled(s, Resume(t))
    ensures Enabled(Next(s, Resume(t)), Take)
    ensures Next(Next(s, Resume(t)), Take).history == s.history.Get()
  {
    ReachableInvariant(s, maxSize, steps);
    assert |s.notified| >= 1;
    t :| t in s.notified;
    ResumedConsumerTakes(s, t);
  }

  /** The operation of the sequential queue that a step performs, if any. */
  function OpsOf<T>(s: Monitor<T>, step: Step<T>): seq<Op<T>>
    requires Enabled(s, step)
  {
    match step
    case Append => [DoPut(s.lock.section.item)]
    case ClearAll => [DoClear]
    case Take => [DoGet]
    case _ => []
  }

  lemma StepIsOperation<T>(s: Monitor<T>, step: Step<T>)
    requires s.history.Valid() && Enabled(s, step)
    ensures Next(s, step).history
         == if OpsOf(s, step) == [] then s.history else s.history.Step(OpsOf(s, step)[0])
  {
  }

  /** Whatever the interleaving, the queue goes through a run of the sequential queue. */
  lemma {:induction false} RefinesQueue<T(!new)>(s: Monitor<T>, maxSize: int, steps: seq<Step<T>>)
    returns (ops: seq<Op<T>>)
    requires Reachable(s, maxSize, steps)
    ensures s.history == Run(maxSize, ops)
    decreases |steps|
  {
    ops := [];
    if steps != [] {
      var last := steps[|steps| - 1];
      var before :| Reachable(before, maxSize, steps[..|steps| - 1]) && before.history.Valid()
                    && Enabled(before, last) && s == Next(before, last);
      ops := RefinesQueue(before, maxSize, steps[..|steps| - 1]);
      var more := OpsOf(before, last);
      StepIsOperation(before, last);
      if more != [] {
        assert (ops + more)[..|ops|] == ops;
        ops := ops + more;
      }
    }
  }

  // ---- what the mode of a call decides ----

  /** How a thread last called `get`. */
  function LastMode<T>(steps: seq<Step<T>>, t: Tid): Option<GetMode> {
    if steps == [] then None
    else
      match steps[|steps| - 1]
      case EnterGet(u, mode) => if u == t then Some(mode) else LastMode(steps[..|steps| - 1], t)
      case _ => LastMode(steps[..|steps| - 1], t)
  }

  /** Who holds the lock in `get`, waits or has timed out does so as it called. */
  ghost predicate ModesAgree<T>(s: Monitor<T>, steps: seq<Step<T>>) {
    && (s.lock.Held? && s.lock.section.Checking? ==>
          && LastMode(steps, s.lock.owner) == Some(s.lock.section.mode)
          && (s.lock.section.mode == Timed <==> s.lock.owner in s.timed))
    && (forall t :: IsWaiting(s, t) ==> LastMode(steps, t) == Some(if t in s.timed then Timed else Forever))
    && (forall t :: t in s.expired ==> IsWaiting(s, t) && t in s.timed)
  }

  lemma ModesKept<T>(s: Monitor<T>, steps: seq<Step<T>>, step: Step<T>)
    requires Invariant(s) && Enabled(s, step) && ModesAgree(s, steps)
    ensures ModesAgree(Next(s, step), steps + [step])
  {
    var all, s' := steps + [step], Next(s, step);
    assert all[..|all| - 1] == steps && all[|all| - 1] == step;
    forall t
      ensures LastMode(all, t) == if step.EnterGet? && step.t == t then Some(step.mode) else LastMode(steps, t)
    {
    }
    match step {
      case Notify =>
        assert s.waiters != [] ==> s.waiters[0] in s.waiters;
        assert forall t :: t in s'.waiters ==> t in s.waiters;
        assert forall t :: t in s.waiters ==> t in s'.waiters || t in s'.notified by {
          NotifiedOrStill(s);
        }
      case Park => assert forall t :: t in s'.waiters ==> t in s.waiters || t == s.lock.owner;
      case _ =>
    }
  }

  lemma NotifiedOrStill<T>(s: Monitor<T>)
    requires s.history.Valid() && Enabled(s, Notify)
    ensures forall t :: t in s.waiters ==> t in Next(s, Notify).waiters || t in Next(s, Notify).notified
  {
    if s.waiters != [] {
      assert s.waiters == [s.waiters[0]] + s.waiters[1..];
    }
  }

  lemma {:induction false} ReachableModes<T(!new)>(s: Monitor<T>, maxSize: int, steps: seq<Step<T>>)
    requires Reachable(s, maxSize, steps)
    ensures ModesAgree(s, steps)
    decreases |steps|
  {
    if steps != [] {
      var n := |steps| - 1;
      var before :| Reachable(before, maxSize, steps[..n]) && before.history.Valid()
                    && Enabled(before, steps[n]) && s == Next(before, steps[n]);
      ReachableInvariant(before, maxSize, steps[..n]);
      ReachableModes(before, maxSize, steps[..n]);
      ModesKept(before, steps[..n], steps[n]);
      assert steps[..n] + [steps[n]] == steps;
    }
  }

  /**
    Whatever happened before: on an empty queue a consumer raises `Empty` only if it called without
    blocking or with a timeout, and waits only if it blocks; only a wait with a timeout expires.
   */
  lemma EmptyQueueDecides<T(!new)>(s: Monitor<T>, maxSize: int, steps: seq<Step<T>>, t: Tid)
    requires Reachable(s, maxSize, steps)
    ensures s.lock.Held? && s.lock.owner == t && s.lock.section.Checking? && s.history.queue == [] ==>
              && LastMode(steps, t).Some?
              && (Enabled(s, GiveUp) <==> LastMode(steps, t).value != Forever)
              && (Enabled(s, Park) <==> LastMode(steps, t).value != NonBlocking)
    ensures IsWaiting(s, t) ==> LastMode(steps, t).Some? && LastMode(steps, t).value != NonBlocking
    ensures Enabled(s, Expire(t)) ==> LastMode(steps, t) == Some(Timed)
  {
    ReachableModes(s, maxSize, steps);
    ModesDecide(s, steps, t);
  }

  lemma ModesDecide<T>(s: Monitor<T>, steps: seq<Step<T>>, t: Tid)
    requires ModesAgree(s, steps)
    ensures s.lock.Held? && s.lock.owner == t && s.lock.section.Checking? && s.history.queue == [] ==>
              && LastMode(steps, t).Some?
              && (Enabled(s, GiveUp) <==> LastMode(steps, t).value != Forever)
              && (Enabled(s, Park) <==> LastMode(steps, t).value != NonBlocking)
    ensures IsWaiting(s, t) ==> LastMode(steps, t).Some? && LastMode(steps, t).value != NonBlocking
    ensures Enabled(s, Expire(t)) ==> LastMode(steps, t) == Some(Timed)
  {
  }

  /** Who holds the lock can always go on, and never gives it up with items queued in `get`. */
  lemma HolderGoesOn<T>(s: Monitor<T>)
    requires s.history.Valid() && s.lock.Held?
    ensures exists step :: step in {Append, Notify, ClearAll, Take, GiveUp, Park} && Enabled(s, step)
    ensures s.history.queue != [] ==> !Enabled(s, GiveUp) && !Enabled(s, Park)
  {
    match s.lock.section {
      case Appending(_) => assert Enabled(s, Append);
      case Notifying => assert Enabled(s, Notify);
      case Clearing => assert Enabled(s, ClearAll);
      case Checking(mode) =>
        assert Enabled(s, Take) || Enabled(s, GiveUp) || Enabled(s, Park);
    }
  }

  // ---- no waiter is passed over ----

  ghost predicate Path<T(!new)>(s: Monitor<T>, steps: seq<Step<T>>, end: Monitor<T>)
    decreases |steps|
  {
    if steps == [] then s == end
    else s.history.Valid() && Enabled(s, steps[0]) && Path(Next(s, steps[0]), steps[1..], end)
  }

  function Notifies<T>(steps: seq<Step<T>>): nat {
    if steps == [] then 0 else (if steps[0].Notify? then 1 else 0) + Notifies(steps[1..])
  }

  lemma {:induction false} WithoutMoves(list: seq<Tid>, t: Tid, i: nat) returns (j: nat)
    requires i < |list| && list[i] != t
    ensures j <= i && j < |Without(list, t)| && Without(list, t)[j] == list[i]
  {
    if i == 0 {
      j := 0;
    } else {
      var k := WithoutMoves(list[1..], t, i - 1);
      j := if list[0] == t then k else k + 1;
    }
  }

  /** One step, seen by a waiter that does not time out: it moves towards the front or is notified. */
  lemma WaiterAdvances<T>(s: Monitor<T>, step: Step<T>, i: nat) returns (j: nat)
    requires Invariant(s) && Enabled(s, step) && i < |s.waiters| && step != Resume(s.waiters[i])
    ensures var s' := Next(s, step);
            if step.Notify? && i == 0 then s.waiters[0] in s'.notified
            else j < |s'.waiters| && s'.waiters[j] == s.waiters[i] && j <= i - (if step.Notify? then 1 else 0)
  {
    j := i;
    match step {
      case Notify => j := if i > 0 then i - 1 else 0;
      case Resume(u) => j := WithoutMoves(s.waiters, u, i);
      case _ =>
    }
  }

  lemma NotifiedStays<T>(s: Monitor<T>, step: Step<T>, t: Tid)
    requires s.history.Valid() && Enabled(s, step) && t in s.notified && step != Resume(t)
    ensures t in Next(s, step).notified
  {
  }

  /** Waiters are notified in the order in which they came: the one with `i` others in front by the next `i + 1` calls of notify. */
  lemma {:induction false} WaitersInOrder<T(!new)>(s: Monitor<T>, steps: seq<Step<T>>, end: Monitor<T>, t: Tid, i: nat)
    requires Invariant(s) && Path(s, steps, end)
    requires t in s.notified || (i < |s.waiters| && s.waiters[i] == t && i < Notifies(steps))
    requires forall k :: 0 <= k < |steps| ==> steps[k] != Resume(t)
    ensures t in end.notified
    decreases |steps|
  {
    if steps != [] {
      var next := Next(s, steps[0]);
      InvariantKept(s, steps[0]);
      assert forall k :: 0 <= k < |steps[1..]| ==> steps[1..][k] == steps[k + 1];
      var j := i;
      if t in s.notified {
        NotifiedStays(s, steps[0], t);
      } else {
        j := WaiterAdvances(s, steps[0], i);
      }
      WaitersInOrder(next, steps[1..], end, t, j);
    }
  }
}
