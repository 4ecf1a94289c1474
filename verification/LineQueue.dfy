/**
  `LineReaderQueue` of score/itf/core/process/console.py: a bounded queue that drops its oldest
  item, here together with the history of everything that was ever put into it.
 */
module LineQueue {

  /** What became of an item. */
  datatype Fate = Queued | Delivered | Evicted | Cleared

  datatype Op<T> = DoPut(item: T) | DoGet | DoClear

  /** The contents, and every item ever put with its fate. */
  datatype History<T> = History(queue: seq<T>, maxSize: int, puts: seq<T>, fates: seq<Fate>) {

    /** The position of the first item that is still queued. */
    function Head(): int {
      |puts| - |queue|
    }

    /** The contents are a suffix of what was put, bounded, and exactly these items are still queued. */
    ghost predicate Valid() {
      && |fates| == |puts| && |queue| <= |puts|
      && queue == puts[Head()..]
      && (forall i :: 0 <= i < |fates| ==> (fates[i] == Queued <==> Head() <= i))
      && (maxSize > 0 ==> |queue| <= maxSize)
    }

    function Put(item: T): (h: History<T>)
      requires Valid()
      ensures h.Valid()
    {
      if maxSize > 0 && |queue| >= maxSize then
        History(queue[1..] + [item], maxSize, puts + [item], fates[Head() := Evicted] + [Queued])
      else
        History(queue + [item], maxSize, puts + [item], fates + [Queued])
    }

    function Get(): (h: History<T>)
      requires Valid() && queue != []
      ensures h.Valid()
    {
      History(queue[1..], maxSize, puts, fates[Head() := Delivered])
    }

    function Clear(): (h: History<T>)
      requires Valid()
      ensures h.Valid()
    {
      History([], maxSize, puts, fates[..Head()] + seq(|queue|, _ => Cleared))
    }

    /** A `get` on an empty queue raises and changes nothing. */
    function Step(op: Op<T>): (h: History<T>)
      requires Valid()
      ensures h.Valid()
    {
      match op
      case DoPut(item) => Put(item)
      case DoGet => if queue == [] then this else Get()
      case DoClear => Clear()
    }
  }

  function Empty<T>(maxSize: int): (h: History<T>)
    ensures h.Valid()
  {
    History([], maxSize, [], [])
  }

  function Run<T>(maxSize: int, ops: seq<Op<T>>): (h: History<T>)
    ensures h.Valid() && h.maxSize == maxSize
  {
    if ops == [] then Empty(maxSize)
    else Run(maxSize, ops[..|ops| - 1]).Step(ops[|ops| - 1])
  }

  // ---- deliveries ----

  /** The delivered items, in the order in which they were put. */
  function Deliveries<T>(puts: seq<T>, fates: seq<Fate>): seq<T>
    requires |puts| == |fates|
  {
    if puts == [] then []
    else
      var n := |puts| - 1;
      Deliveries(puts[..n], fates[..n]) + (if fates[n] == Delivered then [puts[n]] else [])
  }

  lemma {:induction false} DeliveriesIgnoreRest<T>(puts: seq<T>, fates: seq<Fate>, k: nat)
    requires |puts| == |fates| && k <= |puts|
    requires forall i :: k <= i < |fates| ==> fates[i] != Delivered
    ensures Deliveries(puts, fates) == Deliveries(puts[..k], fates[..k])
  {
    if k == |puts| {
      assert puts[..k] == puts && fates[..k] == fates;
    } else {
      var n := |puts| - 1;
      DeliveriesIgnoreRest(puts[..n], fates[..n], k);
      assert puts[..n][..k] == puts[..k] && fates[..n][..k] == fates[..k];
    }
  }

  /** Items that are settled and not delivered afterwards change nothing. */
  lemma SamePrefixSameDeliveries<T>(puts: seq<T>, fates: seq<Fate>, puts': seq<T>, fates': seq<Fate>, k: nat)
    requires |puts| == |fates| && |puts'| == |fates'| && k <= |puts| && k <= |puts'|
    requires puts[..k] == puts'[..k] && fates[..k] == fates'[..k]
    requires forall i :: k <= i < |fates| ==> fates[i] != Delivered
    requires forall i :: k <= i < |fates'| ==> fates'[i] != Delivered
    ensures Deliveries(puts, fates) == Deliveries(puts', fates')
  {
    DeliveriesIgnoreRest(puts, fates, k);
    DeliveriesIgnoreRest(puts', fates', k);
  }

  lemma GetDelivers<T>(h: History<T>)
    requires h.Valid() && h.queue != []
    ensures Deliveries(h.Get().puts, h.Get().fates) == Deliveries(h.puts, h.fates) + [h.queue[0]]
  {
    var k := h.Head();
    var f := h.Get().fates;
    DeliveriesIgnoreRest(h.puts, h.fates, k);
    DeliveriesIgnoreRest(h.puts, f, k + 1);
    assert h.puts[..k + 1][..k] == h.puts[..k] && f[..k + 1][..k] == h.fates[..k];
    assert h.puts[k] == h.queue[0];
  }

  /** Only `get` delivers, and it delivers the oldest queued item. */
  lemma StepDelivers<T>(h: History<T>, op: Op<T>)
    requires h.Valid()
    ensures Deliveries(h.Step(op).puts, h.Step(op).fates)
         == Deliveries(h.puts, h.fates) + (if op.DoGet? && h.queue != [] then [h.queue[0]] else [])
  {
    match op {
      case DoGet =>
        if h.queue != [] {
          GetDelivers(h);
        }
      case DoPut(item) =>
        var h' := h.Put(item);
        SamePrefixSameDeliveries(h.puts, h.fates, h'.puts, h'.fates, h.Head());
      case DoClear =>
        var h' := h.Clear();
        SamePrefixSameDeliveries(h.puts, h.fates, h'.puts, h'.fates, h.Head());
    }
  }

  /** What the calls of `get` return along a run. */
  function Outputs<T>(maxSize: int, ops: seq<Op<T>>): seq<T> {
    if ops == [] then []
    else
      var h := Run(maxSize, ops[..|ops| - 1]);
      Outputs(maxSize, ops[..|ops| - 1])
      + (if ops[|ops| - 1].DoGet? && h.queue != [] then [h.queue[0]] else [])
  }

  function Puts<T>(ops: seq<Op<T>>): seq<T> {
    if ops == [] then []
    else Puts(ops[..|ops| - 1]) + (if ops[|ops| - 1].DoPut? then [ops[|ops| - 1].item] else [])
  }

  /**
    In every run each item put has exactly one fate, the items returned by `get` are exactly the
    delivered ones in put order, and the contents are a bounded suffix of what was put.
   */
  lemma {:induction false} Conservation<T>(maxSize: int, ops: seq<Op<T>>)
    ensures var h := Run(maxSize, ops);
            && h.puts == Puts(ops) && |h.fates| == |h.puts|
            && Outputs(maxSize, ops) == Deliveries(h.puts, h.fates)
            && h.queue == h.puts[h.Head()..]
            && (forall i :: 0 <= i < |h.fates| ==> (h.fates[i] == Queued <==> h.Head() <= i))
            && (maxSize > 0 ==> |h.queue| <= maxSize)
  {
    if ops != [] {
      var before, last := ops[..|ops| - 1], ops[|ops| - 1];
      Conservation(maxSize, before);
      StepDelivers(Run(maxSize, before), last);
    }
  }

  // ---- what a full queue drops ----

  /** The longest suffix that the bound allows: everything, or the last `bound` items. */
  predicate IsNewest<T(==)>(r: seq<T>, items: seq<T>, bound: int) {
    && |r| == (if bound > 0 && |items| > bound then bound else |items|)
    && r == items[|items| - |r|..]
  }

  /**
    What one `put` leaves: the contents with the new item behind them, as far as the bound allows, and
    nothing more is dropped. What is dropped counts as evicted, and nothing else changes its fate.
   */
  lemma PutKeepsNewest<T>(h: History<T>, item: T)
    requires h.Valid()
    ensures var after := h.Step(DoPut(item)); var dropped := |h.queue| + 1 - |after.queue|;
            && IsNewest(after.queue, h.queue + [item], h.maxSize)
            && |after.fates| == |h.fates| + 1 && after.fates[|h.fates|] == Queued
            && forall i :: 0 <= i < |h.fates| ==>
                 after.fates[i] == if h.Head() <= i < h.Head() + dropped then Evicted else h.fates[i]
  {
  }

  /** The operations that put some items and do nothing else. */
  function AllPuts<T>(items: seq<T>): (r: seq<Op<T>>)
    ensures |r| == |items| && forall i :: 0 <= i < |r| ==> r[i] == DoPut(items[i])
  {
    seq(|items|, i requires 0 <= i < |items| => DoPut(items[i]))
  }

  lemma NewestSnoc<T>(q: seq<T>, items: seq<T>, x: T, r: seq<T>, bound: int)
    requires IsNewest(q, items, bound) && IsNewest(r, q + [x], bound)
    ensures IsNewest(r, items + [x], bound)
  {
    var cut := |items| - |q|;
    assert (q + [x])[|q| + 1 - |r|..] == (items + [x])[cut..][|q| + 1 - |r|..];
  }

  /** A burst of puts at any point of a run leaves the newest of what was queued and what was put. */
  lemma {:induction false} BurstKeepsNewest<T>(maxSize: int, ops: seq<Op<T>>, items: seq<T>)
    ensures IsNewest(Run(maxSize, ops + AllPuts(items)).queue, Run(maxSize, ops).queue + items, maxSize)
    decreases |items|
  {
    var q := Run(maxSize, ops).queue;
    if items == [] {
      assert ops + AllPuts(items) == ops && q + items == q;
    } else {
      var before, x := items[..|items| - 1], items[|items| - 1];
      BurstKeepsNewest(maxSize, ops, before);
      var mid := ops + AllPuts(before);
      assert ops + AllPuts(items) == mid + [DoPut(x)] && q + items == q + before + [x];
      RunSnoc(maxSize, mid, DoPut(x));
      PutKeepsNewest(Run(maxSize, mid), x);
      NewestSnoc(Run(maxSize, mid).queue, q + before, x, Run(maxSize, ops + AllPuts(items)).queue, maxSize);
    }
  }

  /** With puts alone the contents are the last items put, as many as the bound allows. */
  lemma PutsAlone<T>(maxSize: int, items: seq<T>)
    ensures IsNewest(Run(maxSize, AllPuts(items)).queue, items, maxSize)
  {
    BurstKeepsNewest(maxSize, [], items);
    assert [] + AllPuts(items) == AllPuts(items) && [] + items == items;
  }

  // ---- when nothing is lost ----

  predicate HasEvicted<T>(h: History<T>) {
    exists i :: 0 <= i < |h.fates| && h.fates[i] == Evicted
  }

  lemma EvictedStays<T>(h: History<T>, op: Op<T>)
    requires h.Valid() && HasEvicted(h)
    ensures HasEvicted(h.Step(op))
  {
    var i :| 0 <= i < |h.fates| && h.fates[i] == Evicted;
    assert i < h.Head();
    assert h.Step(op).fates[i] == Evicted;
  }

  /** The consumer side keeps up: without a bound the queue would at no point of the run hold more than `maxSize`. */
  predicate NeverFurtherAhead<T>(maxSize: int, ops: seq<Op<T>>) {
    |Run(0, ops).queue| <= maxSize && (ops == [] || NeverFurtherAhead(maxSize, ops[..|ops| - 1]))
  }

  /** Nothing is evicted exactly when the producer is never more than `maxSize` ahead; the bound is then invisible. */
  lemma {:induction false} NoEviction<T>(maxSize: int, ops: seq<Op<T>>)
    requires maxSize > 0
    ensures !HasEvicted(Run(maxSize, ops)) <==> NeverFurtherAhead(maxSize, ops)
    ensures NeverFurtherAhead(maxSize, ops) ==> Run(maxSize, ops) == Run(0, ops).(maxSize := maxSize)
  {
    if ops != [] {
      var before, last := ops[..|ops| - 1], ops[|ops| - 1];
      NoEviction(maxSize, before);
      var b, u := Run(maxSize, before), Run(0, before);
      if HasEvicted(b) {
        EvictedStays(b, last);
      } else {
        assert b == u.(maxSize := maxSize);
        StepWithoutEviction(u, last, maxSize);
      }
    }
  }

  lemma StepWithoutEviction<T>(u: History<T>, op: Op<T>, maxSize: int)
    requires u.Valid() && u.maxSize == 0 && maxSize > 0 && |u.queue| <= maxSize && !HasEvicted(u)
    ensures var b := u.(maxSize := maxSize);
            && b.Valid()
            && (!HasEvicted(b.Step(op)) <==> |u.Step(op).queue| <= maxSize)
            && (|u.Step(op).queue| <= maxSize ==> b.Step(op) == u.Step(op).(maxSize := maxSize))
  {
    var b := u.(maxSize := maxSize);
    if op.DoPut? && |u.queue| == maxSize {
      assert b.Step(op).fates[u.Head()] == Evicted;
    } else {
      var f := b.Step(op).fates;
      forall i | 0 <= i < |f|
        ensures f[i] != Evicted
      {
        assert i < |u.fates| ==> u.fates[i] != Evicted;
      }
    }
  }

  // ---- runs without clears, and the clear in front of them ----

  predicate NoClear<T>(ops: seq<Op<T>>) {
    forall i :: 0 <= i < |ops| ==> !ops[i].DoClear?
  }

  /** No step but a `put` into a full queue evicts. */
  lemma EvictsOnlyWhenFull<T>(h: History<T>, op: Op<T>)
    requires h.Valid() && !HasEvicted(h)
    ensures HasEvicted(h.Step(op)) <==> op.DoPut? && h.maxSize > 0 && |h.queue| >= h.maxSize
  {
    var f := h.Step(op).fates;
    if op.DoPut? && h.maxSize > 0 && |h.queue| >= h.maxSize {
      assert f[h.Head()] == Evicted;
    } else {
      forall i | 0 <= i < |f|
        ensures f[i] != Evicted
      {
        assert i < |h.fates| ==> h.fates[i] != Evicted;
      }
    }
  }

  /** Without clears, what was delivered and what is queued are all that was put, in order, unless something was evicted. */
  lemma {:induction false} DeliveredThenQueued<T>(maxSize: int, ops: seq<Op<T>>)
    requires NoClear(ops)
    ensures var h := Run(maxSize, ops); var got := Outputs(maxSize, ops);
            if HasEvicted(h) then |got| + |h.queue| < |Puts(ops)| else got + h.queue == Puts(ops)
  {
    if ops != [] {
      var before, last := ops[..|ops| - 1], ops[|ops| - 1];
      DeliveredThenQueued(maxSize, before);
      var h := Run(maxSize, before);
      if HasEvicted(h) {
        EvictedStays(h, last);
      } else {
        EvictsOnlyWhenFull(h, last);
        DeliveredStep(h, last, Outputs(maxSize, before), Puts(before));
      }
    }
  }

  lemma DeliveredStep<T>(h: History<T>, op: Op<T>, got: seq<T>, put: seq<T>)
    requires h.Valid() && !op.DoClear? && got + h.queue == put
    ensures var got' := got + (if op.DoGet? && h.queue != [] then [h.queue[0]] else []);
            var put' := put + (if op.DoPut? then [op.item] else []);
            if op.DoPut? && h.maxSize > 0 && |h.queue| >= h.maxSize
            then |got'| + |h.Step(op).queue| < |put'| else got' + h.Step(op).queue == put'
  {
    if op.DoGet? && h.queue != [] {
      assert h.queue == [h.queue[0]] + h.queue[1..];
    }
  }

  lemma {:induction false} UnboundedEvictsNothing<T>(maxSize: int, ops: seq<Op<T>>)
    requires maxSize <= 0
    ensures !HasEvicted(Run(maxSize, ops))
  {
    if ops != [] {
      UnboundedEvictsNothing(maxSize, ops[..|ops| - 1]);
      EvictsOnlyWhenFull(Run(maxSize, ops[..|ops| - 1]), ops[|ops| - 1]);
    }
  }

  /** The reader is never left too far behind, or there is no bound. */
  predicate KeepsUp<T>(maxSize: int, ops: seq<Op<T>>) {
    maxSize <= 0 || NeverFurtherAhead(maxSize, ops)
  }

  /** Without clears, `get` returns the items in the order they were put, with no gap, exactly when the reader keeps up. */
  lemma NothingSkipped<T>(maxSize: int, ops: seq<Op<T>>)
    requires NoClear(ops)
    ensures Outputs(maxSize, ops) + Run(maxSize, ops).queue == Puts(ops) <==> KeepsUp(maxSize, ops)
  {
    DeliveredThenQueued(maxSize, ops);
    if maxSize <= 0 {
      UnboundedEvictsNothing(maxSize, ops);
    } else {
      NoEviction(maxSize, ops);
    }
  }

  lemma SameQueueSameStep<T>(a: History<T>, b: History<T>, op: Op<T>)
    requires a.Valid() && b.Valid() && a.queue == b.queue && a.maxSize == b.maxSize
    ensures a.Step(op).queue == b.Step(op).queue
  {
  }

  /** What one `get` returns. */
  function GetReturns<T>(h: History<T>, op: Op<T>): seq<T> {
    if op.DoGet? && h.queue != [] then [h.queue[0]] else []
  }

  lemma RunSnoc<T>(maxSize: int, ops: seq<Op<T>>, op: Op<T>)
    ensures Run(maxSize, ops + [op]) == Run(maxSize, ops).Step(op)
    ensures Outputs(maxSize, ops + [op]) == Outputs(maxSize, ops) + GetReturns(Run(maxSize, ops), op)
  {
    var all := ops + [op];
    assert all[..|all| - 1] == ops && all[|all| - 1] == op;
  }

  function AfterClear<T>(a: seq<Op<T>>, b: seq<Op<T>>): seq<Op<T>> {
    a + [DoClear] + b
  }

  lemma AfterClearSnoc<T>(a: seq<Op<T>>, b: seq<Op<T>>, op: Op<T>)
    ensures AfterClear(a, b + [op]) == AfterClear(a, b) + [op]
    ensures AfterClear(a, []) == a + [DoClear]
  {
  }

  lemma SplitLast<T>(s: seq<T>)
    requires s != []
    ensures s == s[..|s| - 1] + [s[|s| - 1]]
  {
  }

  /** After a clear the queue starts afresh: nothing from before it is ever delivered. */
  lemma {:induction false} ClearStartsAfresh<T>(maxSize: int, a: seq<Op<T>>, b: seq<Op<T>>)
    ensures Run(maxSize, AfterClear(a, b)).queue == Run(maxSize, b).queue
    ensures Outputs(maxSize, AfterClear(a, b)) == Outputs(maxSize, a) + Outputs(maxSize, b)
    decreases |b|
  {
    if b == [] {
      RunSnoc(maxSize, a, DoClear);
      AfterClearSnoc(a, [], DoClear);
    } else {
      var init, last := b[..|b| - 1], b[|b| - 1];
      SplitLast(b);
      ClearStartsAfresh(maxSize, a, init);
      ClearStep(maxSize, a, init, last);
    }
  }

  lemma ClearStep<T>(maxSize: int, a: seq<Op<T>>, b: seq<Op<T>>, op: Op<T>)
    requires Run(maxSize, AfterClear(a, b)).queue == Run(maxSize, b).queue
    requires Outputs(maxSize, AfterClear(a, b)) == Outputs(maxSize, a) + Outputs(maxSize, b)
    ensures Run(maxSize, AfterClear(a, b + [op])).queue == Run(maxSize, b + [op]).queue
    ensures Outputs(maxSize, AfterClear(a, b + [op])) == Outputs(maxSize, a) + Outputs(maxSize, b + [op])
  {
    AfterClearSnoc(a, b, op);
    BothStep(maxSize, AfterClear(a, b), b, op, Outputs(maxSize, a));
  }

  /** Two runs that end in the same contents go on alike. */
  lemma BothStep<T>(maxSize: int, c: seq<Op<T>>, d: seq<Op<T>>, op: Op<T>, before: seq<T>)
    requires Run(maxSize, c).queue == Run(maxSize, d).queue
    requires Outputs(maxSize, c) == before + Outputs(maxSize, d)
    ensures Run(maxSize, c + [op]).queue == Run(maxSize, d + [op]).queue
    ensures Outputs(maxSize, c + [op]) == before + Outputs(maxSize, d + [op])
  {
    RunSnoc(maxSize, c, op);
    RunSnoc(maxSize, d, op);
    SameQueueSameStep(Run(maxSize, c), Run(maxSize, d), op);
    var one := GetReturns(Run(maxSize, d), op);
    assert before + Outputs(maxSize, d) + one == before + (Outputs(maxSize, d) + one);
  }

  // ---- the class ----

  datatype Got<T> = Item(value: T) | EmptyRaised

  class LineReaderQueue<T> {
    var queue: seq<T>
    const maxSize: int
    ghost var history: History<T>

    ghost predicate Valid()
      reads this
    {
      history.Valid() && history.queue == queue && history.maxSize == maxSize
    }

    constructor (maxSize: int)
      ensures Valid() && history == Empty(maxSize)
    {
      this.maxSize := maxSize;
      queue := [];
      history := Empty(maxSize);
    }

    method Put(item: T)
      requires Valid()
      modifies this
      ensures Valid() && history == old(history).Step(DoPut(item))
      // the item is there, and of what was there before only as much is gone as the bound demands
      ensures IsNewest(queue, old(queue) + [item], maxSize)
    {
      PutKeepsNewest(history, item);
      if maxSize > 0 && |queue| >= maxSize {
        queue := queue[1..];
      }
      queue := queue + [item];
      history := history.Step(DoPut(item));
    }

    /** `get(block=False)`, which is also what a blocking `get` does once it stops waiting. */
    method GetNoWait() returns (r: Got<T>)
      requires Valid()
      modifies this
      ensures Valid() && history == old(history).Step(DoGet)
      ensures r == if old(queue) == [] then EmptyRaised else Item(old(queue)[0])
      ensures queue == if old(queue) == [] then [] else old(queue)[1..]
    {
      history := history.Step(DoGet);
      if |queue| == 0 {
        return EmptyRaised;
      }
      r := Item(queue[0]);
      queue := queue[1..];
    }

    method Clear()
      requires Valid()
      modifies this
      ensures Valid() && history == old(history).Step(DoClear)
      ensures queue == []
    {
      queue := [];
      history := history.Step(DoClear);
    }
  }
}
