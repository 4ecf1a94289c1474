/**
  `LineReader.read_cond` and `Console.mark` of score/itf/core/process/console.py over the lines that
  the queue delivers. How a line matches an expression (`_check_msg`) is left open.
 */
module Matching {
  import opened Text

  /** What a waiting reader meets next: a line, or the end of its patience. */
  datatype Event = Line(text: string, at: int) | Expired(at: int)

  /** The consumer's side of the queue; when no event is left, every wait expires. */
  class LineSource {
    const events: seq<Event>
    var pos: nat
    var clock: int

    ghost predicate Valid()
      reads this
    {
      pos <= |events|
    }

    constructor (events: seq<Event>)
      ensures Valid() && this.events == events && pos == 0
    {
      this.events := events;
      pos, clock := 0, 0;
    }

    /** `get_line(block=True, timeout=...)`, or the check of the remaining time in front of it. */
    method GetLine() returns (line: Option<string>)
      requires Valid()
      modifies this
      ensures Valid() && old(clock) <= clock
      ensures old(pos) == |events| ==> line == None && pos == old(pos)
      ensures old(pos) < |events| ==> pos == old(pos) + 1 && events[old(pos)].at <= clock
      ensures old(pos) < |events| ==>
                line == if events[old(pos)].Line? then Some(events[old(pos)].text) else None
    {
      if pos == |events| {
        return None;
      }
      var e := events[pos];
      pos := pos + 1;
      clock := if clock < e.at then e.at else clock;
      line := if e.Line? then Some(e.text) else None;
    }
  }

  /** Matching a line against an expression. */
  type Check = (string, string) -> bool

  datatype EndFunc = Any | All {
    predicate Of(checks: seq<bool>) {
      if Any? then exists i :: 0 <= i < |checks| && checks[i] else forall i :: 0 <= i < |checks| ==> checks[i]
    }
  }

  predicate AllLines(events: seq<Event>, lo: int, hi: int)
    requires 0 <= lo <= hi <= |events|
  {
    forall k :: lo <= k < hi ==> events[k].Line?
  }

  /** Some line among the given events matches the expression. */
  predicate Matched(events: seq<Event>, lo: int, hi: int, expr: string, check: Check)
    requires 0 <= lo <= hi <= |events|
  {
    exists k :: lo <= k < hi && events[k].Line? && check(events[k].text, expr)
  }

  function Checks(events: seq<Event>, lo: int, hi: int, exprs: seq<string>, check: Check): (r: seq<bool>)
    requires 0 <= lo <= hi <= |events|
    ensures |r| == |exprs|
  {
    seq(|exprs|, i requires 0 <= i < |exprs| => Matched(events, lo, hi, exprs[i], check))
  }

  predicate Holds(events: seq<Event>, lo: int, hi: int, exprs: seq<string>, endFunc: EndFunc, check: Check)
    requires 0 <= lo <= hi <= |events|
  {
    endFunc.Of(Checks(events, lo, hi, exprs, check))
  }

  /** The line matches one of the expressions. */
  predicate MatchesOne(e: Event, exprs: seq<string>, check: Check) {
    e.Line? && exists i :: 0 <= i < |exprs| && check(e.text, exprs[i])
  }

  /** Each of the expressions is matched by one of the lines. */
  predicate AllMatched(events: seq<Event>, lo: int, hi: int, exprs: seq<string>, check: Check)
    requires 0 <= lo <= hi <= |events|
  {
    forall i :: 0 <= i < |exprs| ==> Matched(events, lo, hi, exprs[i], check)
  }

  /** `any` asks for one line that matches one of the expressions. */
  lemma AnyMeans(events: seq<Event>, lo: int, hi: int, exprs: seq<string>, check: Check)
    requires 0 <= lo <= hi <= |events|
    ensures Holds(events, lo, hi, exprs, Any, check)
       <==> exists k :: lo <= k < hi && MatchesOne(events[k], exprs, check)
  {
    var checks := Checks(events, lo, hi, exprs, check);
    if Holds(events, lo, hi, exprs, Any, check) {
      var i :| 0 <= i < |checks| && checks[i];
      var k :| lo <= k < hi && events[k].Line? && check(events[k].text, exprs[i]);
      assert MatchesOne(events[k], exprs, check);
    }
    if k :| lo <= k < hi && MatchesOne(events[k], exprs, check) {
      var i :| 0 <= i < |exprs| && check(events[k].text, exprs[i]);
      assert checks[i];
    }
  }

  /** `all` asks for a line for each of them. */
  lemma AllMeans(events: seq<Event>, lo: int, hi: int, exprs: seq<string>, check: Check)
    requires 0 <= lo <= hi <= |events|
    ensures Holds(events, lo, hi, exprs, All, check) <==> AllMatched(events, lo, hi, exprs, check)
  {
    var checks := Checks(events, lo, hi, exprs, check);
    assert forall i :: 0 <= i < |exprs| ==> checks[i] == Matched(events, lo, hi, exprs[i], check);
  }

  /** None of the lines matches any of the expressions, or no prefix of them matches all. */
  ghost predicate NeverMet(events: seq<Event>, lo: int, hi: int, exprs: seq<string>, endFunc: EndFunc, check: Check)
    requires 0 <= lo <= hi <= |events|
  {
    match endFunc
    case Any => forall k :: lo <= k < hi ==> !MatchesOne(events[k], exprs, check)
    case All => forall j :: lo < j <= hi ==> !AllMatched(events, lo, j, exprs, check)
  }

  /** The last of the lines is the first that matches one of the expressions, or that makes them all matched. */
  ghost predicate MetFirst(events: seq<Event>, lo: int, hi: int, exprs: seq<string>, endFunc: EndFunc, check: Check)
    requires 0 <= lo < hi <= |events|
  {
    && NeverMet(events, lo, hi - 1, exprs, endFunc, check)
    && match endFunc
       case Any => MatchesOne(events[hi - 1], exprs, check)
       case All => AllMatched(events, lo, hi, exprs, check)
  }

  lemma NotBefore(events: seq<Event>, lo: int, hi: int, exprs: seq<string>, endFunc: EndFunc, check: Check)
    requires 0 <= lo <= hi <= |events|
    requires forall j :: lo < j <= hi ==> !Holds(events, lo, j, exprs, endFunc, check)
    ensures NeverMet(events, lo, hi, exprs, endFunc, check)
  {
    if endFunc.Any? {
      forall k | lo <= k < hi
        ensures !MatchesOne(events[k], exprs, check)
      {
        AnyMeans(events, lo, k + 1, exprs, check);
      }
    } else {
      forall j | lo < j <= hi
        ensures !AllMatched(events, lo, j, exprs, check)
      {
        AllMeans(events, lo, j, exprs, check);
      }
    }
  }

  lemma MetThere(events: seq<Event>, lo: int, hi: int, exprs: seq<string>, endFunc: EndFunc, check: Check)
    requires 0 <= lo < hi <= |events| && Holds(events, lo, hi, exprs, endFunc, check)
    requires forall j :: lo < j < hi ==> !Holds(events, lo, j, exprs, endFunc, check)
    ensures MetFirst(events, lo, hi, exprs, endFunc, check)
  {
    NotBefore(events, lo, hi - 1, exprs, endFunc, check);
    AnyMeans(events, lo, hi, exprs, check);
    AllMeans(events, lo, hi, exprs, check);
  }

  /** Where waiting ends when no condition is met: behind the next expiry, or at the end. */
  function Deadline(events: seq<Event>, from: nat): (stop: nat)
    requires from <= |events|
    ensures from <= stop <= |events|
    ensures AllLines(events, from, stop) && (stop < |events| ==> events[stop].Expired?)
    decreases |events| - from
  {
    if from < |events| && events[from].Line? then Deadline(events, from + 1) else from
  }

  function AfterExpiry(events: seq<Event>, from: nat): (next: nat)
    requires from <= |events|
    ensures from <= next <= |events|
  {
    var stop := Deadline(events, from);
    if stop < |events| then stop + 1 else stop
  }

  lemma {:induction false} DeadlineIs(events: seq<Event>, from: nat, stop: nat)
    requires from <= stop <= |events| && AllLines(events, from, stop)
    requires stop < |events| ==> events[stop].Expired?
    ensures Deadline(events, from) == stop
    decreases stop - from
  {
    if from < stop {
      DeadlineIs(events, from + 1, stop);
    }
  }

  /** The inner loop: which expressions have been matched, one line later. */
  method CheckLine(line: string, exprs: seq<string>, before: seq<bool>, check: Check) returns (checks: seq<bool>)
    requires |before| == |exprs|
    ensures |checks| == |exprs| && forall k :: 0 <= k < |exprs| ==> checks[k] == (before[k] || check(line, exprs[k]))
  {
    checks := before;
    for i := 0 to |exprs|
      invariant |checks| == |exprs|
      invariant forall k :: 0 <= k < i ==> checks[k] == (before[k] || check(line, exprs[k]))
      invariant forall k :: i <= k < |exprs| ==> checks[k] == before[k]
    {
      if check(line, exprs[i]) {
        checks := checks[i := true];
      }
    }
  }

  lemma ChecksSnoc(events: seq<Event>, lo: int, hi: int, exprs: seq<string>, check: Check)
    requires 0 <= lo <= hi < |events| && events[hi].Line?
    ensures forall k :: 0 <= k < |exprs| ==>
              (Checks(events, lo, hi + 1, exprs, check)[k]
               <==> Checks(events, lo, hi, exprs, check)[k] || check(events[hi].text, exprs[k]))
  {
    forall k | 0 <= k < |exprs|
      ensures Checks(events, lo, hi + 1, exprs, check)[k]
         <==> Checks(events, lo, hi, exprs, check)[k] || check(events[hi].text, exprs[k])
    {
      MatchedSnoc(events, lo, hi, exprs[k], check);
    }
  }

  /** True after the shortest non-empty run of lines that meets the condition; false only when the wait expires. */
  method ReadCond(source: LineSource, exprs: seq<string>, endFunc: EndFunc, check: Check) returns (found: bool)
    requires source.Valid()
    modifies source
    ensures source.Valid() && old(source.clock) <= source.clock
    ensures found ==>
              && old(source.pos) < source.pos && AllLines(source.events, old(source.pos), source.pos)
              && Holds(source.events, old(source.pos), source.pos, exprs, endFunc, check)
              && source.events[source.pos - 1].at <= source.clock
    ensures found ==> forall j :: old(source.pos) < j < source.pos ==>
              !Holds(source.events, old(source.pos), j, exprs, endFunc, check)
    ensures !found ==> source.pos == AfterExpiry(source.events, old(source.pos))
    ensures !found ==> forall j :: old(source.pos) < j <= Deadline(source.events, old(source.pos)) ==>
              !Holds(source.events, old(source.pos), j, exprs, endFunc, check)
    // and with `any` and `all` spelled out
    ensures found ==> MetFirst(source.events, old(source.pos), source.pos, exprs, endFunc, check)
    ensures !found ==> NeverMet(source.events, old(source.pos), Deadline(source.events, old(source.pos)), exprs, endFunc, check)
  {
    var checks := seq(|exprs|, _ => false);
    ghost var start := source.pos;
    assert checks == Checks(source.events, start, start, exprs, check);
    while true
      invariant source.Valid() && start <= source.pos && AllLines(source.events, start, source.pos)
      invariant old(source.clock) <= source.clock
      invariant checks == Checks(source.events, start, source.pos, exprs, check)
      invariant forall j :: start < j <= source.pos ==> !Holds(source.events, start, j, exprs, endFunc, check)
      decreases |source.events| - source.pos
    {
      ghost var here := source.pos;
      var line := source.GetLine();
      if line.None? {
        DeadlineIs(source.events, start, here);
        NotBefore(source.events, start, here, exprs, endFunc, check);
        return false;
      }
      checks := CheckLine(line.value, exprs, checks, check);
      ChecksSnoc(source.events, start, here, exprs, check);
      if endFunc.Of(checks) {
        MetThere(source.events, start, source.pos, exprs, endFunc, check);
        return true;
      }
    }
  }

  lemma MatchedSnoc(events: seq<Event>, lo: int, hi: int, expr: string, check: Check)
    requires 0 <= lo <= hi < |events| && events[hi].Line?
    ensures Matched(events, lo, hi + 1, expr, check)
       <==> Matched(events, lo, hi, expr, check) || check(events[hi].text, expr)
  {
    if check(events[hi].text, expr) {
      assert lo <= hi < hi + 1 && events[hi].Line?;
    }
  }

  // ---- mark ----

  /** The first line at or behind `from` that matches, unless the wait expires before it. */
  function FirstMatch(events: seq<Event>, from: nat, msg: string, check: Check): (r: Option<nat>)
    requires from <= |events|
    ensures r.Some? ==> && from <= r.value < |events| && AllLines(events, from, r.value + 1)
                        && check(events[r.value].text, msg) && !Matched(events, from, r.value, msg, check)
    ensures r.None? ==> !Matched(events, from, Deadline(events, from), msg, check)
    decreases |events| - from
  {
    if from == |events| || events[from].Expired? then None
    else if check(events[from].text, msg) then Some(from)
    else FirstMatch(events, from + 1, msg, check)
  }

  /** The positions at which `mark` finds its messages. */
  function Positions(events: seq<Event>, from: nat, msgs: seq<string>, check: Check): (r: seq<Option<nat>>)
    requires from <= |events|
    ensures |r| == |msgs|
    ensures forall i :: 0 <= i < |r| && r[i].Some? ==> from <= r[i].value < |events|
    decreases |msgs|
  {
    if msgs == [] then []
    else
      var first := FirstMatch(events, from, msgs[0], check);
      [first] + Positions(events, if first.Some? then first.value + 1 else AfterExpiry(events, from), msgs[1..], check)
  }

  lemma FirstMatchIs(events: seq<Event>, from: nat, p: nat, msg: string, check: Check)
    requires from <= p < |events| && AllLines(events, from, p + 1) && check(events[p].text, msg)
    requires !Matched(events, from, p, msg, check)
    ensures FirstMatch(events, from, msg, check) == Some(p)
  {
    FirstMatchExists(events, from, p, msg, check);
    var q := FirstMatch(events, from, msg, check).value;
    assert events[q].Line? && check(events[q].text, msg);
  }

  lemma {:induction false} FirstMatchExists(events: seq<Event>, from: nat, p: nat, msg: string, check: Check)
    requires from <= p < |events| && AllLines(events, from, p + 1) && check(events[p].text, msg)
    ensures FirstMatch(events, from, msg, check).Some? && FirstMatch(events, from, msg, check).value <= p
    decreases p - from
  {
    assert events[from].Line?;
    if from < p {
      FirstMatchExists(events, from + 1, p, msg, check);
    }
  }

  lemma {:induction false} FirstMatchNone(events: seq<Event>, from: nat, msg: string, check: Check)
    requires from <= |events| && !Matched(events, from, Deadline(events, from), msg, check)
    ensures FirstMatch(events, from, msg, check) == None
    decreases |events| - from
  {
    if from < |events| && events[from].Line? {
      FirstMatchNone(events, from + 1, msg, check);
    }
  }

  datatype TimePoint = TimePoint(msg: string, time: Option<int>)

  /** Where the search for the next message starts. */
  function NextStart(events: seq<Event>, from: nat, msg: string, check: Check): (next: nat)
    requires from <= |events|
    ensures next <= |events|
  {
    var first := FirstMatch(events, from, msg, check);
    if first.Some? then first.value + 1 else AfterExpiry(events, from)
  }

  lemma PositionsCons(events: seq<Event>, from: nat, msgs: seq<string>, check: Check)
    requires from <= |events| && msgs != []
    ensures Positions(events, from, msgs, check)
         == [FirstMatch(events, from, msgs[0], check)]
            + Positions(events, NextStart(events, from, msgs[0], check), msgs[1..], check)
  {
  }

  /** A message that is not found before the wait expires does not end the search: the next one is looked for behind the expiry. */
  lemma NotFoundGoesOn(events: seq<Event>, from: nat, stop: nat, msgs: seq<string>, check: Check)
    requires from <= stop < |events| && AllLines(events, from, stop) && events[stop].Expired? && msgs != []
    requires forall k :: from <= k < stop ==> !check(events[k].text, msgs[0])
    ensures Positions(events, from, msgs, check) == [None] + Positions(events, stop + 1, msgs[1..], check)
  {
    DeadlineIs(events, from, stop);
    FirstMatchNone(events, from, msgs[0], check);
    PositionsCons(events, from, msgs, check);
  }

  /** A message that is found is searched no further: the next one is looked for behind its line. */
  lemma FoundGoesOn(events: seq<Event>, from: nat, k: nat, msgs: seq<string>, check: Check)
    requires from <= k < |events| && AllLines(events, from, k + 1) && msgs != [] && check(events[k].text, msgs[0])
    requires forall j :: from <= j < k ==> !check(events[j].text, msgs[0])
    ensures Positions(events, from, msgs, check) == [Some(k)] + Positions(events, k + 1, msgs[1..], check)
  {
    FirstMatchIs(events, from, k, msgs[0], check);
    PositionsCons(events, from, msgs, check);
  }

  /** What is left of the positions after one message. */
  lemma PositionsStep(
    events: seq<Event>, from: nat, msgs: seq<string>, all: seq<Option<nat>>, i: nat, check: Check)
    requires from <= |events| && i < |msgs| == |all|
    requires all[i..] == Positions(events, from, msgs[i..], check)
    ensures all[i] == FirstMatch(events, from, msgs[i], check)
    ensures all[i + 1..] == Positions(events, NextStart(events, from, msgs[i], check), msgs[i + 1..], check)
  {
    PositionsCons(events, from, msgs[i..], check);
    SliceStep(msgs, i);
    SliceStep(all, i);
  }

  method ReadUntil(source: LineSource, expr: string, check: Check) returns (found: bool)
    requires source.Valid()
    modifies source
    ensures source.Valid() && old(source.clock) <= source.clock
    ensures found == FirstMatch(source.events, old(source.pos), expr, check).Some?
    ensures source.pos == NextStart(source.events, old(source.pos), expr, check)
    ensures found ==> source.events[FirstMatch(source.events, old(source.pos), expr, check).value].at <= source.clock
  {
    ghost var from := source.pos;
    found := ReadCond(source, [expr], Any, check);
    SingleExpr(source.events, from, expr, check);
    if found {
      var p := source.pos - 1;
      assert !Matched(source.events, from, p, expr, check);
      MatchedSnoc(source.events, from, p, expr, check);
      FirstMatchIs(source.events, from, p, expr, check);
    } else {
      assert !Matched(source.events, from, Deadline(source.events, from), expr, check);
      FirstMatchNone(source.events, from, expr, check);
    }
  }

  /** A time point is set exactly when the message was found, and is not earlier than the line itself. */
  ghost predicate Recorded(point: TimePoint, msg: string, position: Option<nat>, events: seq<Event>, clock: int)
    requires position.Some? ==> position.value < |events|
  {
    && point.msg == msg
    && (point.time.Some? <==> position.Some?)
    && (position.Some? ==> events[position.value].at <= point.time.value <= clock)
  }

  ghost predicate Monotone(points: seq<TimePoint>) {
    forall i, j :: 0 <= i < j < |points| && points[i].time.Some? && points[j].time.Some? ==>
      points[i].time.value <= points[j].time.value
  }

  method Mark(source: LineSource, msgs: seq<string>, check: Check) returns (timePoints: seq<TimePoint>)
    requires source.Valid()
    modifies source
    ensures source.Valid()
    ensures AllRecorded(timePoints, msgs, Positions(source.events, old(source.pos), msgs, check),
                        source.events, source.clock)
    ensures Monotone(timePoints)
  {
    timePoints := [];
    ghost var all := Positions(source.events, source.pos, msgs, check);
    assert msgs[0..] == msgs && all[0..] == all;
    for i := 0 to |msgs|
      invariant source.Valid()
      invariant all[i..] == Positions(source.events, source.pos, msgs[i..], check)
      invariant AllRecorded(timePoints, msgs[..i], all[..i], source.events, source.clock)
      invariant Monotone(timePoints)
    {
      ghost var before := source.clock;
      PositionsStep(source.events, source.pos, msgs, all, i, check);
      var found := ReadUntil(source, msgs[i], check);
      var point := TimePoint(msgs[i], if found then Some(source.clock) else None);
      RecordedSnoc(timePoints, msgs, all, i, source.events, before, source.clock, point);
      timePoints := timePoints + [point];
    }
    assert msgs[..|msgs|] == msgs && all[..|msgs|] == all;
  }

  ghost predicate AllRecorded(
    points: seq<TimePoint>, msgs: seq<string>, positions: seq<Option<nat>>, events: seq<Event>, clock: int)
    requires forall i :: 0 <= i < |positions| && positions[i].Some? ==> positions[i].value < |events|
  {
    && |points| == |msgs| == |positions|
    && forall i :: 0 <= i < |points| ==> Recorded(points[i], msgs[i], positions[i], events, clock)
  }

  lemma RecordedSnoc(
    points: seq<TimePoint>, msgs: seq<string>, positions: seq<Option<nat>>, n: nat, events: seq<Event>,
    before: int, clock: int, point: TimePoint)
    requires n < |msgs| == |positions|
    requires forall i :: 0 <= i < |positions| && positions[i].Some? ==> positions[i].value < |events|
    requires AllRecorded(points, msgs[..n], positions[..n], events, before) && Monotone(points) && before <= clock
    requires Recorded(point, msgs[n], positions[n], events, clock) && (point.time.Some? ==> point.time.value == clock)
    ensures AllRecorded(points + [point], msgs[..n + 1], positions[..n + 1], events, clock)
    ensures Monotone(points + [point])
  {
    var all := points + [point];
    forall i | 0 <= i < |all|
      ensures Recorded(all[i], msgs[..n + 1][i], positions[..n + 1][i], events, clock)
    {
      assert i < n ==> Recorded(points[i], msgs[..n][i], positions[..n][i], events, before);
    }
    forall i, j | 0 <= i < j < |all| && all[i].time.Some? && all[j].time.Some?
      ensures all[i].time.value <= all[j].time.value
    {
      assert Recorded(points[i], msgs[..n][i], positions[..n][i], events, before);
    }
  }

  /** `read_until`: with one expression, `any` just asks for one matching line. */
  lemma SingleExpr(events: seq<Event>, lo: nat, msg: string, check: Check)
    requires lo <= |events|
    ensures forall hi :: lo <= hi <= |events| ==>
              (Holds(events, lo, hi, [msg], Any, check) <==> Matched(events, lo, hi, msg, check))
  {
    forall hi | lo <= hi <= |events|
      ensures Holds(events, lo, hi, [msg], Any, check) <==> Matched(events, lo, hi, msg, check)
    {
      assert Checks(events, lo, hi, [msg], check)[0] == Matched(events, lo, hi, msg, check);
    }
  }

  // ---- greedy matching is complete ----

  /** The messages match, in order, at strictly increasing positions. */
  ghost predicate Embeds(events: seq<Event>, from: nat, msgs: seq<string>, p: seq<nat>, check: Check) {
    && |p| == |msgs|
    && (forall i :: 0 <= i < |p| ==>
          from <= p[i] < |events| && events[p[i]].Line? && check(events[p[i]].text, msgs[i]))
    && (forall i, j :: 0 <= i < j < |p| ==> p[i] < p[j])
  }

  ghost predicate AllFound(r: seq<Option<nat>>) {
    forall i :: 0 <= i < |r| ==> r[i].Some?
  }

  function Values(r: seq<Option<nat>>): seq<nat>
    requires forall i :: 0 <= i < |r| ==> r[i].Some?
  {
    seq(|r|, i requires 0 <= i < |r| => r[i].value)
  }

  lemma {:induction false} FoundPositionsEmbed(events: seq<Event>, from: nat, msgs: seq<string>, check: Check)
    requires from <= |events|
    requires AllFound(Positions(events, from, msgs, check))
    ensures Embeds(events, from, msgs, Values(Positions(events, from, msgs, check)), check)
    decreases |msgs|
  {
    if msgs != [] {
      var first := FirstMatch(events, from, msgs[0], check);
      var tail := Positions(events, NextStart(events, from, msgs[0], check), msgs[1..], check);
      PositionsCons(events, from, msgs, check);
      FoundCons(first, tail);
      FoundPositionsEmbed(events, first.value + 1, msgs[1..], check);
      EmbedsCons(events, from, first.value, msgs, Values(tail), check);
    }
  }

  lemma FoundCons(first: Option<nat>, tail: seq<Option<nat>>)
    requires AllFound([first] + tail)
    ensures first.Some? && AllFound(tail) && Values([first] + tail) == [first.value] + Values(tail)
  {
    var all := [first] + tail;
    assert all[0] == first;
    assert forall i :: 0 <= i < |tail| ==> tail[i] == all[i + 1];
  }

  lemma EmbedsCons(events: seq<Event>, from: nat, p: nat, msgs: seq<string>, rest: seq<nat>, check: Check)
    requires msgs != [] && from <= p < |events| && events[p].Line? && check(events[p].text, msgs[0])
    requires Embeds(events, p + 1, msgs[1..], rest, check)
    ensures Embeds(events, from, msgs, [p] + rest, check)
  {
    var v := [p] + rest;
    assert forall i :: 0 < i < |v| ==> v[i] == rest[i - 1] && msgs[i] == msgs[1..][i - 1];
  }

  /** On delivered lines the greedy positions come no later than any others. */
  lemma {:induction false} GreedyIsEarliest(
    events: seq<Event>, from: nat, msgs: seq<string>, p: seq<nat>, check: Check)
    requires from <= |events| && AllLines(events, from, |events|)
    requires Embeds(events, from, msgs, p, check)
    ensures AllFound(Positions(events, from, msgs, check))
    ensures forall i :: 0 <= i < |p| ==> Positions(events, from, msgs, check)[i].value <= p[i]
    decreases |msgs|
  {
    if msgs != [] {
      FirstMatchExists(events, from, p[0], msgs[0], check);
      var next := FirstMatch(events, from, msgs[0], check).value + 1;
      assert Embeds(events, next, msgs[1..], p[1..], check) by {
        forall i | 0 <= i < |p[1..]|
          ensures next <= p[1..][i]
        {
          assert p[0] < p[i + 1];
        }
      }
      GreedyIsEarliest(events, next, msgs[1..], p[1..], check);
      var r := Positions(events, from, msgs, check);
      assert r[1..] == Positions(events, next, msgs[1..], check);
      forall i | 0 <= i < |p|
        ensures r[i].Some? && r[i].value <= p[i]
      {
        if i > 0 {
          assert r[i] == r[1..][i - 1] && p[i] == p[1..][i - 1];
        }
      }
    }
  }

  lemma {:induction false} PositionsPrefix(events: seq<Event>, from: nat, msgs: seq<string>, n: nat, check: Check)
    requires from <= |events| && n <= |msgs|
    ensures Positions(events, from, msgs, check)[..n] == Positions(events, from, msgs[..n], check)
    decreases n
  {
    if n > 0 {
      var next := NextStart(events, from, msgs[0], check);
      PositionsPrefix(events, next, msgs[1..], n - 1, check);
      PositionsCons(events, from, msgs, check);
      PositionsCons(events, from, msgs[..n], check);
      assert msgs[..n][1..] == msgs[1..][..n - 1];
    }
  }

  /**
    On a stream of delivered lines, the first `n` messages are all found exactly when they match at
    some strictly increasing positions.
   */
  lemma MarkIsComplete(events: seq<Event>, from: nat, msgs: seq<string>, n: nat, check: Check)
    requires from <= |events| && AllLines(events, from, |events|) && n <= |msgs|
    ensures AllFound(Positions(events, from, msgs, check)[..n])
       <==> exists p :: Embeds(events, from, msgs[..n], p, check)
  {
    PositionsPrefix(events, from, msgs, n, check);
    if AllFound(Positions(events, from, msgs, check)[..n]) {
      FoundPositionsEmbed(events, from, msgs[..n], check);
    }
    if p :| Embeds(events, from, msgs[..n], p, check) {
      GreedyIsEarliest(events, from, msgs[..n], p, check);
    }
  }
}
