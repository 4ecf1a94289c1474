/**
  `Console.run_sh_cmd_output` of score/itf/core/process/console.py: run a command in an
  interactive shell and read its output up to the line that reports the exit code.
 */
module ShellCommandProtocol {
  import opened Text
  import opened Matching

  const MARKER := "XTF_DONE"
  const DONE := "XTF_DONE="

  /** What the call comes to: a result, the timeout exception, or an exception from a malformed line. */
  datatype Outcome = Returned(code: int, output: string) | TimedOut | Malformed

  function Finish(line: string, output: seq<string>): Outcome {
    var parts := Split(line, DONE);
    if |parts| < 2 then Malformed
    else
      match ParseInt(parts[1])
      case Some(code) => Returned(code, Strip(Join("\n", output + [parts[0]])))
      case None => Malformed
  }

  /** The outcome from some event on, with the output collected so far. */
  function Protocol(events: seq<Event>, from: nat, cmd: string, output: seq<string>): Outcome
    requires from <= |events|
    decreases |events| - from
  {
    if from == |events| || events[from].Expired? then TimedOut
    else
      var line := events[from].text;
      if Contains(line, MARKER) && Contains(line, cmd) then Protocol(events, from + 1, cmd, output)
      else if Contains(line, MARKER) then Finish(line, output)
      else Protocol(events, from + 1, cmd, output + [line])
  }

  /** The loop, over the lines that arrive after the history was cleared. */
  method RunShCmdOutput(source: LineSource, cmd: string) returns (outcome: Outcome)
    requires source.Valid()
    modifies source
    ensures source.Valid()
    ensures outcome == Protocol(source.events, old(source.pos), cmd, [])
  {
    var output: seq<string> := [];
    ghost var from := source.pos;
    while true
      invariant source.Valid()
      invariant Protocol(source.events, from, cmd, []) == Protocol(source.events, source.pos, cmd, output)
      decreases |source.events| - source.pos
    {
      var line := source.GetLine();
      if line.None? {
        return TimedOut;
      }
      if Contains(line.value, MARKER) && Contains(line.value, cmd) {
        continue;
      }
      if Contains(line.value, MARKER) {
        var spl := Split(line.value, DONE);
        output := output + [spl[0]];
        if |spl| < 2 {
          return Malformed;
        }
        var code := ParseInt(spl[1]);
        if code.None? {
          return Malformed;
        }
        return Returned(code.value, Strip(Join("\n", output)));
      }
      output := output + [line.value];
    }
  }

  // ---- the round trip ----

  /** A line of the command's output, or the echo of the command that was typed. */
  predicate IsOutputOrEcho(line: string, cmd: string) {
    Contains(line, MARKER) ==> Contains(line, cmd)
  }

  /** What a line adds to the output: nothing when it is an echo. */
  function OwnOutput(line: string): seq<string> {
    if Contains(line, MARKER) then [] else [line]
  }

  function OutputLines(lines: seq<string>): seq<string> {
    if lines == [] then [] else OwnOutput(lines[0]) + OutputLines(lines[1..])
  }

  /** The lines arrive one after the other, without an expiry in between. */
  predicate Arrive(events: seq<Event>, from: nat, lines: seq<string>)
    decreases |lines|
  {
    lines == [] ||
    (from < |events| && events[from] == Line(lines[0], events[from].at) && Arrive(events, from + 1, lines[1..]))
  }

  lemma {:induction false} ArriveSplit(events: seq<Event>, from: nat, a: seq<string>, b: seq<string>)
    requires from <= |events| && Arrive(events, from, a + b)
    ensures Arrive(events, from, a) && from + |a| <= |events| && Arrive(events, from + |a|, b)
    decreases |a|
  {
    if a == [] {
      assert a + b == b;
    } else {
      assert (a + b)[1..] == a[1..] + b;
      ArriveSplit(events, from + 1, a[1..], b);
    }
  }

  predicate AllOutputOrEcho(lines: seq<string>, cmd: string) {
    forall i :: 0 <= i < |lines| ==> IsOutputOrEcho(lines[i], cmd)
  }

  lemma {:induction false} OutputIsCollected(
    events: seq<Event>, from: nat, lines: seq<string>, cmd: string, output: seq<string>)
    requires from + |lines| <= |events| && Arrive(events, from, lines) && AllOutputOrEcho(lines, cmd)
    ensures Protocol(events, from, cmd, output)
         == Protocol(events, from + |lines|, cmd, output + OutputLines(lines))
    decreases |lines|
  {
    if lines == [] {
      assert output + OutputLines(lines) == output;
    } else {
      var own, rest := OwnOutput(lines[0]), lines[1..];
      OneLineCollected(events, from, lines[0], cmd, output);
      RestIsOutputOrEcho(lines, cmd);
      OutputIsCollected(events, from + 1, rest, cmd, output + own);
      Regroup(output, own, OutputLines(rest));
    }
  }

  lemma RestIsOutputOrEcho(lines: seq<string>, cmd: string)
    requires lines != [] && AllOutputOrEcho(lines, cmd)
    ensures AllOutputOrEcho(lines[1..], cmd)
  {
    forall i | 0 <= i < |lines[1..]|
      ensures IsOutputOrEcho(lines[1..][i], cmd)
    {
      assert lines[1..][i] == lines[i + 1];
    }
  }

  lemma Regroup(a: seq<string>, b: seq<string>, c: seq<string>)
    ensures a + b + c == a + (b + c)
  {
  }

  lemma OneLineCollected(events: seq<Event>, from: nat, line: string, cmd: string, output: seq<string>)
    requires from < |events| && events[from] == Line(line, events[from].at) && IsOutputOrEcho(line, cmd)
    ensures Protocol(events, from, cmd, output)
         == Protocol(events, from + 1, cmd, output + OwnOutput(line))
  {
    assert output + [] == output;
  }

  /** The marker has no `X` but its first, so it cannot begin in the text before it. */
  lemma FindDone(p: string, rest: string)
    requires !Contains(p, MARKER)
    ensures Find(p + DONE + rest, DONE) == Some(|p|)
    ensures Contains(p + DONE + rest, MARKER)
  {
    var s := p + DONE + rest;
    assert s[|p|..|p| + |DONE|] == DONE;
    assert s[|p|..|p| + |MARKER|] == DONE[..|MARKER|];
    ContainsAt(s, MARKER, |p|);
    forall j: nat | j < |p|
      ensures !At(s, DONE, j)
    {
      if j + |MARKER| <= |p| {
        NoMarkerBefore(p, DONE + rest, j);
      } else {
        NoOverlap(p, rest, j);
      }
    }
    FindIs(s, DONE, |p|);
  }

  lemma NoMarkerBefore(p: string, rest: string, j: nat)
    requires !Contains(p, MARKER) && j + |MARKER| <= |p|
    ensures !At(p + rest, DONE, j)
  {
    var s := p + rest;
    assert !At(p, MARKER, j);
    assert s[j..j + |MARKER|] == p[j..j + |MARKER|];
    if j + |DONE| <= |s| {
      assert s[j..j + |DONE|][..|MARKER|] == s[j..j + |MARKER|];
      assert DONE[..|MARKER|] == MARKER;
    }
  }

  lemma NoOverlap(p: string, rest: string, j: nat)
    requires j < |p| < j + |MARKER|
    ensures !At(p + DONE + rest, DONE, j)
  {
    var s := p + DONE + rest;
    if j + |DONE| <= |s| {
      var k := |p| - j;
      assert s[j..j + |DONE|][k] == s[|p|] == 'X';
      assert DONE[k] != 'X';
    }
  }

  lemma DecimalIsOnePart(r: nat)
    ensures Split(Decimal(r), DONE) == [Decimal(r)]
  {
    var s := Decimal(r);
    forall i: nat | i + |DONE| <= |s|
      ensures !At(s, DONE, i)
    {
      assert s[i..i + |DONE|][0] == s[i] && IsDigit(s[i]);
    }
  }

  /** The last line: what the command printed without a line feed, the marker and the exit code. */
  function DoneLine(p: string, r: nat): string {
    p + DONE + Decimal(r)
  }

  lemma FinishDoneLine(p: string, r: nat, output: seq<string>)
    requires !Contains(p, MARKER)
    ensures Finish(DoneLine(p, r), output) == Returned(r, Strip(Join("\n", output + [p])))
  {
    var line := p + DONE + Decimal(r);
    FindDone(p, Decimal(r));
    DecimalIsOnePart(r);
    assert line[..|p|] == p && line[|p| + |DONE|..] == Decimal(r);
    assert Split(line, DONE) == [p] + Split(Decimal(r), DONE);
    ParseDecimal(r);
  }

  /**
    Output lines and echoes, then `p` with the marker and the exit code: the call returns that code
    and the stripped output exactly when the last line does not itself contain the command; when it
    does, the line is taken for an echo and reading goes on.
   */
  lemma RoundTrip(events: seq<Event>, lines: seq<string>, p: string, r: nat, cmd: string)
    requires |lines| < |events| && Arrive(events, 0, lines + [DoneLine(p, r)])
    requires AllOutputOrEcho(lines, cmd) && !Contains(p, MARKER)
    ensures Protocol(events, 0, cmd, [])
         == if Contains(DoneLine(p, r), cmd)
            then Protocol(events, |lines| + 1, cmd, OutputLines(lines))
            else Returned(r, Strip(Join("\n", OutputLines(lines) + [p])))
  {
    ArriveSplit(events, 0, lines, [DoneLine(p, r)]);
    var output := OutputLines(lines);
    assert Protocol(events, 0, cmd, []) == Protocol(events, |lines|, cmd, output) by {
      OutputIsCollected(events, 0, lines, cmd, []);
      assert [] + output == output;
    }
    DoneLineDecides(events, |lines|, p, r, cmd, output);
  }

  lemma DoneLineDecides(events: seq<Event>, n: nat, p: string, r: nat, cmd: string, output: seq<string>)
    requires n < |events| && Arrive(events, n, [DoneLine(p, r)])
    requires !Contains(p, MARKER)
    ensures Protocol(events, n, cmd, output)
         == if Contains(DoneLine(p, r), cmd) then Protocol(events, n + 1, cmd, output)
            else Returned(r, Strip(Join("\n", output + [p])))
  {
    FindDone(p, Decimal(r));
    FinishDoneLine(p, r, output);
  }

  /** A command that is part of the marker, the empty one included, is never seen to finish. */
  lemma {:induction false} MarkerPartNeverReturns(events: seq<Event>, from: nat, cmd: string, output: seq<string>)
    requires from <= |events| && Contains(MARKER, cmd)
    ensures Protocol(events, from, cmd, output) == TimedOut
    decreases |events| - from
  {
    if from < |events| && events[from].Line? {
      var line := events[from].text;
      if Contains(line, MARKER) {
        ContainsTransitive(line, MARKER, cmd);
        MarkerPartNeverReturns(events, from + 1, cmd, output);
      } else {
        MarkerPartNeverReturns(events, from + 1, cmd, output + [line]);
      }
    }
  }

  /** Some stream of lines lets the call return. */
  ghost predicate CanReturn(cmd: string) {
    exists events :: Protocol(events, 0, cmd, []).Returned?
  }

  /** A line from which a code can be read contains the marker with its equals sign. */
  lemma FinishNeedsDone(line: string, output: seq<string>)
    requires Finish(line, output).Returned?
    ensures Contains(line, DONE)
  {
    if Find(line, DONE).None? {
      assert Split(line, DONE) == [line];
    }
  }

  /** A command that is part of the marker and its equals sign is contained in every such line. */
  lemma {:induction false} DonePartNeverReturns(events: seq<Event>, from: nat, cmd: string, output: seq<string>)
    requires from <= |events| && Contains(DONE, cmd)
    ensures !Protocol(events, from, cmd, output).Returned?
    decreases |events| - from
  {
    if from < |events| && events[from].Line? {
      var line := events[from].text;
      if Contains(line, MARKER) && Contains(line, cmd) {
        DonePartNeverReturns(events, from + 1, cmd, output);
      } else if Contains(line, MARKER) {
        if Finish(line, output).Returned? {
          FinishNeedsDone(line, output);
          ContainsTransitive(line, DONE, cmd);
        }
      } else {
        DonePartNeverReturns(events, from + 1, cmd, output + [line]);
      }
    }
  }

  /** A part of the text with one more character that is no part of the text ends in that character. */
  lemma PartEndsInLast(s: string, c: char, sub: string)
    requires Contains(s + [c], sub) && !Contains(s, sub)
    ensures sub != "" && sub[|sub| - 1] == c
  {
    var i := Find(s + [c], sub).value;
    if i + |sub| <= |s| {
      assert (s + [c])[i..i + |sub|] == s[i..i + |sub|];
      ContainsAt(s, sub, i);
    } else {
      assert sub == (s + [c])[i..];
    }
  }

  /** The bare line with a one-digit code. */
  lemma OneLineReturns(cmd: string, r: nat)
    requires !Contains(DoneLine("", r), cmd)
    ensures CanReturn(cmd)
  {
    var events := [Line(DoneLine("", r), 0)];
    assert forall i: nat :: !At("", MARKER, i);
    assert Arrive(events, 0, [DoneLine("", r)]) by {
      assert [DoneLine("", r)][1..] == [];
    }
    DoneLineDecides(events, 0, "", r, cmd, []);
    assert Protocol(events, 0, cmd, []).Returned?;
  }

  /** No stream of lines makes the call return exactly when the command is part of the marker with its equals sign. */
  lemma ReturnsExactly(cmd: string)
    ensures CanReturn(cmd) <==> !Contains(DONE, cmd)
  {
    if Contains(DONE, cmd) {
      forall events
        ensures !Protocol(events, 0, cmd, []).Returned?
      {
        DonePartNeverReturns(events, 0, cmd, []);
      }
    } else {
      assert DoneLine("", 0) == DONE + ['0'] && DoneLine("", 1) == DONE + ['1'];
      if Contains(DoneLine("", 0), cmd) {
        PartEndsInLast(DONE, '0', cmd);
        if Contains(DoneLine("", 1), cmd) {
          PartEndsInLast(DONE, '1', cmd);
        }
        OneLineReturns(cmd, 1);
      } else {
        OneLineReturns(cmd, 0);
      }
    }
  }

  // ---- every outcome ----

  /** A line that ends the call: it has the marker, and is not taken for an echo. */
  predicate Ends(line: string, cmd: string) {
    Contains(line, "XTF_DONE") && !Contains(line, cmd)
  }

  /** The texts of some events that are lines. */
  function TextsOf(events: seq<Event>, from: nat, end: nat): seq<string>
    requires from <= end <= |events| && AllLines(events, from, end)
  {
    seq(end - from, i requires 0 <= i < end - from => events[from + i].text)
  }

  lemma OneTextMore(events: seq<Event>, from: nat, k: nat, output: seq<string>)
    requires from < k <= |events| && AllLines(events, from, k)
    ensures output + OutputLines(TextsOf(events, from, k))
         == output + OwnOutput(events[from].text) + OutputLines(TextsOf(events, from + 1, k))
  {
    assert TextsOf(events, from, k)[1..] == TextsOf(events, from + 1, k);
    Regroup(output, OwnOutput(events[from].text), OutputLines(TextsOf(events, from + 1, k)));
  }

  /**
    The first line with the marker that does not contain the command decides, whatever follows the
    marker in it; the output is what came before it without the echoes.
   */
  lemma {:induction false} FirstEndDecides(events: seq<Event>, from: nat, k: nat, cmd: string, output: seq<string>)
    requires from <= k < |events| && AllLines(events, from, k + 1) && Ends(events[k].text, cmd)
    requires forall j :: from <= j < k ==> !Ends(events[j].text, cmd)
    ensures Protocol(events, from, cmd, output)
         == Finish(events[k].text, output + OutputLines(TextsOf(events, from, k)))
    decreases k - from
  {
    assert events[from].Line?;
    if from == k {
      assert output + OutputLines(TextsOf(events, from, k)) == output;
    } else {
      var line := events[from].text;
      OneLineCollected(events, from, line, cmd, output);
      FirstEndDecides(events, from + 1, k, cmd, output + OwnOutput(line));
      OneTextMore(events, from, k, output);
    }
  }

  /** The call times out exactly when no such line arrives before the wait expires. */
  lemma {:induction false} TimesOutExactly(events: seq<Event>, from: nat, cmd: string, output: seq<string>)
    requires from <= |events|
    ensures Protocol(events, from, cmd, output) == TimedOut
       <==> forall j :: from <= j < Deadline(events, from) ==> !Ends(events[j].text, cmd)
    decreases |events| - from
  {
    if from < |events| && events[from].Line? {
      var line := events[from].text;
      assert Deadline(events, from) == Deadline(events, from + 1);
      if Contains(line, MARKER) && Contains(line, cmd) {
        TimesOutExactly(events, from + 1, cmd, output);
      } else if !Contains(line, MARKER) {
        TimesOutExactly(events, from + 1, cmd, output + [line]);
      } else {
        assert Ends(events[from].text, cmd);
      }
    }
  }

  /** `s.partition(sep)[0]` */
  function UpTo(s: string, sep: string): string {
    match Find(s, sep) case Some(i) => s[..i] case None => s
  }

  /**
    What the deciding line gives: the number between `XTF_DONE=` and the next one, if any, and an
    exception when there is no `XTF_DONE=`, or no number behind it.
   */
  lemma FinishExactly(line: string, output: seq<string>)
    ensures Finish(line, output)
         == match Find(line, "XTF_DONE=")
            case None => Malformed
            case Some(i) =>
              match ParseInt(UpTo(line[i + 9..], "XTF_DONE="))
              case Some(code) => Returned(code, Strip(Join("\n", output + [line[..i]])))
              case None => Malformed
  {
    match Find(line, DONE) {
      case None => assert Split(line, DONE) == [line];
      case Some(i) =>
        var tail := line[i + 9..];
        assert Split(line, DONE) == [line[..i]] + Split(tail, DONE);
        FirstPart(tail, DONE);
    }
  }

  lemma FirstPart(s: string, sep: string)
    requires sep != ""
    ensures Split(s, sep)[0] == UpTo(s, sep)
  {
  }

  /** The line that the terminal echoes when the command is written. */
  function EchoLine(cmd: string): string {
    cmd + " ; echo XTF_DONE=$?"
  }

  lemma EchoIsSkipped(cmd: string)
    ensures !Ends(EchoLine(cmd), cmd) && OwnOutput(EchoLine(cmd)) == []
  {
    var line := EchoLine(cmd);
    assert line[..|cmd|] == cmd;
    ContainsAt(line, cmd, 0);
    assert line[|cmd| + 8..|cmd| + 16] == "XTF_DONE";
    ContainsAt(line, MARKER, |cmd| + 8);
  }

  lemma {:induction false} PlainOutput(lines: seq<string>)
    requires forall i :: 0 <= i < |lines| ==> !Contains(lines[i], "XTF_DONE")
    ensures OutputLines(lines) == lines
  {
    if lines != [] {
      forall i | 0 <= i < |lines[1..]|
        ensures !Contains(lines[1..][i], "XTF_DONE")
      {
        assert lines[1..][i] == lines[i + 1];
      }
      PlainOutput(lines[1..]);
      assert lines == [lines[0]] + lines[1..];
    }
  }

  /** The usual run: the echo, lines of output, and the line with the code. */
  lemma UsualRun(events: seq<Event>, echo: string, lines: seq<string>, last: string, p: string, r: nat, cmd: string)
    requires echo == EchoLine(cmd) && last == p + "XTF_DONE=" + Decimal(r)
    requires |lines| + 1 < |events| && Arrive(events, 0, [echo] + lines + [last])
    requires forall i :: 0 <= i < |lines| ==> !Contains(lines[i], "XTF_DONE")
    requires !Contains(p, "XTF_DONE") && !Contains(last, cmd)
    ensures Protocol(events, 0, cmd, []) == Returned(r, Strip(Join("\n", lines + [p])))
  {
    var all := [echo] + lines;
    EchoIsSkipped(cmd);
    AfterEcho(echo, lines, cmd);
    assert last == DoneLine(p, r);
    RoundTrip(events, all, p, r, cmd);
  }

  lemma AfterEcho(echo: string, lines: seq<string>, cmd: string)
    requires !Ends(echo, cmd) && OwnOutput(echo) == []
    requires forall i :: 0 <= i < |lines| ==> !Contains(lines[i], "XTF_DONE")
    ensures AllOutputOrEcho([echo] + lines, cmd) && OutputLines([echo] + lines) == lines
  {
    PlainOutput(lines);
    assert ([echo] + lines)[1..] == lines;
  }
}
