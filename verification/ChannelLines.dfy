/**
  Incremental line splitting: `_iter_channel_lines_from_bytes` of score/itf/core/com/ssh.py
  against one-shot `str.splitlines(keepends=True)`.
 */
module ChannelLines {
  import opened Text
  import opened Utf8

  /** The line boundaries of `str.splitlines`. */
  predicate IsBreak(c: char) {
    var v := c as int;
    0x0A <= v <= 0x0D || 0x1C <= v <= 0x1E || v == 0x85 || v == 0x2028 || v == 0x2029
  }

  const BREAKS := "\n\U{0B}\U{0C}\r\U{1C}\U{1D}\U{1E}\U{85}\U{2028}\U{2029}"

  lemma BreakIsListed(c: char)
    ensures IsBreak(c) <==> c in BREAKS
  {
  }

  /** Length of the first line with its terminator; `\r\n` is one terminator. */
  function LineLength(s: string): (n: nat)
    requires s != ""
    ensures 1 <= n <= |s|
  {
    if s[0] == '\r' && |s| > 1 && s[1] == '\n' then 2
    else if IsBreak(s[0]) || |s| == 1 then 1
    else 1 + LineLength(s[1..])
  }

  /** `s.splitlines(keepends=True)` */
  function SplitLines(s: string): seq<string>
    decreases |s|
  {
    if s == "" then [] else [s[..LineLength(s)]] + SplitLines(s[LineLength(s)..])
  }

  // ---- what a split into lines is ----

  predicate NoBreak(s: string) {
    forall i :: 0 <= i < |s| ==> !IsBreak(s[i])
  }

  /** A text without breaks, followed by one terminator. */
  predicate IsTerminated(l: string) {
    || (|l| >= 1 && IsBreak(l[|l| - 1]) && NoBreak(l[..|l| - 1]))
    || (|l| >= 2 && l[|l| - 2] == '\r' && l[|l| - 1] == '\n' && NoBreak(l[..|l| - 2]))
  }

  /** Every line is terminated, except possibly the last, and no terminator is cut in two. */
  predicate AreLines(ls: seq<string>) {
    && (forall i :: 0 <= i < |ls| ==> ls[i] != "")
    && (forall i :: 0 <= i < |ls| - 1 ==> IsTerminated(ls[i]))
    && (ls != [] ==> IsTerminated(ls[|ls| - 1]) || NoBreak(ls[|ls| - 1]))
    && (forall i :: 0 <= i < |ls| - 1 ==> !(ls[i][|ls[i]| - 1] == '\r' && ls[i + 1][0] == '\n'))
  }

  lemma {:induction false} LineLengthMeaning(s: string)
    requires s != ""
    ensures var n := LineLength(s);
            && (IsTerminated(s[..n]) || (n == |s| && NoBreak(s)))
            && (n < |s| ==> !(s[n - 1] == '\r' && s[n] == '\n'))
  {
    var n := LineLength(s);
    if !IsBreak(s[0]) && |s| > 1 {
      LineLengthMeaning(s[1..]);
      assert s[1..][..n - 1] == s[..n][1..];
      var l, t := s[..n], s[1..n];
      assert l[1..] == t;
      if IsTerminated(t) {
        if IsBreak(t[|t| - 1]) && NoBreak(t[..|t| - 1]) {
          assert NoBreak(l[..|l| - 1]) by { assert l[..|l| - 1][1..] == t[..|t| - 1]; ConsNoBreak(l[..|l| - 1]); }
        } else {
          assert NoBreak(l[..|l| - 2]) by { assert l[..|l| - 2][1..] == t[..|t| - 2]; ConsNoBreak(l[..|l| - 2]); }
        }
      } else {
        ConsNoBreak(s);
      }
    }
  }

  lemma ConsNoBreak(s: string)
    requires s != "" && !IsBreak(s[0]) && NoBreak(s[1..])
    ensures NoBreak(s)
  {
    forall i | 0 <= i < |s|
      ensures !IsBreak(s[i])
    {
      assert i > 0 ==> s[i] == s[1..][i - 1];
    }
  }

  /** The first line of a text that starts with a given line. */
  lemma {:induction false} LineLengthOfLine(l: string, rest: string)
    requires l != ""
    requires IsTerminated(l) || (rest == "" && NoBreak(l))
    requires rest != "" ==> !(l[|l| - 1] == '\r' && rest[0] == '\n')
    ensures LineLength(l + rest) == |l|
    decreases |l|
  {
    var s := l + rest;
    if |l| == 1 {
    } else if |l| == 2 && l[0] == '\r' && l[1] == '\n' {
    } else {
      assert !IsBreak(l[0]) by {
        if IsBreak(l[|l| - 1]) && NoBreak(l[..|l| - 1]) {
          assert l[..|l| - 1][0] == l[0];
        } else if IsTerminated(l) {
          assert l[..|l| - 2][0] == l[0];
        }
      }
      var t := l[1..];
      assert IsTerminated(t) || (rest == "" && NoBreak(t)) by {
        if IsBreak(l[|l| - 1]) && NoBreak(l[..|l| - 1]) {
          assert t[..|t| - 1] == l[..|l| - 1][1..];
        } else if IsTerminated(l) {
          assert t[..|t| - 2] == l[..|l| - 2][1..];
        }
      }
      LineLengthOfLine(t, rest);
      assert s[1..] == t + rest;
    }
  }

  /** `splitlines` is the only way to cut a text into lines. */
  lemma {:induction false} SplitLinesUnique(ls: seq<string>)
    requires AreLines(ls)
    ensures SplitLines(Flatten(ls)) == ls
  {
    if ls != [] {
      var l, rest := ls[0], Flatten(ls[1..]);
      LinesTail(ls);
      LineLengthOfLine(l, rest);
      assert (l + rest)[..|l|] == l && (l + rest)[|l|..] == rest;
      SplitLinesUnique(ls[1..]);
    }
  }

  lemma LinesTail(ls: seq<string>)
    requires AreLines(ls) && ls != []
    ensures AreLines(ls[1..])
    ensures var l, rest := ls[0], Flatten(ls[1..]);
            && l != "" && (IsTerminated(l) || (rest == "" && NoBreak(l)))
            && (rest != "" ==> !(l[|l| - 1] == '\r' && rest[0] == '\n'))
  {
    var rest := ls[1..];
    assert forall i :: 0 <= i < |rest| ==> rest[i] == ls[i + 1];
    if rest != [] {
      assert Flatten(rest) == rest[0] + Flatten(rest[1..]);
    }
  }

  lemma LinesCons(l: string, rest: string, tail: seq<string>)
    requires l != "" && AreLines(tail) && Flatten(tail) == rest
    requires IsTerminated(l) || (rest == "" && NoBreak(l))
    requires rest != "" ==> !(l[|l| - 1] == '\r' && rest[0] == '\n')
    ensures AreLines([l] + tail) && Flatten([l] + tail) == l + rest
  {
    var ls := [l] + tail;
    assert ls[1..] == tail;
    if tail != [] {
      assert rest == tail[0] + Flatten(tail[1..]);
    }
    assert forall i :: 0 < i < |ls| ==> ls[i] == tail[i - 1];
  }

  lemma FirstLineFits(s: string)
    requires s != ""
    ensures var l, rest := s[..LineLength(s)], s[LineLength(s)..];
            && l != "" && l + rest == s
            && (IsTerminated(l) || (rest == "" && NoBreak(l)))
            && (rest != "" ==> !(l[|l| - 1] == '\r' && rest[0] == '\n'))
  {
    LineLengthMeaning(s);
    var n := LineLength(s);
    assert n == |s| ==> s[..n] == s;
  }

  lemma {:induction false} SplitLinesMeaning(s: string)
    ensures AreLines(SplitLines(s)) && Flatten(SplitLines(s)) == s
    decreases |s|
  {
    if s != "" {
      var l, rest := s[..LineLength(s)], s[LineLength(s)..];
      FirstLineFits(s);
      SplitLinesMeaning(rest);
      LinesCons(l, rest, SplitLines(rest));
      assert SplitLines(s) == [l] + SplitLines(rest);
    }
  }

  // ---- splitting a text that grows ----

  lemma {:induction false} LineLengthStable(a: string, b: string)
    requires a != "" && LineLength(a) < |a|
    ensures LineLength(a + b) == LineLength(a)
  {
    if !IsBreak(a[0]) {
      assert (a + b)[1..] == a[1..] + b;
      LineLengthStable(a[1..], b);
    }
  }

  lemma OneLine(a: string)
    requires a != "" && LineLength(a) == |a|
    ensures SplitLines(a) == [a]
  {
    assert a[|a|..] == "" && a[..|a|] == a;
    assert SplitLines(a) == [a] + SplitLines("");
  }

  lemma NewlineEndsLine(a: string, b: string)
    requires a != "" && LineLength(a) == |a| && a[|a| - 1] == '\n'
    ensures SplitLines(a + b) == [a] + SplitLines(b)
  {
    LineLengthMeaning(a);
    assert a[..|a|] == a;
    assert IsBreak(a[|a| - 1]);
    LineLengthOfLine(a, b);
    assert (a + b)[..|a|] == a && (a + b)[|a|..] == b;
  }

  lemma OneLineAppend(a: string, b: string)
    requires a != "" && LineLength(a) == |a|
    ensures SplitLines(a) == [a] && SplitLines(a + b) == [a][..0] + SplitLines(a + b)
    ensures a[|a| - 1] == '\n' ==> SplitLines(a + b) == [a] + SplitLines(b)
  {
    OneLine(a);
    assert [a][..0] + SplitLines(a + b) == SplitLines(a + b);
    if a[|a| - 1] == '\n' {
      NewlineEndsLine(a, b);
    }
  }

  /** Only the last line of a text can change when more text follows, and only if it does not end in `\n`. */
  lemma {:induction false} SplitLinesAppend(a: string, b: string)
    requires a != ""
    ensures var ls := SplitLines(a); var last := ls[|ls| - 1];
            && last != ""
            && SplitLines(a + b) == ls[..|ls| - 1] + SplitLines(last + b)
            && (last[|last| - 1] == '\n' ==> SplitLines(a + b) == ls + SplitLines(b))
    decreases |a|
  {
    var n := LineLength(a);
    if n == |a| {
      OneLineAppend(a, b);
    } else {
      var l, rest := a[..n], a[n..];
      LineLengthStable(a, b);
      assert (a + b)[..n] == l && (a + b)[n..] == rest + b;
      SplitLinesAppend(rest, b);
      SplitAfterFirst(l, SplitLines(rest), SplitLines(rest)[|SplitLines(rest)| - 1], b);
    }
  }

  lemma SplitAfterFirst(l: string, tail: seq<string>, last: string, b: string)
    requires tail != []
    ensures ([l] + tail)[..|tail|] == [l] + tail[..|tail| - 1]
    ensures ([l] + tail)[..|tail|] + SplitLines(last + b) == [l] + (tail[..|tail| - 1] + SplitLines(last + b))
    ensures [l] + tail + SplitLines(b) == [l] + (tail + SplitLines(b))
  {
  }

  // ---- the incremental splitter ----

  /** The complete lines so far and the text held back. */
  datatype Lines = Lines(lines: seq<string>, partial: string)

  predicate EndsInNewline(s: string) {
    s != "" && s[|s| - 1] == '\n'
  }

  /** The body of `_iter_channel_lines_from_bytes` after decoding. */
  function HoldBack(text: string): Lines {
    PopPartial(SplitLines(text))
  }

  /** `lines.pop()`, unless the last line ends in a line feed. */
  function PopPartial(lines: seq<string>): Lines {
    if lines != [] && !EndsInNewline(lines[|lines| - 1])
    then Lines(lines[..|lines| - 1], lines[|lines| - 1])
    else Lines(lines, "")
  }

  lemma PopAppend(a: seq<string>, more: seq<string>)
    requires more != []
    ensures PopPartial(a + more) == Lines(a + PopPartial(more).lines, PopPartial(more).partial)
  {
    assert (a + more)[..|a + more| - 1] == a + more[..|more| - 1];
  }

  /** `_iter_channel_lines_from_bytes(data, partial)` */
  function IterChannelLines(data: seq<Byte>, partial: string): Lines {
    HoldBack(partial + Decode(data))
  }

  /** The caller's side: append the complete lines and keep the partial. */
  function Feed(acc: Lines, text: string): Lines {
    var next := HoldBack(acc.partial + text);
    Lines(acc.lines + next.lines, next.partial)
  }

  function FeedAll(chunks: seq<string>): Lines {
    if chunks == [] then Lines([], "")
    else Feed(FeedAll(chunks[..|chunks| - 1]), chunks[|chunks| - 1])
  }

  /** Appending what is held back, as both exits of the read loop do. */
  function Flush(acc: Lines): seq<string> {
    if acc.partial == "" then acc.lines else acc.lines + [acc.partial]
  }

  lemma {:induction false} LastLineNotEmpty(s: string)
    requires s != ""
    ensures var ls := SplitLines(s); ls != [] && ls[|ls| - 1] != ""
    decreases |s|
  {
    var l, rest := s[..LineLength(s)], s[LineLength(s)..];
    assert SplitLines(s) == [l] + SplitLines(rest);
    if rest != "" {
      LastLineNotEmpty(rest);
    } else {
      assert SplitLines(rest) == [];
    }
  }

  /** Popping the last line to hold it back, and appending it again, loses nothing. */
  lemma FlushHoldBack(text: string)
    ensures Flush(HoldBack(text)) == SplitLines(text)
  {
    var ls := SplitLines(text);
    if text != "" {
      LastLineNotEmpty(text);
      FlushPopped(ls);
    }
  }

  lemma FlushPopped(ls: seq<string>)
    requires ls != [] && ls[|ls| - 1] != ""
    ensures Flush(Lines(ls[..|ls| - 1], ls[|ls| - 1])) == ls
    ensures Flush(Lines(ls, "")) == ls
  {
  }

  /** What is held back is at most one line, and never ends in a line feed. */
  lemma PartialIsOneLine(text: string)
    ensures HoldBack(text).partial == "" || SplitLines(HoldBack(text).partial) == [HoldBack(text).partial]
    ensures !EndsInNewline(HoldBack(text).partial)
  {
    var ls := SplitLines(text);
    if ls != [] {
      SplitLinesMeaning(text);
      LastLineAlone(ls);
    }
  }

  lemma LastLineAlone(ls: seq<string>)
    requires ls != [] && AreLines(ls)
    ensures SplitLines(ls[|ls| - 1]) == [ls[|ls| - 1]]
  {
    var last := ls[|ls| - 1];
    assert AreLines([last]);
    SplitLinesUnique([last]);
    assert [last][1..] == [];
    assert Flatten([last]) == last + [] == last;
  }

  /** The lines handed out stay, and the rest of the text is split from what is held back. */
  lemma HoldBackAppend(a: string, b: string)
    ensures SplitLines(a + b) == HoldBack(a).lines + SplitLines(HoldBack(a).partial + b)
  {
    if a == "" {
      assert a + b == b && HoldBack(a).partial + b == b;
    } else {
      SplitLinesAppend(a, b);
      assert "" + b == b;
    }
  }

  lemma FeedHoldBack(a: string, b: string)
    ensures Feed(HoldBack(a), b) == HoldBack(a + b)
  {
    var h := HoldBack(a);
    HoldBackAppend(a, b);
    var more := SplitLines(h.partial + b);
    if more != [] {
      PopAppend(h.lines, more);
    } else {
      assert h.partial + b == "" && a + b == a;
      assert h.lines + [] == h.lines;
    }
  }

  /** However a text is cut into chunks, the splitter ends in the state that the whole text gives at once. */
  lemma {:induction false} ChunkingIndependence(chunks: seq<string>)
    ensures FeedAll(chunks) == HoldBack(Flatten(chunks))
  {
    if chunks != [] {
      var before, last := chunks[..|chunks| - 1], chunks[|chunks| - 1];
      assert before + [last] == chunks;
      FlattenSnoc(before, last);
      ChunkingIndependence(before);
      FeedLast(before, last);
    }
  }

  lemma FeedLast(before: seq<string>, last: string)
    requires FeedAll(before) == HoldBack(Flatten(before))
    ensures FeedAll(before + [last]) == HoldBack(Flatten(before) + last)
  {
    var all := before + [last];
    assert all[..|all| - 1] == before && all[|all| - 1] == last;
    FeedHoldBack(Flatten(before), last);
  }

  /** Flushing at the end gives one-shot `splitlines` of the whole text. */
  lemma FlushedLines(chunks: seq<string>)
    ensures Flush(FeedAll(chunks)) == SplitLines(Flatten(chunks))
  {
    ChunkingIndependence(chunks);
    FlushHoldBack(Flatten(chunks));
  }
}
