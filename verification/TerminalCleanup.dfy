/** `try_to_decode` of score/itf/core/process/console.py: cleaning a line read from a terminal. */
module TerminalCleanup {
  import opened Utf8

  const LF: Byte := 10
  const CR: Byte := 13
  const ESC: Byte := 27

  /** `re.sub(b"\r[^\n]", b"", data)`: left to right, without overlaps. */
  function RemoveCr(b: seq<Byte>): seq<Byte>
    decreases |b|
  {
    if b == [] then []
    else if b[0] == CR && |b| > 1 && b[1] != LF then RemoveCr(b[2..])
    else [b[0]] + RemoveCr(b[1..])
  }

  /** Length of the longest prefix of digits and semicolons. */
  function ParameterLength(b: seq<Byte>): (n: nat)
    ensures n <= |b|
    ensures forall i :: 0 <= i < n ==> 48 <= b[i] <= 57 || b[i] == 59
    ensures n < |b| ==> !(48 <= b[n] <= 57 || b[n] == 59)
  {
    if b != [] && (48 <= b[0] <= 57 || b[0] == 59) then 1 + ParameterLength(b[1..]) else 0
  }

  /** Length of a match of `\033\[\?[0-9;]*[hl]` at the start; zero when there is none. */
  function PrivateModeLength(b: seq<Byte>): (n: nat)
    ensures n <= |b|
    ensures n > 0 ==> b[0] == ESC && forall i :: 0 <= i < n ==> b[i] != CR && b[i] != LF
  {
    if |b| < 4 || b[0] != ESC || b[1] != 91 || b[2] != 63 then 0
    else
      var n := ParameterLength(b[3..]);
      assert forall i :: 3 <= i < 3 + n ==> b[i] == b[3..][i - 3];
      if 3 + n < |b| && (b[3 + n] == 104 || b[3 + n] == 108) then n + 4 else 0
  }

  /** `re.sub(b"\033\\[\\?[0-9;]*[hl]", b"", data)` */
  function RemovePrivateModes(b: seq<Byte>): seq<Byte>
    decreases |b|
  {
    if b == [] then []
    else if PrivateModeLength(b) > 0 then RemovePrivateModes(b[PrivateModeLength(b)..])
    else [b[0]] + RemovePrivateModes(b[1..])
  }

  /** `data.decode("ascii", "replace")` */
  function DecodeAscii(b: seq<Byte>): (s: string)
    ensures |s| == |b|
  {
    seq(|b|, i requires 0 <= i < |b| => if b[i] < 128 then b[i] as char else REPLACEMENT)
  }

  function RStrip(s: string, c: char): (r: string)
    ensures r <= s && (r != "" ==> r[|r| - 1] != c)
    ensures forall i :: |r| <= i < |s| ==> s[i] == c
  {
    if s != "" && s[|s| - 1] == c then RStrip(s[..|s| - 1], c) else s
  }

  function TryToDecode(data: seq<Byte>): string {
    RStrip(RStrip(DecodeAscii(RemovePrivateModes(RemoveCr(data))), '\n'), '\r')
  }

  // ---- carriage returns ----

  /** Every carriage return is followed by a line feed or is the last byte. */
  predicate CrBeforeLf(b: seq<Byte>) {
    forall i :: 0 <= i < |b| - 1 && b[i] == CR ==> b[i + 1] == LF
  }

  lemma CrBeforeLfCons(x: Byte, b: seq<Byte>)
    ensures CrBeforeLf([x] + b) <==> CrBeforeLf(b) && (x == CR && b != [] ==> b[0] == LF)
  {
    var s := [x] + b;
    assert forall i :: 0 < i < |s| ==> s[i] == b[i - 1];
    if CrBeforeLf(s) {
      assert x == CR && b != [] ==> s[0] == CR && s[0 + 1] == LF;
      forall i | 0 <= i < |b| - 1 && b[i] == CR
        ensures b[i + 1] == LF
      {
        assert s[i + 1] == CR && s[i + 1 + 1] == LF;
      }
    }
  }

  lemma {:induction false} RemoveCrCleans(b: seq<Byte>)
    ensures CrBeforeLf(RemoveCr(b))
    decreases |b|
  {
    if b != [] {
      if b[0] == CR && |b| > 1 && b[1] != LF {
        RemoveCrCleans(b[2..]);
      } else {
        RemoveCrCleans(b[1..]);
        CrBeforeLfCons(b[0], RemoveCr(b[1..]));
      }
    }
  }

  /** The first pass changes exactly the texts with a stray carriage return; doing it twice is doing it once. */
  lemma RemoveCrIdempotent(b: seq<Byte>)
    ensures RemoveCr(b) == b <==> CrBeforeLf(b)
    ensures RemoveCr(RemoveCr(b)) == RemoveCr(b)
  {
    RemoveCrCleans(b);
    RemoveCrKeeps(RemoveCr(b));
    if CrBeforeLf(b) {
      RemoveCrKeeps(b);
    }
  }

  lemma {:induction false} RemoveCrKeeps(b: seq<Byte>)
    requires CrBeforeLf(b)
    ensures RemoveCr(b) == b
    decreases |b|
  {
    if b != [] {
      assert [b[0]] + b[1..] == b;
      CrBeforeLfCons(b[0], b[1..]);
      RemoveCrKeeps(b[1..]);
    }
  }

  lemma {:induction false} RemoveCrSkips(a: seq<Byte>, rest: seq<Byte>)
    requires CR !in a
    ensures RemoveCr(a + rest) == a + RemoveCr(rest)
    decreases |a|
  {
    if a == [] {
      assert a + rest == rest;
    } else {
      assert a[0] in a && (a + rest)[1..] == a[1..] + rest;
      RemoveCrSkips(a[1..], rest);
      assert [a[0]] + (a[1..] + RemoveCr(rest)) == a + RemoveCr(rest);
    }
  }

  /**
    What the first pass does at the first carriage return: together with the byte behind it it is
    gone, unless that is a line feed, or there is none.
   */
  lemma RemoveCrFirst(a: seq<Byte>, x: Byte, rest: seq<Byte>)
    requires CR !in a
    ensures x != LF ==> RemoveCr(a + ([CR, x] + rest)) == a + RemoveCr(rest)
    ensures RemoveCr(a + ([CR, LF] + rest)) == a + ([CR, LF] + RemoveCr(rest))
    ensures RemoveCr(a + [CR]) == a + [CR]
  {
    RemoveCrSkips(a, [CR, x] + rest);
    RemoveCrSkips(a, [CR, LF] + rest);
    RemoveCrSkips(a, [CR]);
    if x != LF {
      PairGoes(x, rest);
    }
    LineEndStays(rest);
    assert [CR][1..] == [] && RemoveCr([CR]) == [CR] + [];
  }

  lemma PairGoes(x: Byte, rest: seq<Byte>)
    requires x != LF
    ensures RemoveCr([CR, x] + rest) == RemoveCr(rest)
  {
    assert ([CR, x] + rest)[2..] == rest;
  }

  lemma LineEndStays(rest: seq<Byte>)
    ensures RemoveCr([CR, LF] + rest) == [CR, LF] + RemoveCr(rest)
  {
    var b, c := [CR, LF] + rest, [LF] + rest;
    assert b[1..] == c && c[1..] == rest;
    assert RemoveCr(c) == [LF] + RemoveCr(rest);
    assert RemoveCr(b) == [CR] + RemoveCr(c);
  }

  // ---- escape sequences ----

  /** An escape, `[?`, digits and semicolons, and `h` or `l`. */
  predicate IsPrivateMode(m: seq<Byte>) {
    && |m| >= 4 && m[..3] == [0x1B, 0x5B, 0x3F]
    && (m[|m| - 1] == 0x68 || m[|m| - 1] == 0x6C)
    && forall i :: 3 <= i < |m| - 1 ==> 0x30 <= m[i] <= 0x39 || m[i] == 0x3B
  }

  /** The match at the start is the only prefix of this form, and is found if there is one. */
  lemma PrivateModeIs(b: seq<Byte>, k: nat)
    requires k <= |b|
    ensures PrivateModeLength(b) > 0 ==> IsPrivateMode(b[..PrivateModeLength(b)])
    ensures IsPrivateMode(b[..k]) ==> PrivateModeLength(b) == k
  {
    if |b| >= 4 && b[..3] == [0x1B, 0x5B, 0x3F] {
      var n := ParameterLength(b[3..]);
      assert b[0] == b[..3][0] && b[1] == b[..3][1] && b[2] == b[..3][2];
      assert forall i :: 3 <= i < 3 + n ==> b[i] == b[3..][i - 3];
      assert 3 + n < |b| ==> b[3 + n] == b[3..][n];
      if IsPrivateMode(b[..k]) {
        assert b[..k][k - 1] == b[k - 1];
        assert forall i :: 3 <= i < k - 1 ==> b[..k][i] == b[i];
        assert 3 + n == k - 1;
      }
    } else if k >= 3 {
      assert b[..k][..3] == b[..3];
    }
  }

  /** Such a sequence is removed as a whole, and everything else stays where it is. */
  lemma ModesRemoved(m: seq<Byte>, x: Byte, rest: seq<Byte>)
    ensures IsPrivateMode(m) ==> RemovePrivateModes(m + rest) == RemovePrivateModes(rest)
    ensures (forall k :: 0 <= k <= |rest| + 1 ==> !IsPrivateMode(([x] + rest)[..k])) ==>
              RemovePrivateModes([x] + rest) == [x] + RemovePrivateModes(rest)
  {
    if IsPrivateMode(m) {
      assert (m + rest)[..|m|] == m && (m + rest)[|m|..] == rest;
      PrivateModeIs(m + rest, |m|);
    }
    PrivateModeIs([x] + rest, 0);
    assert ([x] + rest)[1..] == rest;
  }

  /** Removing escape sequences cannot separate a carriage return from its line feed. */
  lemma {:induction false} PrivateModesKeepCr(b: seq<Byte>)
    requires CrBeforeLf(b)
    ensures CrBeforeLf(RemovePrivateModes(b))
    decreases |b|
  {
    if b != [] {
      var n := PrivateModeLength(b);
      if n > 0 {
        assert CrBeforeLf(b[n..]) by {
          forall i | 0 <= i < |b[n..]| - 1 && b[n..][i] == CR
            ensures b[n..][i + 1] == LF
          {
            assert b[n + i] == CR;
          }
        }
        PrivateModesKeepCr(b[n..]);
      } else {
        assert [b[0]] + b[1..] == b;
        CrBeforeLfCons(b[0], b[1..]);
        PrivateModesKeepCr(b[1..]);
        if b[0] == CR && |b| > 1 {
          assert b[1..][0] == LF && PrivateModeLength(b[1..]) == 0;
        }
        CrBeforeLfCons(b[0], RemovePrivateModes(b[1..]));
      }
    }
  }

  /** In the cleaned text every carriage return is immediately followed by a line feed. */
  lemma CleanText(data: seq<Byte>)
    ensures var s := TryToDecode(data);
            forall i :: 0 <= i < |s| && s[i] == '\r' ==> i + 1 < |s| && s[i + 1] == '\n'
  {
    var b := RemovePrivateModes(RemoveCr(data));
    RemoveCrCleans(data);
    PrivateModesKeepCr(RemoveCr(data));
    var t := DecodeAscii(b);
    var u := RStrip(t, '\n');
    var s := RStrip(u, '\r');
    forall i | 0 <= i < |s| && s[i] == '\r'
      ensures i + 1 < |s| && s[i + 1] == '\n'
    {
      assert t[i] == '\r' && b[i] == CR;
      assert i + 1 < |s|;
      assert b[i + 1] == LF && s[i + 1] == t[i + 1];
    }
  }

  /** Bytes without carriage returns and escapes only lose their final line feeds; what is not ASCII is replaced. */
  lemma PlainText(data: seq<Byte>)
    requires CR !in data && ESC !in data
    ensures TryToDecode(data) == RStrip(DecodeAscii(data), '\n')
    ensures forall i :: 0 <= i < |TryToDecode(data)| ==>
              TryToDecode(data)[i] == if data[i] < 0x80 then data[i] as char else '\U{FFFD}'
    ensures forall i :: |TryToDecode(data)| <= i < |data| ==> data[i] == LF
  {
    assert CrBeforeLf(data) by {
      assert forall i :: 0 <= i < |data| ==> data[i] in data;
    }
    RemoveCrKeeps(data);
    NothingToRemove(data);
    NothingToStrip(DecodeAscii(data), data);
    PlainCharacters(data);
  }

  lemma PlainCharacters(data: seq<Byte>)
    ensures var s := RStrip(DecodeAscii(data), '\n');
            && |s| <= |data| && (forall i :: 0 <= i < |s| ==> s[i] == if data[i] < 0x80 then data[i] as char else '\U{FFFD}')
            && (forall i :: |s| <= i < |data| ==> data[i] == LF)
  {
    var t := DecodeAscii(data);
    var s := RStrip(t, '\n');
    forall i | |s| <= i < |data|
      ensures data[i] == LF
    {
      assert t[i] == '\n';
    }
    assert forall i :: 0 <= i < |s| ==> s[i] == t[i];
  }

  lemma NothingToStrip(s: string, data: seq<Byte>)
    requires CR !in data && s == DecodeAscii(data)
    ensures RStrip(RStrip(s, '\n'), '\r') == RStrip(s, '\n')
  {
    var u := RStrip(s, '\n');
    if u != "" {
      var i := |u| - 1;
      assert u[i] == s[i] && data[i] in data;
    }
  }

  lemma {:induction false} NothingToRemove(b: seq<Byte>)
    requires ESC !in b
    ensures RemovePrivateModes(b) == b
  {
    if b != [] {
      NothingToRemove(b[1..]);
      assert [b[0]] + b[1..] == b;
    }
  }

  lemma OneKept(b: seq<Byte>)
    requires b != [] && b[0] != ESC
    ensures RemovePrivateModes(b) == [b[0]] + RemovePrivateModes(b[1..])
  {
  }

  lemma {:induction false} ModesSkip(a: seq<Byte>, rest: seq<Byte>)
    requires ESC !in a
    ensures RemovePrivateModes(a + rest) == a + RemovePrivateModes(rest)
    decreases |a|
  {
    if a == [] {
      assert a + rest == rest;
    } else {
      assert a[0] in a && (a + rest)[1..] == a[1..] + rest;
      ModesSkip(a[1..], rest);
      OneKept(a + rest);
      assert [a[0]] + (a[1..] + RemovePrivateModes(rest)) == a + RemovePrivateModes(rest);
    }
  }

  lemma {:induction false} RStripKeeps(s: string, c: char, n: nat)
    requires s == "" || s[|s| - 1] != c
    ensures RStrip(s + seq(n, _ => c), c) == s
    decreases n
  {
    var t := s + seq(n, _ => c);
    if n > 0 {
      assert t[..|t| - 1] == s + seq(n - 1, _ => c);
      RStripKeeps(s, c, n - 1);
    } else {
      assert t == s;
    }
  }

  lemma AsciiConcat(a: seq<Byte>, b: seq<Byte>)
    ensures DecodeAscii(a + b) == DecodeAscii(a) + DecodeAscii(b)
  {
  }

  /** A line as a terminal sends it, with mode switches around it and `\r\n` at its end: only its own text is left. */
  lemma TerminalLine(before: seq<Byte>, text: seq<Byte>, after: seq<Byte>)
    requires IsPrivateMode(before) && IsPrivateMode(after) && CR !in text && ESC !in text
    ensures TryToDecode(before + (text + (after + [CR, LF]))) == DecodeAscii(text)
  {
    var data := before + (text + (after + [CR, LF]));
    NoCrInMode(before);
    NoCrInMode(after);
    RemoveCrSkips(before, text + (after + [CR, LF]));
    RemoveCrSkips(text, after + [CR, LF]);
    RemoveCrSkips(after, [CR, LF]);
    RemoveCrFirst([], LF, []);
    assert [CR, LF] + [] == [CR, LF] && [] + [CR, LF] == [CR, LF] && RemoveCr([]) == [];
    assert RemoveCr(data) == data;
    LineModes(before, text, after);
    LineEnd(text);
  }

  lemma LineEnd(text: seq<Byte>)
    requires CR !in text
    ensures RStrip(RStrip(DecodeAscii(text + [CR, LF]), '\n'), '\r') == DecodeAscii(text)
  {
    var t := DecodeAscii(text);
    AsciiConcat(text, [CR, LF]);
    assert DecodeAscii([CR, LF]) == "\r" + "\n";
    assert t + ("\r" + "\n") == t + "\r" + seq(1, _ => '\n');
    RStripKeeps(t + "\r", '\n', 1);
    assert t + "\r" == t + seq(1, _ => '\r');
    if t != "" {
      assert t[|t| - 1] != '\r' by { assert text[|text| - 1] in text; }
    }
    RStripKeeps(t, '\r', 1);
  }

  lemma LineModes(before: seq<Byte>, text: seq<Byte>, after: seq<Byte>)
    requires IsPrivateMode(before) && IsPrivateMode(after) && ESC !in text
    ensures RemovePrivateModes(before + (text + (after + [CR, LF]))) == text + [CR, LF]
  {
    ModesRemoved(before, 0, text + (after + [CR, LF]));
    ModesSkip(text, after + [CR, LF]);
    ModesRemoved(after, 0, [CR, LF]);
    ModesSkip([CR, LF], []);
    assert [CR, LF] + [] == [CR, LF];
  }

  lemma NoCrInMode(m: seq<Byte>)
    requires IsPrivateMode(m)
    ensures CR !in m
  {
    forall i | 0 <= i < |m|
      ensures m[i] != CR
    {
      assert i < 3 ==> m[i] == m[..3][i];
    }
  }

  /**
    The order of the passes shows: a stray carriage return takes the escape behind it along, and the rest of a mode
    switch stays in the text.
   */
  lemma StrayCrCutsMode(mode: seq<Byte>, text: seq<Byte>)
    requires IsPrivateMode(mode) && CR !in text && ESC !in text
    ensures TryToDecode([CR] + mode + text) == RStrip(DecodeAscii(mode[1..] + text), '\n')
  {
    var rest := mode[1..] + text;
    NoCrInMode(mode);
    NoEscInside(mode);
    StrayCr(mode, text);
    assert CR !in mode[1..];
    NothingLeft(rest);
  }

  lemma StrayCr(mode: seq<Byte>, text: seq<Byte>)
    requires IsPrivateMode(mode)
    ensures RemoveCr([CR] + mode + text) == RemoveCr(mode[1..] + text)
  {
    assert mode[0] == mode[..3][0] == ESC;
    assert [CR] + mode + text == [] + ([CR, ESC] + (mode[1..] + text));
    RemoveCrFirst([], ESC, mode[1..] + text);
    assert [] + RemoveCr(mode[1..] + text) == RemoveCr(mode[1..] + text);
  }

  lemma NothingLeft(rest: seq<Byte>)
    requires CR !in rest && ESC !in rest
    ensures RemoveCr(rest) == rest && TryToDecode(rest) == RStrip(DecodeAscii(rest), '\n')
  {
    RemoveCrSkips(rest, []);
    assert rest + [] == rest;
    PlainText(rest);
  }

  lemma NoEscInside(m: seq<Byte>)
    requires IsPrivateMode(m)
    ensures ESC !in m[1..]
  {
    forall i | 1 <= i < |m|
      ensures m[i] != ESC
    {
      assert i < 3 ==> m[i] == m[..3][i];
    }
  }
}
