/**
  UTF-8 (RFC 3629): encoding, and Python's decoding with errors="replace", which substitutes
  U+FFFD for every maximal ill-formed subpart.
 */
module Utf8 {
  import opened Text

  type Byte = i: int | 0 <= i < 256

  const REPLACEMENT: char := '\U{FFFD}'

  function EncodeChar(c: char): (r: seq<Byte>)
    ensures 1 <= |r| <= 4
  {
    var v := c as int;
    if v < 0x80 then [v]
    else if v < 0x800 then [0xC0 + v / 0x40, 0x80 + v % 0x40]
    else if v < 0x1_0000 then [0xE0 + v / 0x1000, 0x80 + v / 0x40 % 0x40, 0x80 + v % 0x40]
    else [0xF0 + v / 0x4_0000, 0x80 + v / 0x1000 % 0x40, 0x80 + v / 0x40 % 0x40, 0x80 + v % 0x40]
  }

  function Encode(s: string): seq<Byte> {
    if s == "" then [] else EncodeChar(s[0]) + Encode(s[1..])
  }

  /** Length of the sequence that a byte starts; zero for a byte that cannot start one. */
  function SequenceLength(b: Byte): nat {
    if b < 0x80 then 1
    else if 0xC2 <= b <= 0xDF then 2
    else if 0xE0 <= b <= 0xEF then 3
    else if 0xF0 <= b <= 0xF4 then 4
    else 0
  }

  predicate IsContinuation(b: Byte) {
    0x80 <= b <= 0xBF
  }

  /** The second byte of a sequence is restricted further: no overlong forms, no surrogates, nothing above U+10FFFF. */
  predicate IsSecond(lead: Byte, b: Byte) {
    && IsContinuation(b)
    && (lead == 0xE0 ==> 0xA0 <= b)
    && (lead == 0xED ==> b <= 0x9F)
    && (lead == 0xF0 ==> 0x90 <= b)
    && (lead == 0xF4 ==> b <= 0x8F)
  }

  /** A decoded character, the number of bytes that it stands for, and whether they were well formed. */
  datatype Decoded = Decoded(ch: char, size: nat, ok: bool)

  function Scalar2(x: int, y: int): int {
    (x - 0xC0) * 0x40 + (y - 0x80)
  }

  function Scalar3(x: int, y: int, z: int): int {
    (x - 0xE0) * 0x1000 + (y - 0x80) * 0x40 + (z - 0x80)
  }

  function Scalar4(x: int, y: int, z: int, w: int): int {
    (x - 0xF0) * 0x4_0000 + (y - 0x80) * 0x1000 + (z - 0x80) * 0x40 + (w - 0x80)
  }

  function DecodeOne(b: seq<Byte>): (r: Decoded)
    requires b != []
    ensures 1 <= r.size <= |b| && r.size <= 4
    ensures !r.ok ==> r.ch == REPLACEMENT && r.size <= 3
  {
    var n := SequenceLength(b[0]);
    if n == 1 then Decoded(b[0] as char, 1, true)
    else if n == 0 || |b| < 2 || !IsSecond(b[0], b[1]) then Decoded(REPLACEMENT, 1, false)
    else if n == 2 then Decoded(Scalar2(b[0], b[1]) as char, 2, true)
    else if |b| < 3 || !IsContinuation(b[2]) then Decoded(REPLACEMENT, 2, false)
    else if n == 3 then Decoded(Scalar3(b[0], b[1], b[2]) as char, 3, true)
    else if |b| < 4 || !IsContinuation(b[3]) then Decoded(REPLACEMENT, 3, false)
    else Decoded(Scalar4(b[0], b[1], b[2], b[3]) as char, 4, true)
  }

  /** `data.decode("utf-8", errors="replace")` */
  function Decode(b: seq<Byte>): string
    decreases |b|
  {
    if b == [] then "" else [DecodeOne(b).ch] + Decode(b[DecodeOne(b).size..])
  }

  /** The grammar of RFC 3629, section 4. */
  predicate WellFormed(b: seq<Byte>)
    decreases |b|
  {
    b == [] || (DecodeOne(b).ok && WellFormed(b[DecodeOne(b).size..]))
  }

  // ---- decoding undoes encoding ----

  lemma DecodeEncodedChar(c: char, rest: seq<Byte>)
    ensures DecodeOne(EncodeChar(c) + rest) == Decoded(c, |EncodeChar(c)|, true)
  {
    var v := c as int;
    var e := EncodeChar(c);
    var b := e + rest;
    assert b[0] == e[0];
    if v < 0x80 {
    } else if v < 0x800 {
      assert b[1] == e[1];
      assert Scalar2(b[0], b[1]) == v;
    } else if v < 0x1_0000 {
      assert b[1] == e[1] && b[2] == e[2];
      Split3(v);
    } else {
      assert b[1] == e[1] && b[2] == e[2] && b[3] == e[3];
      Split4(v);
    }
  }

  lemma Split3(v: int)
    requires 0x800 <= v < 0x1_0000
    ensures var x, y, z := 0xE0 + v / 0x1000, 0x80 + v / 0x40 % 0x40, 0x80 + v % 0x40;
            && 0xE0 <= x <= 0xEF && 0x80 <= y <= 0xBF && 0x80 <= z <= 0xBF
            && Scalar3(x, y, z) == v
            && (x == 0xE0 ==> 0xA0 <= y) && (x == 0xED && v < 0xD800 ==> y <= 0x9F)
            && (v >= 0xE000 ==> x >= 0xEE)
  {
    var q := v / 0x40;
    assert v == q * 0x40 + v % 0x40;
    assert q == q / 0x40 * 0x40 + q % 0x40;
    assert v / 0x1000 == q / 0x40;
  }

  lemma Split4(v: int)
    requires 0x1_0000 <= v < 0x11_0000
    ensures var x, y, z, w := 0xF0 + v / 0x4_0000, 0x80 + v / 0x1000 % 0x40, 0x80 + v / 0x40 % 0x40, 0x80 + v % 0x40;
            && 0xF0 <= x <= 0xF4 && 0x80 <= y <= 0xBF && 0x80 <= z <= 0xBF && 0x80 <= w <= 0xBF
            && Scalar4(x, y, z, w) == v
            && (x == 0xF0 ==> 0x90 <= y) && (x == 0xF4 ==> y <= 0x8F)
  {
    var q := v / 0x40;
    var p := q / 0x40;
    assert v == q * 0x40 + v % 0x40;
    assert q == p * 0x40 + q % 0x40;
    assert v / 0x1000 == p && v / 0x4_0000 == p / 0x40;
    assert p == p / 0x40 * 0x40 + p % 0x40;
  }

  lemma {:induction false} DecodeEncoded(s: string)
    ensures Decode(Encode(s)) == s
    ensures WellFormed(Encode(s))
  {
    if s != "" {
      DecodeEncodedChar(s[0], Encode(s[1..]));
      assert Encode(s)[|EncodeChar(s[0])|..] == Encode(s[1..]);
      DecodeEncoded(s[1..]);
    }
  }

  // ---- encoding undoes decoding exactly on well-formed bytes ----

  lemma EncodeDecodedOne(b: seq<Byte>)
    requires b != []
    ensures var d := DecodeOne(b);
            if d.ok then EncodeChar(d.ch) == b[..d.size]
            else EncodeChar(d.ch) == [0xEF, 0xBF, 0xBD] && !([0xEF, 0xBF, 0xBD] <= b)
  {
    var d := DecodeOne(b);
    if d.ok {
      if d.size == 2 {
        Join2(b[0], b[1]);
      } else if d.size == 3 {
        Join3(b[0], b[1], b[2]);
      } else if d.size == 4 {
        Join4(b[0], b[1], b[2], b[3]);
      }
      assert |EncodeChar(d.ch)| == d.size;
    }
  }

  lemma Join2(x: Byte, y: Byte)
    requires SequenceLength(x) == 2 && IsSecond(x, y)
    ensures EncodeChar(Scalar2(x, y) as char) == [x, y]
  {
  }

  lemma Join3(x: Byte, y: Byte, z: Byte)
    requires SequenceLength(x) == 3 && IsSecond(x, y) && IsContinuation(z)
    ensures EncodeChar(Scalar3(x, y, z) as char) == [x, y, z]
  {
    var v := Scalar3(x, y, z);
    assert v == ((x - 0xE0) * 0x40 + (y - 0x80)) * 0x40 + (z - 0x80);
    assert v / 0x40 == (x - 0xE0) * 0x40 + (y - 0x80);
    assert v / 0x1000 == x - 0xE0;
  }

  lemma Join4(x: Byte, y: Byte, z: Byte, w: Byte)
    requires SequenceLength(x) == 4 && IsSecond(x, y) && IsContinuation(z) && IsContinuation(w)
    ensures EncodeChar(Scalar4(x, y, z, w) as char) == [x, y, z, w]
  {
    var v := Scalar4(x, y, z, w);
    var q := (x - 0xF0) * 0x1000 + (y - 0x80) * 0x40 + (z - 0x80);
    assert v == q * 0x40 + (w - 0x80);
    assert v / 0x40 == q;
    assert q / 0x40 == (x - 0xF0) * 0x40 + (y - 0x80);
    assert v / 0x1000 == q / 0x40 && v / 0x4_0000 == x - 0xF0;
  }

  lemma {:induction false} EncodeDecoded(b: seq<Byte>)
    ensures |Encode(Decode(b))| >= |b|
    ensures Encode(Decode(b)) == b <==> WellFormed(b)
    decreases |b|
  {
    if b != [] {
      var d := DecodeOne(b);
      var rest := b[d.size..];
      EncodeDecodedOne(b);
      EncodeDecoded(rest);
      assert Decode(b)[1..] == Decode(rest);
      assert Encode(Decode(b)) == EncodeChar(d.ch) + Encode(Decode(rest));
      if d.ok {
        SameTail(b, d.size, EncodeChar(d.ch), Encode(Decode(rest)));
      } else {
        ReplacedDiffers(b, d.size, Encode(Decode(rest)));
      }
    }
  }

  lemma SameTail(b: seq<Byte>, n: nat, head: seq<Byte>, tail: seq<Byte>)
    requires n <= |b| && head == b[..n]
    ensures head + tail == b <==> tail == b[n..]
  {
    assert b == b[..n] + b[n..];
    assert (head + tail)[n..] == tail;
  }

  lemma ReplacedDiffers(b: seq<Byte>, n: nat, tail: seq<Byte>)
    requires n <= |b| && n <= 3 && |tail| >= |b| - n
    requires !([0xEF, 0xBF, 0xBD] <= b)
    ensures [0xEF, 0xBF, 0xBD] + tail != b
  {
    assert [0xEF, 0xBF, 0xBD] <= [0xEF, 0xBF, 0xBD] + tail;
  }

  lemma {:induction false} EncodeConcat(a: string, b: string)
    ensures Encode(a + b) == Encode(a) + Encode(b)
  {
    if a == "" {
      assert a + b == b;
    } else {
      assert (a + b)[1..] == a[1..] + b;
      EncodeConcat(a[1..], b);
    }
  }

  // ---- what is replaced ----

  /** The beginning of a character that is not continued: all its bytes together are replaced by one U+FFFD. */
  lemma CutCharacter(c: char, k: nat, rest: seq<Byte>)
    requires 0 < k < |EncodeChar(c)| && (rest == [] || !IsContinuation(rest[0]))
    ensures Decode(EncodeChar(c)[..k] + rest) == "\U{FFFD}" + Decode(rest)
  {
    var e := EncodeChar(c);
    var b := e[..k] + rest;
    DecodeEncodedChar(c, []);
    assert e + [] == e && DecodeOne(e) == Decoded(c, |e|, true);
    assert b[0] == e[0] && (k > 1 ==> b[1] == e[1]) && (k > 2 ==> b[2] == e[2]);
    assert k < |b| ==> b[k] == rest[0];
    assert DecodeOne(b) == Decoded(REPLACEMENT, k, false);
    assert b[k..] == rest;
  }

  /** A byte that cannot start a character is replaced on its own: continuation bytes, 0xC0, 0xC1 and from 0xF5 on. */
  lemma StrayByte(x: Byte, rest: seq<Byte>)
    requires 0x80 <= x < 0xC2 || 0xF5 <= x
    ensures Decode([x] + rest) == "\U{FFFD}" + Decode(rest)
  {
    assert ([x] + rest)[1..] == rest;
  }

  /** A character cut between two chunks: one replacement for its beginning, and one for each byte of the rest. */
  lemma CutBetweenChunks(c: char, k: nat)
    requires 0 < k < |EncodeChar(c)|
    ensures Decode(EncodeChar(c)[..k]) == "\U{FFFD}"
    ensures Decode(EncodeChar(c)[k..]) == seq(|EncodeChar(c)| - k, _ => '\U{FFFD}')
  {
    var e := EncodeChar(c);
    assert e[..k] + [] == e[..k] && Decode([]) == "";
    CutCharacter(c, k, []);
    AllStray(e[k..]);
  }

  lemma {:induction false} AllStray(b: seq<Byte>)
    requires forall i :: 0 <= i < |b| ==> IsContinuation(b[i])
    ensures Decode(b) == seq(|b|, _ => '\U{FFFD}')
  {
    if b != [] {
      assert b == [b[0]] + b[1..];
      StrayByte(b[0], b[1..]);
      AllStray(b[1..]);
    }
  }

  // ---- decoding chunk by chunk ----

  function DecodeAll(chunks: seq<seq<Byte>>): seq<string> {
    seq(|chunks|, i requires 0 <= i < |chunks| => Decode(chunks[i]))
  }

  /** Bytes decoded chunk by chunk survive exactly when no chunk holds or cuts an ill-formed sequence. */
  lemma {:induction false} ChunkwiseFidelity(chunks: seq<seq<Byte>>)
    ensures |Encode(Flatten(DecodeAll(chunks)))| >= |Flatten(chunks)|
    ensures Encode(Flatten(DecodeAll(chunks))) == Flatten(chunks)
        <==> (forall i :: 0 <= i < |chunks| ==> WellFormed(chunks[i]))
  {
    if chunks != [] {
      var head, rest := chunks[0], chunks[1..];
      assert DecodeAll(chunks)[1..] == DecodeAll(rest);
      EncodeConcat(Decode(head), Flatten(DecodeAll(rest)));
      EncodeDecoded(head);
      ChunkwiseFidelity(rest);
      var e, f := Encode(Decode(head)), Encode(Flatten(DecodeAll(rest)));
      if e + f == head + Flatten(rest) {
        assert |e| == |head|;
        assert e == (e + f)[..|e|] && f == (e + f)[|e|..];
        forall i | 0 <= i < |chunks|
          ensures WellFormed(chunks[i])
        {
          assert i > 0 ==> chunks[i] == rest[i - 1];
        }
      }
      if forall i :: 0 <= i < |chunks| ==> WellFormed(chunks[i]) {
        assert WellFormed(chunks[0]);
        forall i | 0 <= i < |rest|
          ensures WellFormed(rest[i])
        {
          assert rest[i] == chunks[i + 1];
        }
      }
    }
  }
}
