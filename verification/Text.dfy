/** The few Python string operations that the modelled code relies on. */
module Text {

  datatype Option<+T> = None | Some(value: T)

  /** `sep.join(parts)`. */
  function Join(sep: string, parts: seq<string>): string {
    if parts == [] then ""
    else if |parts| == 1 then parts[0]
    else parts[0] + sep + Join(sep, parts[1..])
  }

  /** The concatenation of all the parts, `"".join(parts)`. */
  function Flatten<T>(parts: seq<seq<T>>): seq<T> {
    if parts == [] then [] else parts[0] + Flatten(parts[1..])
  }

  lemma {:induction false} FlattenAppend<T>(a: seq<seq<T>>, b: seq<seq<T>>)
    ensures Flatten(a + b) == Flatten(a) + Flatten(b)
  {
    if a == [] {
      assert a + b == b;
    } else {
      assert (a + b)[1..] == a[1..] + b;
      FlattenAppend(a[1..], b);
    }
  }

  lemma FlattenSnoc<T>(a: seq<seq<T>>, x: seq<T>)
    ensures Flatten(a + [x]) == Flatten(a) + x
  {
    FlattenAppend(a, [x]);
    assert Flatten([x]) == x;
  }

  lemma SliceStep<T>(s: seq<T>, i: nat)
    requires i < |s|
    ensures s[i..][0] == s[i] && s[i..][1..] == s[i + 1..] && s[..i + 1] == s[..i] + [s[i]]
  {
  }

  /** `s.replace(c, r)` for a one-character pattern. */
  function ReplaceChar(s: string, c: char, r: string): string {
    if s == "" then ""
    else (if s[0] == c then r else [s[0]]) + ReplaceChar(s[1..], c, r)
  }

  lemma {:induction false} ReplaceCharConcat(a: string, b: string, c: char, r: string)
    ensures ReplaceChar(a + b, c, r) == ReplaceChar(a, c, r) + ReplaceChar(b, c, r)
  {
    if a == "" {
      assert a + b == b;
    } else {
      assert (a + b)[1..] == a[1..] + b;
      ReplaceCharConcat(a[1..], b, c, r);
    }
  }

  // ---- substrings ----

  predicate At(s: string, sub: string, i: nat) {
    i + |sub| <= |s| && s[i..i + |sub|] == sub
  }

  lemma AtTail(s: string, sub: string, j: nat)
    requires s != "" && j > 0
    ensures At(s, sub, j) <==> At(s[1..], sub, j - 1)
  {
    if j + |sub| <= |s| {
      var a, b := s[j..j + |sub|], s[1..][j - 1..j - 1 + |sub|];
      assert |a| == |b| && forall k :: 0 <= k < |a| ==> a[k] == b[k];
      assert a == b;
    }
  }

  /** The first position of a substring. */
  function Find(s: string, sub: string): (r: Option<nat>)
    ensures r.Some? ==> At(s, sub, r.value) && forall j: nat :: j < r.value ==> !At(s, sub, j)
    ensures r.None? ==> forall j: nat :: !At(s, sub, j)
  {
    if At(s, sub, 0) then Some(0)
    else if s == "" then None
    else
      assert forall j: nat {:trigger At(s, sub, j)} :: j > 0 ==> (At(s, sub, j) <==> At(s[1..], sub, j - 1)) by {
        forall j: nat {:trigger At(s, sub, j)} | j > 0
          ensures At(s, sub, j) <==> At(s[1..], sub, j - 1)
        {
          AtTail(s, sub, j);
        }
      }
      match Find(s[1..], sub)
      case Some(k) => Some(k + 1)
      case None => None
  }

  /** `sub in s` */
  predicate Contains(s: string, sub: string) {
    Find(s, sub).Some?
  }

  lemma ContainsAt(s: string, sub: string, i: nat)
    requires At(s, sub, i)
    ensures Contains(s, sub)
  {
  }

  lemma FindIs(s: string, sub: string, i: nat)
    requires At(s, sub, i) && forall j: nat :: j < i ==> !At(s, sub, j)
    ensures Find(s, sub) == Some(i)
  {
    assert Find(s, sub).Some?;
  }

  lemma AtWithin(a: string, b: string, c: string, i: nat, j: nat)
    requires At(a, b, i) && At(b, c, j)
    ensures At(a, c, i + j)
  {
    var k, m := i + j, |c|;
    assert i + j + |c| <= |a|;
    forall n | 0 <= n < m
      ensures a[k..k + m][n] == c[n]
    {
      assert a[i..i + |b|][j + n] == b[j..j + m][n];
    }
    assert a[k..k + m] == c;
  }

  lemma ContainsTransitive(a: string, b: string, c: string)
    requires Contains(a, b) && Contains(b, c)
    ensures Contains(a, c)
  {
    var i, j := Find(a, b).value, Find(b, c).value;
    AtWithin(a, b, c, i, j);
    ContainsAt(a, c, i + j);
  }

  /** `s.split(sep)` */
  function Split(s: string, sep: string): (r: seq<string>)
    requires sep != ""
    ensures r != []
    decreases |s|
  {
    match Find(s, sep)
    case None => [s]
    case Some(i) => [s[..i]] + Split(s[i + |sep|..], sep)
  }

  lemma {:induction false} JoinSplit(s: string, sep: string)
    requires sep != ""
    ensures Join(sep, Split(s, sep)) == s
    decreases |s|
  {
    match Find(s, sep) {
      case None =>
      case Some(i) =>
        var rest := s[i + |sep|..];
        JoinSplit(rest, sep);
        JoinCons(sep, s[..i], Split(rest, sep));
        CutAt(s, sep, i);
    }
  }

  lemma JoinCons(sep: string, head: string, tail: seq<string>)
    requires tail != []
    ensures Join(sep, [head] + tail) == head + sep + Join(sep, tail)
  {
    assert ([head] + tail)[1..] == tail;
  }

  lemma CutAt(s: string, sub: string, i: nat)
    requires At(s, sub, i)
    ensures s[..i] + sub + s[i + |sub|..] == s
  {
    assert s == s[..i] + s[i..i + |sub|] + s[i + |sub|..];
  }

  // ---- splitting at one character ----

  lemma FindChar(s: string, c: char)
    ensures match Find(s, [c])
            case None => c !in s
            case Some(i) => i < |s| && s[i] == c && c !in s[..i]
  {
    forall j: nat
      ensures At(s, [c], j) <==> j < |s| && s[j] == c
    {
      if j < |s| {
        assert s[j..j + 1] == [s[j]];
      }
    }
    match Find(s, [c]) {
      case None =>
        forall j: nat | j < |s|
          ensures s[j] != c
        {
          assert !At(s, [c], j);
        }
      case Some(i) =>
        forall j: nat | j < i
          ensures s[j] != c
        {
          assert !At(s, [c], j);
        }
    }
  }

  /** No part holds the character. */
  lemma {:induction false} SplitParts(s: string, c: char)
    ensures forall k :: 0 <= k < |Split(s, [c])| ==> c !in Split(s, [c])[k]
    decreases |s|
  {
    FindChar(s, c);
    match Find(s, [c]) {
      case None =>
      case Some(i) => SplitParts(s[i + 1..], c);
    }
  }

  lemma FirstIs(s: string, c: char, i: nat)
    requires i < |s| && s[i] == c && forall k :: 0 <= k < i ==> s[k] != c
    ensures Find(s, [c]) == Some(i)
  {
    forall k: nat | k < |s|
      ensures At(s, [c], k) <==> s[k] == c
    {
      assert s[k..k + 1] == [s[k]];
    }
    FindIs(s, [c], i);
  }

  lemma SplitFirst(head: string, rest: string, c: char)
    requires c !in head
    ensures Split(head, [c]) == [head]
    ensures Split(head + [c] + rest, [c]) == [head] + Split(rest, [c])
  {
    var s := head + [c] + rest;
    FindChar(head, c);
    FindChar(s, c);
    assert s[|head|] == c && forall k :: 0 <= k < |head| ==> s[k] == head[k];
    FirstIs(s, c, |head|);
    assert s[..|head|] == head && s[|head| + 1..] == rest;
  }

  /** Splitting is the only way to cut a text at a character: joined parts without it come back. */
  lemma {:induction false} SplitJoin(parts: seq<string>, c: char)
    requires parts != [] && forall k :: 0 <= k < |parts| ==> c !in parts[k]
    ensures Split(Join([c], parts), [c]) == parts
  {
    var rest := Join([c], parts[1..]);
    SplitFirst(parts[0], rest, c);
    if |parts| > 1 {
      forall k | 0 <= k < |parts[1..]|
        ensures c !in parts[1..][k]
      {
        assert parts[1..][k] == parts[k + 1];
      }
      SplitJoin(parts[1..], c);
      assert parts == [parts[0]] + parts[1..];
    } else {
      assert parts == [parts[0]];
    }
  }

  // ---- white space ----

  /** `str.isspace` for one character. */
  predicate IsSpace(c: char) {
    var v := c as int;
    || 0x09 <= v <= 0x0D || 0x1C <= v <= 0x20 || v == 0x85 || v == 0xA0 || v == 0x1680
    || 0x2000 <= v <= 0x200A || v == 0x2028 || v == 0x2029 || v == 0x202F || v == 0x205F || v == 0x3000
  }

  function StripLeft(s: string): string {
    if s != "" && IsSpace(s[0]) then StripLeft(s[1..]) else s
  }

  function StripRight(s: string): string {
    if s != "" && IsSpace(s[|s| - 1]) then StripRight(s[..|s| - 1]) else s
  }

  /** `s.strip()` */
  function Strip(s: string): string {
    StripRight(StripLeft(s))
  }

  /** The characters for which `str.isspace` is true. */
  const WHITE_SPACE :=
    "\t\n\U{0B}\U{0C}\r\U{1C}\U{1D}\U{1E}\U{1F} \U{85}\U{A0}\U{1680}"
    + "\U{2000}\U{2001}\U{2002}\U{2003}\U{2004}\U{2005}\U{2006}\U{2007}\U{2008}\U{2009}\U{200A}"
    + "\U{2028}\U{2029}\U{202F}\U{205F}\U{3000}"

  predicate IsBlankText(s: string) {
    forall i :: 0 <= i < |s| ==> IsSpace(s[i])
  }

  /** Nothing, or a text that neither begins nor ends with white space. */
  predicate IsStripped(s: string) {
    s == "" || (!IsSpace(s[0]) && !IsSpace(s[|s| - 1]))
  }

  lemma SpaceIsListed(c: char)
    ensures IsSpace(c) <==> c in WHITE_SPACE
  {
  }

  lemma {:induction false} StripLeftBlank(a: string, s: string)
    requires IsBlankText(a) && (s == "" || !IsSpace(s[0]))
    ensures StripLeft(a + s) == s
  {
    if a == "" {
      assert a + s == s;
    } else {
      assert (a + s)[1..] == a[1..] + s;
      StripLeftBlank(a[1..], s);
    }
  }

  lemma {:induction false} StripRightBlank(s: string, b: string)
    requires IsBlankText(b) && (s == "" || !IsSpace(s[|s| - 1]))
    ensures StripRight(s + b) == s
  {
    if b == "" {
      assert s + b == s;
    } else {
      var n := |b| - 1;
      assert (s + b)[..|s| + n] == s + b[..n];
      StripRightBlank(s, b[..n]);
    }
  }

  /** Stripping leaves the middle: what is between white space at both ends comes back. */
  lemma StripIsMiddle(a: string, middle: string, b: string)
    requires IsBlankText(a) && IsBlankText(b) && IsStripped(middle)
    ensures Strip(a + middle + b) == middle
  {
    if middle == "" {
      StripLeftBlank(a + b, "");
      assert a + middle + b == a + b + "";
    } else {
      assert a + middle + b == a + (middle + b);
      StripLeftBlank(a, middle + b);
      StripRightBlank(middle, b);
    }
  }

  lemma {:induction false} StripLeftParts(s: string) returns (a: string)
    ensures s == a + StripLeft(s) && IsBlankText(a)
    ensures StripLeft(s) == "" || !IsSpace(StripLeft(s)[0])
  {
    if s != "" && IsSpace(s[0]) {
      var rest := StripLeftParts(s[1..]);
      a := [s[0]] + rest;
      assert s == [s[0]] + s[1..];
    } else {
      a := "";
    }
  }

  lemma BlankSnoc(s: string, front: string, blank: string)
    requires s != "" && s[..|s| - 1] == front + blank && IsBlankText(blank) && IsSpace(s[|s| - 1])
    ensures s == front + (blank + [s[|s| - 1]]) && IsBlankText(blank + [s[|s| - 1]])
  {
    assert s == s[..|s| - 1] + [s[|s| - 1]];
  }

  lemma {:induction false} StripRightParts(s: string) returns (b: string)
    ensures s == StripRight(s) + b && IsBlankText(b)
    ensures StripRight(s) == "" || !IsSpace(StripRight(s)[|StripRight(s)| - 1])
  {
    if s != "" && IsSpace(s[|s| - 1]) {
      var n := |s| - 1;
      var rest := StripRightParts(s[..n]);
      b := rest + [s[n]];
      BlankSnoc(s, StripRight(s[..n]), rest);
    } else {
      b := "";
    }
  }

  /** And every text is such a middle between white space. */
  lemma StripPartsOf(s: string) returns (a: string, b: string)
    ensures s == a + Strip(s) + b && IsBlankText(a) && IsBlankText(b) && IsStripped(Strip(s))
  {
    a := StripLeftParts(s);
    b := StripRightParts(StripLeft(s));
    var m := Strip(s);
    if m != "" {
      assert m[0] == StripLeft(s)[0];
    }
  }

  // ---- decimal numbers ----

  predicate IsDigit(c: char) {
    '0' <= c <= '9'
  }

  function DigitValue(c: char): nat
    requires IsDigit(c)
  {
    c as int - '0' as int
  }

  function DigitChar(d: nat): (c: char)
    requires d < 10
    ensures IsDigit(c) && DigitValue(c) == d
  {
    ('0' as int + d) as char
  }

  function Decimal(n: nat): (s: string)
    ensures s != "" && forall i :: 0 <= i < |s| ==> IsDigit(s[i])
  {
    if n < 10 then [DigitChar(n)] else Decimal(n / 10) + [DigitChar(n % 10)]
  }

  /** Digits, with single underscores allowed between them. */
  function ParseDigits(s: string): Option<nat> {
    if s == "" || !IsDigit(s[|s| - 1]) then None
    else
      var d := DigitValue(s[|s| - 1]);
      var rest := s[..|s| - 1];
      if rest == "" then Some(d)
      else
        var high := if rest[|rest| - 1] == '_' then rest[..|rest| - 1] else rest;
        match ParseDigits(high)
        case Some(n) => Some(10 * n + d)
        case None => None
  }

  /** `int(s)`, which raises ValueError where this gives nothing. */
  function ParseInt(s: string): Option<int> {
    var t := Strip(s);
    if t == "" then None
    else
      var digits := if t[0] == '-' || t[0] == '+' then t[1..] else t;
      match ParseDigits(digits)
      case Some(n) => Some(if t[0] == '-' then -(n as int) else n as int)
      case None => None
  }

  /** One digit more. */
  lemma DigitLast(high: string, s: string, d: char)
    requires IsDigit(d) && high != "" && high[|high| - 1] != '_' && s == high + [d]
    ensures ParseDigits(s) == match ParseDigits(high) case Some(n) => Some(10 * n + DigitValue(d)) case None => None
  {
    assert s[..|s| - 1] == high && s[|s| - 1] == d;
  }

  /** An underscore in front of it changes nothing. */
  lemma UnderscoreLast(high: string, s: string, d: char)
    requires IsDigit(d) && high != "" && s == high + "_" + [d]
    ensures ParseDigits(s) == match ParseDigits(high) case Some(n) => Some(10 * n + DigitValue(d)) case None => None
  {
    var rest := s[..|s| - 1];
    assert rest == high + "_" && rest[|rest| - 1] == '_' && rest[..|rest| - 1] == high;
  }

  /** A number with white space around it. */
  lemma PaddedParse(a: string, n: nat, b: string)
    requires IsBlankText(a) && IsBlankText(b)
    ensures ParseInt(a + Decimal(n) + b) == Some(n as int)
  {
    DecimalIsStripped('+', n);
    StripIsMiddle(a, Decimal(n), b);
    ParseDecimal(n);
    PlainDigits(a + Decimal(n) + b, Decimal(n));
  }

  /** The same with a sign. */
  lemma SignedParse(a: string, sign: char, n: nat, b: string)
    requires IsBlankText(a) && IsBlankText(b) && (sign == '+' || sign == '-')
    ensures ParseInt(a + ([sign] + Decimal(n)) + b) == Some(if sign == '-' then 0 - n as int else n as int)
  {
    DecimalIsStripped(sign, n);
    StripIsMiddle(a, [sign] + Decimal(n), b);
    ParseDecimal(n);
    SignedDigits(a + ([sign] + Decimal(n)) + b, sign, Decimal(n));
  }

  lemma PlainDigits(t: string, d: string)
    requires Strip(t) == d && d != "" && IsDigit(d[0])
    ensures ParseInt(t) == match ParseDigits(d) case Some(n) => Some(n as int) case None => None
  {
  }

  lemma DecimalIsStripped(sign: char, n: nat)
    requires sign == '+' || sign == '-'
    ensures IsStripped(Decimal(n)) && IsStripped([sign] + Decimal(n))
  {
    var d := Decimal(n);
    assert IsDigit(d[0]) && IsDigit(d[|d| - 1]);
    assert ([sign] + d)[|d|] == d[|d| - 1];
  }

  lemma SignedDigits(t: string, sign: char, d: string)
    requires Strip(t) == [sign] + d && (sign == '+' || sign == '-')
    ensures ParseInt(t)
         == match ParseDigits(d) case Some(n) => Some(if sign == '-' then 0 - n as int else n as int) case None => None
  {
    assert Strip(t)[1..] == d;
  }

  /** Text with anything but digits and underscores in it is no number. */
  lemma {:induction false} DigitsParse(s: string)
    requires ParseDigits(s).Some?
    ensures forall i :: 0 <= i < |s| ==> IsDigit(s[i]) || s[i] == '_'
    decreases |s|
  {
    var n := |s| - 1;
    var rest := s[..n];
    if rest != "" {
      var high := if rest[n - 1] == '_' then rest[..n - 1] else rest;
      DigitsParse(high);
      forall i | 0 <= i < |s|
        ensures IsDigit(s[i]) || s[i] == '_'
      {
        if i < |high| {
          assert high[i] == s[i];
        } else if i < n {
          assert rest[i] == s[i];
        }
      }
    }
  }

  lemma {:induction false} ParseDecimal(n: nat)
    ensures ParseDigits(Decimal(n)) == Some(n)
    ensures ParseInt(Decimal(n)) == Some(n)
  {
    if n >= 10 {
      ParseDecimal(n / 10);
      assert Decimal(n)[..|Decimal(n)| - 1] == Decimal(n / 10);
    } else {
      assert Decimal(n)[..0] == "";
    }
    var s := Decimal(n);
    assert IsDigit(s[0]) && IsDigit(s[|s| - 1]);
    assert StripLeft(s) == s && StripRight(s) == s;
  }
}
