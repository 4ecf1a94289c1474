/**
  Collecting the output of an asynchronous command: `_async_log` and `get_output` of
  score/itf/plugins/qemu/qemu_target.py, `_process_text` and the stream handling of
  score/itf/plugins/docker.py. Both strip and split every chunk on its own.
 */
module AsyncOutput {
  import opened Text
  import opened Utf8
  import opened SshChannel

  /** The characters that are not white space, in order. */
  function NonSpace(s: string): string {
    if s == "" then "" else (if IsSpace(s[0]) then "" else [s[0]]) + NonSpace(s[1..])
  }

  lemma {:induction false} NonSpaceConcat(a: string, b: string)
    ensures NonSpace(a + b) == NonSpace(a) + NonSpace(b)
  {
    if a == "" {
      assert a + b == b;
    } else {
      assert (a + b)[1..] == a[1..] + b;
      NonSpaceConcat(a[1..], b);
    }
  }

  lemma {:induction false} NonSpaceStripLeft(s: string)
    ensures NonSpace(StripLeft(s)) == NonSpace(s)
  {
    if s != "" && IsSpace(s[0]) {
      NonSpaceStripLeft(s[1..]);
    }
  }

  lemma {:induction false} NonSpaceStripRight(s: string)
    ensures NonSpace(StripRight(s)) == NonSpace(s)
  {
    if s != "" && IsSpace(s[|s| - 1]) {
      var n := |s| - 1;
      NonSpaceStripRight(s[..n]);
      assert s == s[..n] + [s[n]];
      NonSpaceConcat(s[..n], [s[n]]);
    }
  }

  lemma NonSpaceStrip(s: string)
    ensures NonSpace(Strip(s)) == NonSpace(s)
  {
    NonSpaceStripLeft(s);
    NonSpaceStripRight(StripLeft(s));
  }

  const NEWLINE := "\n"

  /** Joining with line feeds adds only white space. */
  lemma {:induction false} NonSpaceJoin(parts: seq<string>)
    ensures NonSpace(Join(NEWLINE, parts)) == NonSpace(Flatten(parts))
  {
    if |parts| == 1 {
      assert Flatten(parts) == parts[0] + Flatten(parts[1..]) == parts[0];
    } else if |parts| > 1 {
      NonSpaceJoin(parts[1..]);
      var rest := Join(NEWLINE, parts[1..]);
      NonSpaceConcat(parts[0] + NEWLINE, rest);
      NonSpaceConcat(parts[0], NEWLINE);
      assert NEWLINE[1..] == "" && NonSpace(NEWLINE) == "";
      NonSpaceConcat(parts[0], Flatten(parts[1..]));
    }
  }

  function StrippedLines(text: string): seq<string> {
    Split(Strip(text), NEWLINE)
  }

  lemma NonSpaceLines(text: string)
    ensures NonSpace(Flatten(StrippedLines(text))) == NonSpace(text)
  {
    JoinSplit(Strip(text), NEWLINE);
    NonSpaceJoin(StrippedLines(text));
    NonSpaceStrip(text);
  }

  /** `get_output` of both handles. */
  function GetOutput(outputLines: seq<string>): string {
    Join(NEWLINE, outputLines) + (if outputLines != [] then NEWLINE else "")
  }

  lemma NonSpaceOutput(outputLines: seq<string>)
    ensures NonSpace(GetOutput(outputLines)) == NonSpace(Flatten(outputLines))
  {
    NonSpaceJoin(outputLines);
    NonSpaceConcat(Join(NEWLINE, outputLines), NEWLINE);
    assert NEWLINE[1..] == "" && NonSpace(NEWLINE) == "";
    assert Join(NEWLINE, outputLines) + "" == Join(NEWLINE, outputLines);
  }

  /** Each text with a line feed behind it. */
  function Terminated(lines: seq<string>): seq<string> {
    seq(|lines|, i requires 0 <= i < |lines| => lines[i] + NEWLINE)
  }

  /** The output is the collected lines, each with a line feed behind it. */
  lemma {:induction false} OutputIsLines(outputLines: seq<string>)
    ensures GetOutput(outputLines) == Flatten(Terminated(outputLines))
  {
    if outputLines != [] {
      var rest := outputLines[1..];
      OutputIsLines(rest);
      assert Terminated(outputLines)[1..] == Terminated(rest);
      assert outputLines == [outputLines[0]] + rest;
    }
  }

  /** Lines without a line feed can be told apart in the output: it splits into them, and nothing behind the last line feed. */
  lemma OutputSplits(outputLines: seq<string>)
    requires forall i :: 0 <= i < |outputLines| ==> '\n' !in outputLines[i]
    ensures Split(GetOutput(outputLines), NEWLINE) == outputLines + [""]
  {
    var parts := outputLines + [""];
    JoinWithLast(outputLines);
    SplitJoin(parts, '\n');
  }

  lemma {:induction false} JoinWithLast(lines: seq<string>)
    ensures Join(NEWLINE, lines + [""]) == GetOutput(lines)
  {
    if lines != [] {
      assert (lines + [""])[1..] == lines[1..] + [""];
      JoinWithLast(lines[1..]);
    }
  }

  lemma TerminatedConcat(a: seq<string>, b: seq<string>)
    ensures GetOutput(a + b) == GetOutput(a) + GetOutput(b)
  {
    OutputIsLines(a);
    OutputIsLines(b);
    OutputIsLines(a + b);
    assert Terminated(a + b) == Terminated(a) + Terminated(b);
    FlattenAppend(Terminated(a), Terminated(b));
  }

  /** The lines of one text are without line feeds, and make up the stripped text with a line feed behind it. */
  lemma OutputOfText(text: string)
    ensures GetOutput(StrippedLines(text)) == Strip(text) + NEWLINE
    ensures forall i :: 0 <= i < |StrippedLines(text)| ==> '\n' !in StrippedLines(text)[i]
  {
    JoinSplit(Strip(text), NEWLINE);
    SplitParts(Strip(text), '\n');
  }

  /** The lines of several texts, each stripped and cut on its own. */
  function LinesOfEach(texts: seq<string>): seq<seq<string>> {
    seq(|texts|, i requires 0 <= i < |texts| => StrippedLines(texts[i]))
  }

  function StrippedAll(texts: seq<string>): seq<string> {
    seq(|texts|, i requires 0 <= i < |texts| => Strip(texts[i]))
  }

  /** The output of the QEMU target: every chunk stripped, with a line feed behind it. */
  lemma {:induction false} OutputOfTexts(texts: seq<string>)
    ensures GetOutput(Flatten(LinesOfEach(texts))) == Flatten(Terminated(StrippedAll(texts)))
  {
    if texts != [] {
      var rest := texts[1..];
      OutputOfTexts(rest);
      OutputOfText(texts[0]);
      assert LinesOfEach(texts)[1..] == LinesOfEach(rest);
      assert Terminated(StrippedAll(texts))[1..] == Terminated(StrippedAll(rest));
      TerminatedConcat(StrippedLines(texts[0]), Flatten(LinesOfEach(rest)));
    }
  }

  lemma {:induction false} NonSpaceOfTexts(texts: seq<string>)
    ensures NonSpace(Flatten(Flatten(LinesOfEach(texts)))) == NonSpace(Flatten(texts))
  {
    if texts != [] {
      var own, rest := StrippedLines(texts[0]), Flatten(LinesOfEach(texts[1..]));
      NonSpaceOfTexts(texts[1..]);
      assert LinesOfEach(texts)[1..] == LinesOfEach(texts[1..]);
      FlattenAppend(own, rest);
      NonSpaceLines(texts[0]);
      NonSpaceConcat(Flatten(own), Flatten(rest));
      NonSpaceConcat(texts[0], Flatten(texts[1..]));
    }
  }

  // ---- docker.py `_process_text` ----

  function NonEmpty(lines: seq<string>): seq<string> {
    if lines == [] then []
    else NonEmpty(lines[..|lines| - 1]) + (if lines[|lines| - 1] != "" then [lines[|lines| - 1]] else [])
  }

  /** The lines of a text that are kept: those of the stripped text that are not empty. */
  function ShownLines(text: string): seq<string> {
    NonEmpty(StrippedLines(text))
  }

  function ShownOfEach(texts: seq<string>): seq<seq<string>> {
    seq(|texts|, i requires 0 <= i < |texts| => ShownLines(texts[i]))
  }

  lemma {:induction false} NonEmptyFlatten(lines: seq<string>)
    ensures Flatten(NonEmpty(lines)) == Flatten(lines)
  {
    if lines != [] {
      var n := |lines| - 1;
      NonEmptyFlatten(lines[..n]);
      FlattenSnoc(lines[..n], lines[n]);
      assert lines == lines[..n] + [lines[n]];
      if lines[n] != "" {
        FlattenSnoc(NonEmpty(lines[..n]), lines[n]);
      } else {
        assert NonEmpty(lines) == NonEmpty(lines[..n]) + [] == NonEmpty(lines[..n]);
        assert Flatten(lines[..n]) + lines[n] == Flatten(lines[..n]);
      }
    }
  }

  /** Exactly the lines that are not empty are kept. */
  lemma {:induction false} NonEmptyKeeps(lines: seq<string>)
    ensures forall l :: l in NonEmpty(lines) <==> l in lines && l != ""
  {
    if lines != [] {
      var n := |lines| - 1;
      NonEmptyKeeps(lines[..n]);
      assert lines == lines[..n] + [lines[n]];
    }
  }

  /** No kept line is empty or holds a line feed, and the visible characters of the text are those of the kept lines. */
  lemma ShownLinesMeaning(text: string)
    ensures forall l :: l in ShownLines(text) ==> l != "" && '\n' !in l
    ensures NonSpace(Flatten(ShownLines(text))) == NonSpace(text)
  {
    NonEmptyKeeps(StrippedLines(text));
    NonEmptyFlatten(StrippedLines(text));
    OutputOfText(text);
    NonSpaceLines(text);
  }

  /** A text of white space alone leaves no line. */
  lemma BlankShowsNothing(text: string)
    requires Strip(text) == ""
    ensures ShownLines(text) == []
  {
    assert StrippedLines(text) == [""];
    assert [""][..0] == [];
  }

  lemma ShownFirst(text: string, rest: seq<string>)
    ensures Flatten(ShownOfEach([text] + rest)) == ShownLines(text) + Flatten(ShownOfEach(rest))
  {
    assert ShownOfEach([text] + rest)[1..] == ShownOfEach(rest);
  }

  lemma ShownTwo(a: string, b: string, rest: seq<string>)
    ensures Flatten(ShownOfEach([a, b] + rest)) == ShownLines(a) + ShownLines(b) + Flatten(ShownOfEach(rest))
  {
    assert [a, b] + rest == [a] + ([b] + rest);
    ShownFirst(a, [b] + rest);
    ShownFirst(b, rest);
  }

  lemma {:induction false} ShownAreLines(texts: seq<string>)
    ensures forall l :: l in Flatten(ShownOfEach(texts)) ==> l != "" && '\n' !in l
  {
    if texts != [] {
      ShownAreLines(texts[1..]);
      ShownLinesMeaning(texts[0]);
      assert texts == [texts[0]] + texts[1..];
      ShownFirst(texts[0], texts[1..]);
    }
  }

  lemma {:induction false} ShownIsVisible(texts: seq<string>)
    ensures NonSpace(Flatten(Flatten(ShownOfEach(texts)))) == NonSpace(Flatten(texts))
  {
    if texts != [] {
      var own, rest := ShownLines(texts[0]), Flatten(ShownOfEach(texts[1..]));
      ShownIsVisible(texts[1..]);
      ShownLinesMeaning(texts[0]);
      assert texts == [texts[0]] + texts[1..];
      ShownFirst(texts[0], texts[1..]);
      FlattenAppend(own, rest);
      NonSpaceConcat(Flatten(own), Flatten(rest));
      NonSpaceConcat(texts[0], Flatten(texts[1..]));
    }
  }

  /** The loop appends the lines that are kept. */
  method ProcessText(text: string, outputLines: seq<string>) returns (r: seq<string>)
    ensures r == outputLines + ShownLines(text)
  {
    var lines := StrippedLines(text);
    var added: seq<string> := [];
    for i := 0 to |lines|
      invariant added == NonEmpty(lines[..i])
    {
      assert lines[..i + 1][..i] == lines[..i];
      if lines[i] != "" {
        added := added + [lines[i]];
      }
    }
    assert lines[..|lines|] == lines;
    r := outputLines + added;
  }

  // ---- Docker: one demultiplexed stream ----

  /** An item of the exec stream; an absent chunk is empty. */
  datatype Item = Item(stdout: seq<Byte>, stderr: seq<Byte>)

  /**
    The texts that the logging thread adds, in order. Chunks are decoded strictly, so the thread ends
    at the first one that is not well formed.
   */
  function LoggedTexts(stream: seq<Item>): seq<string> {
    if stream == [] || !WellFormed(stream[0].stdout) then []
    else if !WellFormed(stream[0].stderr) then [Decode(stream[0].stdout)]
    else [Decode(stream[0].stdout), Decode(stream[0].stderr)] + LoggedTexts(stream[1..])
  }

  predicate IsDecodable(item: Item) {
    WellFormed(item.stdout) && WellFormed(item.stderr)
  }

  /** The texts of `n` items in a row, stdout before stderr. */
  predicate AreTextsOf(texts: seq<string>, stream: seq<Item>, n: nat)
    requires n <= |stream|
  {
    |texts| >= 2 * n && forall i :: 0 <= i < n ==>
      texts[2 * i] == Decode(stream[i].stdout) && texts[2 * i + 1] == Decode(stream[i].stderr)
  }

  lemma TextsCons(texts: seq<string>, rest: seq<string>, stream: seq<Item>, n: nat)
    requires 0 < n <= |stream| && AreTextsOf(rest, stream[1..], n - 1)
    requires texts == [Decode(stream[0].stdout), Decode(stream[0].stderr)] + rest
    ensures AreTextsOf(texts, stream, n)
  {
    forall i | 0 <= i < n
      ensures texts[2 * i] == Decode(stream[i].stdout) && texts[2 * i + 1] == Decode(stream[i].stderr)
    {
      if i > 0 {
        assert texts[2 * i] == rest[2 * (i - 1)] && texts[2 * i + 1] == rest[2 * (i - 1) + 1];
        assert stream[1..][i - 1] == stream[i];
      }
    }
  }

  /** Item by item; the first item that cannot be decoded is the last, with its stdout if that can be. */
  lemma {:induction false} LoggedTextsAre(stream: seq<Item>, n: nat)
    requires n <= |stream| && (forall i :: 0 <= i < n ==> IsDecodable(stream[i]))
    requires n < |stream| ==> !IsDecodable(stream[n])
    ensures AreTextsOf(LoggedTexts(stream), stream, n)
    ensures LoggedTexts(stream)[2 * n..]
         == if n < |stream| && WellFormed(stream[n].stdout) then [Decode(stream[n].stdout)] else []
    decreases n
  {
    if n > 0 {
      var texts, rest := LoggedTexts(stream), LoggedTexts(stream[1..]);
      assert IsDecodable(stream[0]);
      assert forall i :: 0 <= i < |stream[1..]| ==> stream[1..][i] == stream[i + 1];
      LoggedTextsAre(stream[1..], n - 1);
      TextsCons(texts, rest, stream, n);
      assert texts[2 * n..] == rest[2 * (n - 1)..];
    }
  }

  /** `s.partition("\n")[0]` and `[2]` */
  function PidLine(s: string): string {
    match Find(s, NEWLINE) case Some(i) => s[..i] case None => s
  }

  function Remainder(s: string): string {
    match Find(s, NEWLINE) case Some(i) => s[i + 1..] case None => ""
  }

  /** The first text on stdout, unless the stream ends or a chunk up to there cannot be decoded. */
  datatype Search = NoStdout | Undecodable | First(text: string)

  function FirstStdout(stream: seq<Item>): Search {
    if stream == [] then NoStdout
    else if !WellFormed(stream[0].stderr) || !WellFormed(stream[0].stdout) then Undecodable
    else if stream[0].stdout != [] then First(Decode(stream[0].stdout))
    else FirstStdout(stream[1..])
  }

  /** The texts that are added when the first chunk on stdout starts with the PID line. */
  function ShownTexts(stream: seq<Item>): seq<string> {
    if stream == [] then []
    else if stream[0].stdout == [] then [Decode(stream[0].stderr)] + ShownTexts(stream[1..])
    else [Decode(stream[0].stderr), Remainder(Decode(stream[0].stdout))] + LoggedTexts(stream[1..])
  }

  /** The PID is looked for in the first chunk on stdout, if all chunks up to it can be decoded. */
  lemma {:induction false} FirstStdoutIs(stream: seq<Item>, n: nat)
    requires n <= |stream| && forall i :: 0 <= i < n ==> stream[i].stdout == [] && IsDecodable(stream[i])
    requires n < |stream| ==> stream[n].stdout != [] || !IsDecodable(stream[n])
    ensures FirstStdout(stream)
         == if n == |stream| then NoStdout
            else if !IsDecodable(stream[n]) then Undecodable else First(Decode(stream[n].stdout))
    ensures n < |stream| && IsDecodable(stream[n]) ==>
              && |ShownTexts(stream)| == n + 2 + |LoggedTexts(stream[n + 1..])|
              && (forall i :: 0 <= i <= n ==> ShownTexts(stream)[i] == Decode(stream[i].stderr))
              && ShownTexts(stream)[n + 1] == Remainder(Decode(stream[n].stdout))
              && ShownTexts(stream)[n + 2..] == LoggedTexts(stream[n + 1..])
    decreases n
  {
    if n > 0 {
      assert stream[0].stdout == [];
      assert forall i :: 0 <= i < |stream[1..]| ==> stream[1..][i] == stream[i + 1];
      FirstStdoutIs(stream[1..], n - 1);
      if n < |stream| && IsDecodable(stream[n]) {
        TextsOneMore(stream, n);
      }
    }
  }

  lemma TextsOneMore(stream: seq<Item>, n: nat)
    requires 0 < n < |stream| && stream[0].stdout == []
    requires var rest := ShownTexts(stream[1..]);
             && |rest| == n + 1 + |LoggedTexts(stream[1..][n..])|
             && (forall i :: 0 <= i < n ==> rest[i] == Decode(stream[1..][i].stderr))
             && rest[n] == Remainder(Decode(stream[n].stdout)) && rest[n + 1..] == LoggedTexts(stream[1..][n..])
    ensures var texts := ShownTexts(stream);
            && |texts| == n + 2 + |LoggedTexts(stream[n + 1..])|
            && (forall i :: 0 <= i <= n ==> texts[i] == Decode(stream[i].stderr))
            && texts[n + 1] == Remainder(Decode(stream[n].stdout)) && texts[n + 2..] == LoggedTexts(stream[n + 1..])
  {
    var texts, rest := ShownTexts(stream), ShownTexts(stream[1..]);
    assert texts == [Decode(stream[0].stderr)] + rest && stream[1..][n..] == stream[n + 1..];
    forall i | 0 <= i <= n
      ensures texts[i] == Decode(stream[i].stderr)
    {
      assert i > 0 ==> texts[i] == rest[i - 1] && stream[1..][i - 1] == stream[i];
    }
    assert texts[n + 2..] == rest[n + 1..];
  }

  datatype Started = Started(pid: int, outputLines: seq<string>) | NoPid | BadPid | DecodeError

  lemma EmptyShowsNothing()
    ensures ShownLines(Decode([])) == []
  {
    BlankShowsNothing(Decode([]));
  }

  /** A chunk that is absent or empty is skipped. */
  method ProcessChunk(chunk: seq<Byte>, outputLines: seq<string>) returns (r: seq<string>, raised: bool)
    ensures raised <==> !WellFormed(chunk)
    ensures r == if raised then outputLines else outputLines + ShownLines(Decode(chunk))
  {
    r, raised := outputLines, false;
    if chunk == [] {
      EmptyShowsNothing();
    } else if WellFormed(chunk) {
      r := ProcessText(Decode(chunk), outputLines);
    } else {
      raised := true;
    }
  }

  /** The logging thread, `_async_log`. */
  method DockerLog(stream: seq<Item>, lines: seq<string>) returns (outputLines: seq<string>)
    ensures outputLines == lines + Flatten(ShownOfEach(LoggedTexts(stream)))
  {
    outputLines := lines;
    for i := 0 to |stream|
      invariant outputLines + Flatten(ShownOfEach(LoggedTexts(stream[i..])))
             == lines + Flatten(ShownOfEach(LoggedTexts(stream)))
    {
      LoggedStep(stream, i, outputLines);
      var raised;
      outputLines, raised := ProcessChunk(stream[i].stdout, outputLines);
      if raised {
        return;
      }
      outputLines, raised := ProcessChunk(stream[i].stderr, outputLines);
      if raised {
        return;
      }
    }
  }

  lemma LoggedStep(stream: seq<Item>, i: nat, lines: seq<string>)
    requires i < |stream|
    ensures lines + Flatten(ShownOfEach(LoggedTexts(stream[i..])))
         == if !WellFormed(stream[i].stdout) then lines
            else if !WellFormed(stream[i].stderr) then lines + ShownLines(Decode(stream[i].stdout))
            else lines + ShownLines(Decode(stream[i].stdout)) + ShownLines(Decode(stream[i].stderr))
                 + Flatten(ShownOfEach(LoggedTexts(stream[i + 1..])))
  {
    SliceStep(stream, i);
    var a, b, rest := Decode(stream[i].stdout), Decode(stream[i].stderr), LoggedTexts(stream[i + 1..]);
    ShownTwo(a, b, rest);
    ShownFirst(a, []);
    assert [a] + [] == [a] && ShownOfEach([]) == [];
    RegroupLines(lines, ShownLines(a), ShownLines(b), Flatten(ShownOfEach(rest)));
  }

  lemma RegroupLines(a: seq<string>, b: seq<string>, c: seq<string>, d: seq<string>)
    ensures a + (b + c + d) == a + b + c + d
    ensures a + (b + []) == a + b && a + [] == a
    ensures a + (b + c) == a + b + c
  {
  }

  /** `execute_async` behind `exec_start`, and then the logging thread, over the whole stream. */
  method DockerCollect(stream: seq<Item>) returns (r: Started)
    ensures r == NoPid <==> FirstStdout(stream) == NoStdout
    ensures r == DecodeError <==> FirstStdout(stream) == Undecodable
    ensures r == BadPid <==> FirstStdout(stream).First? && ParseInt(PidLine(FirstStdout(stream).text)) == None
    ensures r.Started? ==> FirstStdout(stream).First? && ParseInt(PidLine(FirstStdout(stream).text)) == Some(r.pid)
    // the lines of all the texts behind the PID line, in order, and so their visible characters
    ensures r.Started? ==> r.outputLines == Flatten(ShownOfEach(ShownTexts(stream)))
    ensures r.Started? ==> Split(GetOutput(r.outputLines), NEWLINE) == r.outputLines + [""]
    ensures r.Started? ==> NonSpace(GetOutput(r.outputLines)) == NonSpace(Flatten(ShownTexts(stream)))
  {
    var outputLines: seq<string> := [];
    for i := 0 to |stream|
      invariant outputLines + Flatten(ShownOfEach(ShownTexts(stream[i..]))) == Flatten(ShownOfEach(ShownTexts(stream)))
      invariant FirstStdout(stream[i..]) == FirstStdout(stream)
    {
      SearchStep(stream, i);
      ShownStep(stream, i, outputLines);
      var raised;
      outputLines, raised := ProcessChunk(stream[i].stderr, outputLines);
      if raised {
        return DecodeError;
      }
      if stream[i].stdout != [] {
        if !WellFormed(stream[i].stdout) {
          return DecodeError;
        }
        r := StartLogging(Decode(stream[i].stdout), stream[i + 1..], outputLines);
        if r.Started? {
          VisibleOutput(ShownTexts(stream), r.outputLines);
        }
        return;
      }
    }
    return NoPid;
  }

  lemma VisibleOutput(texts: seq<string>, outputLines: seq<string>)
    requires outputLines == Flatten(ShownOfEach(texts))
    ensures Split(GetOutput(outputLines), NEWLINE) == outputLines + [""]
    ensures NonSpace(GetOutput(outputLines)) == NonSpace(Flatten(texts))
  {
    ShownAreLines(texts);
    ShownIsVisible(texts);
    OutputSplits(outputLines);
    NonSpaceOutput(outputLines);
  }

  lemma SearchStep(stream: seq<Item>, i: nat)
    requires i < |stream|
    ensures FirstStdout(stream[i..])
         == if !WellFormed(stream[i].stderr) || !WellFormed(stream[i].stdout) then Undecodable
            else if stream[i].stdout != [] then First(Decode(stream[i].stdout)) else FirstStdout(stream[i + 1..])
  {
    SliceStep(stream, i);
  }

  lemma TextsStep(stream: seq<Item>, i: nat)
    requires i < |stream|
    ensures ShownTexts(stream[i..])
         == if stream[i].stdout == [] then [Decode(stream[i].stderr)] + ShownTexts(stream[i + 1..])
            else [Decode(stream[i].stderr), Remainder(Decode(stream[i].stdout))] + LoggedTexts(stream[i + 1..])
  {
    SliceStep(stream, i);
  }

  lemma ShownStep(stream: seq<Item>, i: nat, before: seq<string>)
    requires i < |stream|
    ensures before + Flatten(ShownOfEach(ShownTexts(stream[i..])))
         == before + ShownLines(Decode(stream[i].stderr))
            + (if stream[i].stdout == [] then Flatten(ShownOfEach(ShownTexts(stream[i + 1..])))
               else ShownLines(Remainder(Decode(stream[i].stdout))) + Flatten(ShownOfEach(LoggedTexts(stream[i + 1..]))))
  {
    TextsStep(stream, i);
    var a, b := Decode(stream[i].stderr), Remainder(Decode(stream[i].stdout));
    if stream[i].stdout == [] {
      ShownFirst(a, ShownTexts(stream[i + 1..]));
      RegroupLines(before, ShownLines(a), Flatten(ShownOfEach(ShownTexts(stream[i + 1..]))), []);
    } else {
      var rest := Flatten(ShownOfEach(LoggedTexts(stream[i + 1..])));
      ShownTwo(a, b, LoggedTexts(stream[i + 1..]));
      RegroupLines(before, ShownLines(a), ShownLines(b), rest);
      RegroupLines(before + ShownLines(a), ShownLines(b), rest, []);
    }
  }

  /** The first chunk on stdout: the PID line, the rest of the chunk, then the logging thread. */
  method StartLogging(stdout: string, rest: seq<Item>, lines: seq<string>) returns (r: Started)
    ensures r.Started? || r == BadPid
    ensures r == BadPid <==> ParseInt(PidLine(stdout)) == None
    ensures r.Started? ==> ParseInt(PidLine(stdout)) == Some(r.pid)
    ensures r.Started? ==>
              r.outputLines == lines + (ShownLines(Remainder(stdout)) + Flatten(ShownOfEach(LoggedTexts(rest))))
  {
    var pid := ParseInt(PidLine(stdout));
    if pid.None? {
      return BadPid;
    }
    var remainder := Remainder(stdout);
    var outputLines := ProcessRemainder(remainder, lines);
    outputLines := DockerLog(rest, outputLines);
    RegroupLines(lines, ShownLines(remainder), Flatten(ShownOfEach(LoggedTexts(rest))), []);
    return Started(pid.value, outputLines);
  }

  /** A remainder of white space alone is skipped. */
  method ProcessRemainder(remainder: string, outputLines: seq<string>) returns (r: seq<string>)
    ensures r == outputLines + ShownLines(remainder)
  {
    r := outputLines;
    if Strip(remainder) != "" {
      r := ProcessText(remainder, outputLines);
    } else {
      BlankShowsNothing(remainder);
    }
  }

  /** Some of the leading digits of a number, but not all of them, read as a smaller number. */
  lemma {:induction false} FewerDigits(n: nat, k: nat)
    requires 0 < k < |Decimal(n)|
    ensures ParseInt(Decimal(n)[..k]).Some? && 0 <= ParseInt(Decimal(n)[..k]).value < n
    decreases n
  {
    var high := Decimal(n / 10);
    assert Decimal(n)[..|high|] == high;
    if k == |high| {
      ParseDecimal(n / 10);
    } else {
      FewerDigits(n / 10, k);
      assert Decimal(n)[..k] == high[..k];
    }
  }

  lemma PidLineIs(digits: string, tail: string)
    requires forall i :: 0 <= i < |digits| ==> IsDigit(digits[i])
    ensures PidLine(digits) == digits && Remainder(digits) == ""
    ensures PidLine(digits + NEWLINE + tail) == digits && Remainder(digits + NEWLINE + tail) == tail
  {
    forall i: nat
      ensures !At(digits, NEWLINE, i)
    {
      if i < |digits| {
        assert digits[i..i + 1][0] == digits[i];
      }
    }
    assert Find(digits, NEWLINE).None?;
    var s := digits + NEWLINE + tail;
    forall i: nat | i < |digits|
      ensures !At(s, NEWLINE, i)
    {
      assert s[i..i + 1][0] == digits[i];
    }
    FindIs(s, NEWLINE, |digits|);
  }

  /**
    What `echo $$` prints, followed by the command's own output, arrives in chunks: the PID is read
    correctly exactly when the first chunk holds all of its digits; cut earlier, it is silently
    taken for a smaller number.
   */
  lemma DockerPid(pid: nat, output: string, first: string)
    requires first != "" && first <= Decimal(pid) + NEWLINE + output
    ensures ParseInt(PidLine(first)) == Some(pid) <==> |Decimal(pid)| <= |first|
    ensures |first| < |Decimal(pid)| ==>
              ParseInt(PidLine(first)).Some? && 0 <= ParseInt(PidLine(first)).value < pid
    ensures |Decimal(pid)| <= |first| ==>
              Remainder(first) == if |first| == |Decimal(pid)| then "" else first[|Decimal(pid)| + 1..]
  {
    if |first| < |Decimal(pid)| {
      CutPid(pid, first);
    } else {
      WholePid(pid, output, first);
    }
  }

  lemma CutPid(pid: nat, first: string)
    requires first != "" && first < Decimal(pid)
    ensures ParseInt(PidLine(first)).Some? && 0 <= ParseInt(PidLine(first)).value < pid
  {
    assert first == Decimal(pid)[..|first|];
    PidLineIs(first, "");
    FewerDigits(pid, |first|);
  }

  lemma WholePid(pid: nat, output: string, first: string)
    requires |Decimal(pid)| <= |first| && first <= Decimal(pid) + NEWLINE + output
    ensures ParseInt(PidLine(first)) == Some(pid)
    ensures Remainder(first) == if |first| == |Decimal(pid)| then "" else first[|Decimal(pid)| + 1..]
  {
    ParseDecimal(pid);
    if |first| == |Decimal(pid)| {
      PrefixOfLine(Decimal(pid), output, first);
      PidLineIs(first, "");
    } else {
      PrefixOfLine(Decimal(pid), output, first);
      PidLineIs(Decimal(pid), first[|Decimal(pid)| + 1..]);
    }
  }

  lemma PrefixOfLine(line: string, rest: string, s: string)
    requires |line| <= |s| && s <= line + NEWLINE + rest
    ensures s == if |s| == |line| then line else line + NEWLINE + s[|line| + 1..]
  {
    var all := line + NEWLINE + rest;
    assert s == all[..|s|];
    if |s| > |line| {
      assert s[|line|] == all[|line|] == NEWLINE[0];
      assert s[..|line|] == all[..|line|] == line;
      assert s == s[..|line|] + [s[|line|]] + s[|line| + 1..];
    }
  }

  // ---- QEMU: the PID line ----

  const LF: Byte := 10

  /** The bytes in front of the first line feed. */
  function LineBytes(data: seq<Byte>): seq<Byte> {
    if data == [] || data[0] == LF then [] else [data[0]] + LineBytes(data[1..])
  }

  lemma {:induction false} LineBytesAre(line: seq<Byte>, rest: seq<Byte>)
    requires LF !in line && (rest == [] || rest[0] == LF)
    ensures LineBytes(line + rest) == line
  {
    if line == [] {
      assert line + rest == rest;
    } else {
      assert (line + rest)[1..] == line[1..] + rest;
      assert line == [line[0]] + line[1..];
      LineBytesAre(line[1..], rest);
    }
  }

  function ParsePid(pidLine: seq<Byte>): Option<int> {
    ParseInt(Decode(pidLine))
  }

  lemma {:induction false} DigitsFormALine(s: string, rest: seq<Byte>)
    requires forall i :: 0 <= i < |s| ==> IsDigit(s[i])
    ensures LineBytes(Encode(s) + [LF] + rest) == Encode(s)
  {
    var data := Encode(s) + [LF] + rest;
    if s != "" {
      assert s[0] as int < 0x80 && s[0] as int != LF;
      assert data[1..] == Encode(s[1..]) + [LF] + rest;
      DigitsFormALine(s[1..], rest);
    } else {
      assert data[0] == LF;
    }
  }

  /** What `echo $$` prints comes back as the PID, and only its own line is taken from the stream. */
  lemma PidRoundTrip(pid: nat, rest: seq<Byte>)
    ensures var data := Encode(Decimal(pid)) + [LF] + rest;
            ParsePid(LineBytes(data)) == Some(pid)
            && |LineBytes(data)| < |data| && data[|LineBytes(data)| + 1..] == rest
  {
    DigitsFormALine(Decimal(pid), rest);
    DecodeEncoded(Decimal(pid));
    ParseDecimal(pid);
  }

  // ---- QEMU: the logging thread over the SSH channel ----

  /** What the output of the QEMU target is: each chunk decoded and stripped, with a line feed behind it. */
  function OutputOf(chunks: seq<seq<Byte>>): string {
    Flatten(Terminated(StrippedAll(DecodeAll(chunks))))
  }

  /** The lines are those of what was read from the channel, behind the chunks of the past. */
  ghost predicate Logged(chunks: seq<seq<Byte>>, past: seq<seq<Byte>>, outputLines: seq<string>) {
    past <= chunks && outputLines == Flatten(LinesOfEach(DecodeAll(chunks[|past|..])))
  }

  lemma LoggedSnoc(chunks: seq<seq<Byte>>, past: seq<seq<Byte>>, outputLines: seq<string>, data: seq<Byte>)
    requires Logged(chunks, past, outputLines)
    ensures Logged(chunks + [data], past, outputLines + StrippedLines(Decode(data)))
  {
    var recent := chunks[|past|..];
    assert (chunks + [data])[|past|..] == recent + [data];
    assert LinesOfEach(DecodeAll(recent + [data])) == LinesOfEach(DecodeAll(recent)) + [StrippedLines(Decode(data))];
    FlattenSnoc(LinesOfEach(DecodeAll(recent)), StrippedLines(Decode(data)));
  }

  lemma LoggedOutput(chunks: seq<seq<Byte>>, past: seq<seq<Byte>>, outputLines: seq<string>)
    requires Logged(chunks, past, outputLines)
    ensures GetOutput(outputLines) == OutputOf(chunks[|past|..])
    ensures NonSpace(GetOutput(outputLines)) == NonSpace(Flatten(DecodeAll(chunks[|past|..])))
  {
    OutputOfTexts(DecodeAll(chunks[|past|..]));
    NonSpaceOfTexts(DecodeAll(chunks[|past|..]));
    NonSpaceOutput(outputLines);
  }

  const LOG_LIMIT := 4096

  /** `_recv_and_process`: every stripped line is kept, empty ones too. */
  method RecvAndProcess(channel: Channel, outputLines: seq<string>, ghost past: seq<seq<Byte>>)
    returns (r: seq<string>, raised: bool)
    requires channel.s.Valid(channel.env) && Logged(channel.s.out.chunks, past, outputLines)
    modifies channel`s
    ensures channel.s.Valid(channel.env) && Logged(channel.s.out.chunks, past, r)
    ensures channel.s == old(channel.s).AfterRecv(channel.env, Stdout, 4096)
    ensures raised == old(channel.s).Receives(channel.env, Stdout, 4096).Raised?
  {
    RecvValid(channel.s, channel.env, Stdout, LOG_LIMIT);
    var data := channel.Recv(LOG_LIMIT);
    if data.Raised? {
      return outputLines, true;
    }
    var text := Decode(data.bytes);
    LoggedSnoc(old(channel.s).out.chunks, past, outputLines, data.bytes);
    return outputLines + StrippedLines(text), false;
  }

  /** The command has exited by step `horizon`, and nothing is delivered from then on. */
  ghost predicate SettlesBy(env: Schedule, horizon: nat) {
    env(horizon).exits && forall k: nat :: k >= horizon ==> env(k).out == [] && env(k).err == []
  }

  function Before(step: nat, horizon: nat): nat {
    if step <= horizon then horizon + 1 - step else 0
  }

  /** Progress of the logging thread: towards the horizon, and from there on towards an empty buffer. */
  predicate Lower(b: State, a: State, horizon: nat) {
    || Before(b.step, horizon) < Before(a.step, horizon)
    || (Before(b.step, horizon) == Before(a.step, horizon) && |b.out.buffer| < |a.out.buffer|)
  }

  predicate NotHigher(b: State, a: State, horizon: nat) {
    Lower(b, a, horizon) || (Before(b.step, horizon) == Before(a.step, horizon) && |b.out.buffer| == |a.out.buffer|)
  }

  /** Past the horizon a chunk that is read makes the buffer shorter, and looking does not make it longer. */
  lemma NextNotHigher(s: State, env: Schedule, horizon: nat)
    requires SettlesBy(env, horizon)
    ensures NotHigher(s.Next(env), s, horizon)
    ensures s.Receives(env, Stdout, LOG_LIMIT).Data? ==> Lower(s.AfterRecv(env, Stdout, LOG_LIMIT), s, horizon)
  {
    if s.step > horizon {
      assert BytesAt(env, s.combine, Stdout, s.step) == [];
    }
  }

  /** Everything that the schedule had delivered when the exit was seen, and more, has been read. */
  predicate LoggedToExit(env: Schedule, s: State) {
    s.exitSeen && s.Drained(env, Stdout) && s.exitAt < s.outChecked
  }

  /** A horizon that has been passed has brought the exit. */
  predicate OnSchedule(s: State, horizon: nat) {
    s.step > horizon ==> s.exited
  }

  lemma NextOnSchedule(s: State, env: Schedule, horizon: nat)
    requires SettlesBy(env, horizon) && OnSchedule(s, horizon)
    ensures OnSchedule(s.Next(env), horizon)
  {
  }

  /** One round of the loop. */
  method LogOnce(channel: Channel, lines: seq<string>, ghost past: seq<seq<Byte>>, ghost horizon: nat)
    returns (outputLines: seq<string>, running: bool, raised: bool)
    requires channel.s.Valid(channel.env) && Logged(channel.s.out.chunks, past, lines)
    requires SettlesBy(channel.env, horizon) && OnSchedule(channel.s, horizon)
    modifies channel`s
    ensures channel.s.Valid(channel.env) && Logged(channel.s.out.chunks, past, outputLines)
    ensures channel.s.failed == (old(channel.s).failed || raised) && old(channel.s).Precedes(channel.s)
    ensures running ==> !raised && OnSchedule(channel.s, horizon) && Lower(channel.s, old(channel.s), horizon)
    ensures !running && !raised ==> LoggedToExit(channel.env, channel.s)
    // a round that goes on has read a chunk, or slept
    ensures running ==> |old(channel.s).out.chunks| < |channel.s.out.chunks| || HasSlept(channel.s, old(channel.s))
  {
    ghost var env, s := channel.env, channel.s;
    ReadyKeeps(s, env, horizon);
    var ready := channel.RecvReady();
    if ready {
      NextNotHigher(channel.s, env, horizon);
      NextOnSchedule(channel.s, env, horizon);
      outputLines, raised := RecvAndProcess(channel, lines, past);
      return outputLines, !raised, raised;
    }
    outputLines, running, raised := AskForExit(channel, lines, past, horizon);
  }

  /** Looking at the buffer changes nothing else. */
  lemma ReadyKeeps(s: State, env: Schedule, horizon: nat)
    requires s.Valid(env) && SettlesBy(env, horizon) && OnSchedule(s, horizon)
    ensures var r := s.AfterReady(env, Stdout);
            r.Valid(env) && OnSchedule(r, horizon) && NotHigher(r, s, horizon)
  {
    ReadyValid(s, env, Stdout);
    NextNotHigher(s, env, horizon);
    NextOnSchedule(s, env, horizon);
  }

  /** The last thing that was done is a sleep of 100 ms. */
  predicate HasSlept(b: State, a: State) {
    && |b.waits| == |a.waits| + 1 && b.waits[|a.waits|].how == Slept && b.waits[|a.waits|].length == 100
    && b.clock >= b.waits[|a.waits|].began + 100
  }

  /** With nothing to read: drain when the command has exited, else go on. */
  method AskForExit(channel: Channel, lines: seq<string>, ghost past: seq<seq<Byte>>, ghost horizon: nat)
    returns (outputLines: seq<string>, running: bool, raised: bool)
    requires channel.s.Valid(channel.env) && Logged(channel.s.out.chunks, past, lines)
    requires SettlesBy(channel.env, horizon) && OnSchedule(channel.s, horizon)
    modifies channel`s
    ensures channel.s.Valid(channel.env) && Logged(channel.s.out.chunks, past, outputLines)
    ensures channel.s.failed == (old(channel.s).failed || raised) && old(channel.s).Precedes(channel.s)
    ensures running ==>
              !raised && OnSchedule(channel.s, horizon) && Before(channel.s.step, horizon) < Before(old(channel.s).step, horizon)
    ensures !running && !raised ==> LoggedToExit(channel.env, channel.s)
    ensures running ==> HasSlept(channel.s, old(channel.s))
  {
    NextValid(channel.s, channel.env);
    NextOnSchedule(channel.s, channel.env, horizon);
    var exited := channel.ExitStatusReady();
    if exited {
      outputLines, raised := DrainAfterExit(channel, lines, past, horizon);
      return outputLines, false, raised;
    }
    SleepKeeps(channel.s, channel.env, horizon);
    channel.Sleep(100);
    return lines, true, false;
  }

  lemma SleepKeeps(s: State, env: Schedule, horizon: nat)
    requires s.Valid(env) && SettlesBy(env, horizon) && OnSchedule(s, horizon)
    ensures var b := s.AfterSleep(env, s.clock, 100);
            && b.Valid(env) && OnSchedule(b, horizon) && HasSlept(b, s)
            && b.failed == s.failed && b.step == s.step + 1
  {
    SleepValid(s, env, s.clock, 100);
    NextOnSchedule(s, env, horizon);
  }

  /**
    `_async_log`, from whatever point the channel is at behind the PID line. It runs until the exit
    status is seen, so it ends on every run in which the command eventually exits.
   */
  method AsyncLog(channel: Channel, ghost horizon: nat) returns (outputLines: seq<string>, raised: bool)
    requires channel.s.Valid(channel.env) && !channel.s.failed && SettlesBy(channel.env, horizon)
    requires channel.s.step <= horizon || channel.s.exited
    modifies channel`s
    ensures channel.s.Valid(channel.env) && old(channel.s).Precedes(channel.s)
    ensures old(channel.s).out.chunks <= channel.s.out.chunks
    ensures GetOutput(outputLines) == OutputOf(channel.s.out.chunks[|old(channel.s).out.chunks|..])
    ensures NonSpace(GetOutput(outputLines))
         == NonSpace(Flatten(DecodeAll(channel.s.out.chunks[|old(channel.s).out.chunks|..])))
    ensures raised <==> channel.s.failed
    ensures !raised ==> LoggedToExit(channel.env, channel.s)
  {
    ghost var past := channel.s.out.chunks;
    outputLines, raised := [], false;
    assert channel.s.out.chunks[|past|..] == [] && DecodeAll([]) == [];
    var running := true;
    while running
      invariant channel.s.Valid(channel.env) && Logged(channel.s.out.chunks, past, outputLines)
      invariant (raised <==> channel.s.failed) && old(channel.s).Precedes(channel.s)
      invariant running ==> !raised && OnSchedule(channel.s, horizon)
      invariant !running && !raised ==> LoggedToExit(channel.env, channel.s)
      decreases running, Before(channel.s.step, horizon), |channel.s.out.buffer|
    {
      outputLines, running, raised := LogOnce(channel, outputLines, past, horizon);
    }
    LoggedOutput(channel.s.out.chunks, past, outputLines);
  }

  method DrainAfterExit(channel: Channel, lines: seq<string>, ghost past: seq<seq<Byte>>, ghost horizon: nat)
    returns (outputLines: seq<string>, raised: bool)
    requires channel.s.Valid(channel.env) && Logged(channel.s.out.chunks, past, lines)
    requires channel.s.exitSeen && SettlesBy(channel.env, horizon)
    modifies channel`s
    ensures channel.s.Valid(channel.env) && Logged(channel.s.out.chunks, past, outputLines)
    ensures channel.s.failed == (old(channel.s).failed || raised) && old(channel.s).Precedes(channel.s)
    ensures !raised ==> LoggedToExit(channel.env, channel.s)
  {
    outputLines, raised := lines, false;
    ghost var env := channel.env;
    ReadyValid(channel.s, env, Stdout);
    var ready := channel.RecvReady();
    while ready && !raised
      invariant channel.s.Valid(env) && Logged(channel.s.out.chunks, past, outputLines)
      invariant channel.s.exitSeen && channel.s.failed == (old(channel.s).failed || raised)
      invariant old(channel.s).Precedes(channel.s)
      invariant !raised && !ready ==> LoggedToExit(env, channel.s)
      decreases !raised, Before(channel.s.step, horizon), |channel.s.out.buffer|
    {
      NextNotHigher(channel.s, env, horizon);
      outputLines, raised := RecvAndProcess(channel, outputLines, past);
      if !raised {
        NextNotHigher(channel.s, env, horizon);
        ReadyValid(channel.s, env, Stdout);
        ready := channel.RecvReady();
      }
    }
  }
}
