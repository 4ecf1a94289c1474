/**
  Python's `shlex.split` in its default mode (POSIX rules, splitting at white space, no comments), with
  which docker-py cuts the text of `exec_run` into words (score/itf/plugins/docker.py), and its
  relation to `shlex.quote`.
 */
module PythonShlex {
  import opened Text
  import opened ShellQuoting

  datatype Mode =
    | Gap         // between words
    | InWord
    | Single      // inside '...'
    | Double      // inside "..."
    | EscWord     // after a backslash outside of quotes
    | EscDouble   // after a backslash inside "..."

  datatype Splitter = Splitter(mode: Mode, cur: string, words: seq<string>)

  predicate IsWhitespace(c: char) {
    c == ' ' || c == '\t' || c == '\r' || c == '\n'
  }

  function WordChar(st: Splitter, c: char): Splitter {
    if c == '\\' then st.(mode := EscWord)
    else if c == '\'' then st.(mode := Single)
    else if c == '"' then st.(mode := Double)
    else Splitter(InWord, st.cur + [c], st.words)
  }

  function Step(st: Splitter, c: char): Splitter {
    match st.mode
    case Gap => if IsWhitespace(c) then st else WordChar(st, c)
    case InWord => if IsWhitespace(c) then Splitter(Gap, "", st.words + [st.cur]) else WordChar(st, c)
    case Single => if c == '\'' then st.(mode := InWord) else st.(cur := st.cur + [c])
    case Double =>
      if c == '"' then st.(mode := InWord)
      else if c == '\\' then st.(mode := EscDouble)
      else st.(cur := st.cur + [c])
    case EscWord => Splitter(InWord, st.cur + [c], st.words)
    case EscDouble =>
      Splitter(Double, st.cur + (if c == '"' || c == '\\' then [c] else ['\\', c]), st.words)
  }

  /** The characters at which words end, and what a backslash does outside and inside of double quotes. */
  lemma Characters(st: Splitter, c: char)
    ensures IsWhitespace(c) <==> c in " \t\r\n"
    ensures st.mode == Gap || st.mode == InWord ==>
              Step(Step(st, '\\'), c) == Splitter(InWord, st.cur + [c], st.words)
    ensures st.mode == Double ==>
              Step(Step(st, '\\'), c) == Splitter(Double, if c in "\\\"" then st.cur + [c] else st.cur + ['\\', c], st.words)
  {
  }

  function Run(st: Splitter, s: string): Splitter
    decreases |s|
  {
    if s == "" then st else Run(Step(st, s[0]), s[1..])
  }

  function Finish(st: Splitter): Option<seq<string>> {
    match st.mode
    case Gap => Some(st.words)
    case InWord => Some(st.words + [st.cur])
    case _ => None
  }

  /** `shlex.split(s)`, which raises ValueError where this gives nothing. */
  function ShlexSplit(s: string): Option<seq<string>> {
    Finish(Run(Splitter(Gap, "", []), s))
  }

  lemma {:induction false} RunConcat(st: Splitter, a: string, b: string)
    ensures Run(st, a + b) == Run(Run(st, a), b)
    decreases |a|
  {
    if a == "" {
      assert a + b == b;
    } else {
      assert (a + b)[1..] == a[1..] + b;
      RunConcat(Step(st, a[0]), a[1..], b);
    }
  }

  lemma RunOne(st: Splitter, c: char)
    ensures Run(st, [c]) == Step(st, c)
  {
    assert [c][1..] == "";
    assert Run(Step(st, c), "") == Step(st, c);
  }

  lemma RunTwo(st: Splitter, c: char, d: char)
    ensures Run(st, [c, d]) == Step(Step(st, c), d)
  {
    assert [c, d] == [c] + [d];
    RunConcat(st, [c], [d]);
    RunOne(st, c);
    RunOne(Step(st, c), d);
  }

  /** A word, or the gap in front of one. */
  predicate IsOpen(st: Splitter) {
    st.mode == InWord || (st.mode == Gap && st.cur == "")
  }

  lemma {:induction false} PlainRun(st: Splitter, s: string)
    requires IsOpen(st) && s != ""
    requires forall i :: 0 <= i < |s| ==> !IsWhitespace(s[i]) && s[i] != '\\' && s[i] != '\'' && s[i] != '"'
    ensures Run(st, s) == Splitter(InWord, st.cur + s, st.words)
    decreases |s|
  {
    var next := Splitter(InWord, st.cur + [s[0]], st.words);
    assert Step(st, s[0]) == next && s == [s[0]] + s[1..];
    if |s| > 1 {
      PlainRun(next, s[1..]);
      assert st.cur + [s[0]] + s[1..] == st.cur + s;
    } else {
      assert Run(next, s[1..]) == next;
    }
  }

  /** The five characters that stand for an inner single quote. */
  lemma QuoteBetweenQuotes(st: Splitter, q: char, d: char)
    requires st.mode == Single && q == '\'' && d == '"'
    ensures Run(st, [q, d] + ([q, d] + [q])) == st.(cur := st.cur + [q])
  {
    var inside, after := st.(mode := Double), Splitter(InWord, st.cur + [q], st.words);
    RunConcat(st, [q, d], [q, d] + [q]);
    RunTwo(st, q, d);
    assert Step(Step(st, q), d) == inside;
    RunConcat(inside, [q, d], [q]);
    RunTwo(inside, q, d);
    assert Step(Step(inside, q), d) == after;
    RunOne(after, q);
  }

  lemma {:induction false} EscapeRun(st: Splitter, s: string)
    requires st.mode == Single
    ensures Run(st, EscapeSingle(s)) == st.(cur := st.cur + s)
    decreases |s|
  {
    if s == "" {
      assert st.cur + s == st.cur;
    } else {
      var piece := if s[0] == '\'' then QUOTED_QUOTE else [s[0]];
      var next := st.(cur := st.cur + [s[0]]);
      RunConcat(st, piece, EscapeSingle(s[1..]));
      if s[0] == '\'' {
        assert QUOTED_QUOTE == ['\'', '"'] + (['\'', '"'] + ['\'']);
        QuoteBetweenQuotes(st, '\'', '"');
      } else {
        RunOne(st, s[0]);
      }
      EscapeRun(next, s[1..]);
      assert st.cur + [s[0]] + s[1..] == st.cur + s;
    }
  }

  /** A quoted text adds exactly its own characters to the current word. */
  lemma QuoteRun(st: Splitter, a: string)
    requires IsOpen(st)
    ensures Run(st, Quote(a)) == Splitter(InWord, st.cur + a, st.words)
  {
    if a == "" {
      assert Quote(a) == ['\'', '\''];
      RunTwo(st, '\'', '\'');
      assert st.cur + a == st.cur;
    } else if AllSafe(a) {
      PlainRun(st, a);
    } else {
      var inside, end := st.(mode := Single), Splitter(Single, st.cur + a, st.words);
      RunConcat(st, "'" + EscapeSingle(a), "'");
      RunConcat(st, "'", EscapeSingle(a));
      RunOne(st, '\'');
      assert Step(st, '\'') == inside;
      EscapeRun(inside, a);
      RunOne(end, '\'');
    }
  }

  lemma WordThenBlank(st: Splitter, a: string)
    requires st.mode == Gap && st.cur == ""
    ensures Run(st, Quote(a)) == Splitter(InWord, a, st.words)
    ensures Run(st, Quote(a) + " ") == Splitter(Gap, "", st.words + [a])
  {
    QuoteRun(st, a);
    assert "" + a == a;
    RunConcat(st, Quote(a), " ");
    RunOne(Splitter(InWord, a, st.words), ' ');
  }

  lemma {:induction false} QuotedArgsRun(st: Splitter, args: seq<string>)
    requires st.mode == Gap && st.cur == ""
    ensures Finish(Run(st, Join(" ", QuoteAll(args)))) == Some(st.words + args)
    decreases |args|
  {
    if args == [] {
      assert st.words + args == st.words;
    } else {
      WordThenBlank(st, args[0]);
      JoinQuoted(args);
      if |args| == 1 {
        assert args == [args[0]];
      } else {
        var rest, next := args[1..], Splitter(Gap, "", st.words + [args[0]]);
        RunConcat(st, Quote(args[0]) + " ", Join(" ", QuoteAll(rest)));
        QuotedArgsRun(next, rest);
        FirstThenRest(st.words, args);
      }
    }
  }

  lemma FirstThenRest(words: seq<string>, args: seq<string>)
    requires args != []
    ensures words + [args[0]] + args[1..] == words + args
  {
  }

  /** Splitting quoted and joined arguments gives back the arguments. */
  lemma SplitJoined(args: seq<string>)
    ensures ShlexSplit(Join(" ", QuoteAll(args))) == Some(args)
  {
    QuotedArgsRun(Splitter(Gap, "", []), args);
    assert [] + args == args;
  }

  /** The command of `execute` reaches `/bin/sh -c` as one word, whatever characters it holds. */
  lemma DockerExecuteWords(command: string)
    ensures ShlexSplit("/bin/sh -c " + Quote(command)) == Some(["/bin/sh", "-c", command])
  {
    SplitJoined(["/bin/sh", "-c", command]);
    JoinThree("/bin/sh", "-c", command);
    SafeWords();
    ShellPrefix(Quote(command));
  }

  lemma JoinThree(a: string, b: string, c: string)
    ensures Join(" ", QuoteAll([a, b, c])) == Quote(a) + " " + (Quote(b) + " " + Quote(c))
  {
    JoinQuoted([a, b, c]);
    JoinQuoted([b, c]);
    JoinQuoted([c]);
    assert [a, b, c][1..] == [b, c] && [b, c][1..] == [c];
  }

  lemma ShellPrefix(quoted: string)
    ensures "/bin/sh" + " " + ("-c" + " " + quoted) == "/bin/sh -c " + quoted
  {
  }

  lemma SafeWords()
    ensures Quote("/bin/sh") == "/bin/sh" && Quote("-c") == "-c"
  {
  }
}
