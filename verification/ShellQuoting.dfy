/**
  Building shell text from argument vectors: `shlex.quote` and the nested commands of
  score/itf/plugins/docker.py, score/itf/plugins/qemu/qemu_target.py and score/itf/core/com/ssh.py.

  The scanner follows the POSIX rules for words alone. Where `$'...'`, quotes inside a command
  substitution or here-documents move the end of a word, a binary path is outside of its reach.
 */
module ShellQuoting {
  import opened Text
  import opened ShellGrammar

  // ---- shlex.quote ----

  /** The characters that `shlex.quote` leaves alone (`[\w@%+=:,./-]`, ASCII only). */
  predicate IsSafe(c: char) {
    'a' <= c <= 'z' || 'A' <= c <= 'Z' || '0' <= c <= '9' || c == '_'
    || c == '@' || c == '%' || c == '+' || c == '=' || c == ':' || c == ',' || c == '.' || c == '/' || c == '-'
  }

  predicate AllSafe(s: string) {
    forall i :: 0 <= i < |s| ==> IsSafe(s[i])
  }

  const UPPER := "ABCDEFGHIJKLMNOPQRSTUVWXYZ"
  const LOWER := "abcdefghijklmnopqrstuvwxyz"
  const DIGITS := "0123456789"

  lemma SafeIsListed(c: char)
    ensures 'A' <= c <= 'Z' <==> c in UPPER
    ensures 'a' <= c <= 'z' <==> c in LOWER
    ensures '0' <= c <= '9' <==> c in DIGITS
    ensures IsSafe(c) <==> c in UPPER || c in LOWER || c in DIGITS || c in "_@%+=:,./-"
  {
  }

  const QUOTED_QUOTE := "'\"'\"'"

  function EscapeSingle(s: string): string {
    ReplaceChar(s, '\'', QUOTED_QUOTE)
  }

  function Quote(s: string): string {
    if s == "" then "''"
    else if AllSafe(s) then s
    else "'" + EscapeSingle(s) + "'"
  }

  /** What `shlex.quote` gives: the text itself when all its characters are safe, and otherwise a text in single quotes. */
  lemma QuoteForm(s: string)
    ensures Quote(s) == s <==> s != "" && forall i :: 0 <= i < |s| ==> IsSafe(s[i])
    ensures Quote(s) != s ==> |Quote(s)| >= 2 && Quote(s)[0] == '\'' && Quote(s)[|Quote(s)| - 1] == '\''
    ensures '\'' !in s && Quote(s) != s ==> Quote(s) == "'" + s + "'"
  {
    EscapeLength(s);
    if '\'' !in s {
      NothingToEscape(s);
    }
  }

  lemma {:induction false} EscapeLength(s: string)
    ensures |EscapeSingle(s)| >= |s|
  {
    if s != "" {
      EscapeLength(s[1..]);
    }
  }

  lemma {:induction false} NothingToEscape(s: string)
    requires '\'' !in s
    ensures EscapeSingle(s) == s
  {
    if s != "" {
      NothingToEscape(s[1..]);
      assert s[0] in s && s == [s[0]] + s[1..];
    }
  }

  /** The five characters that stand for an inner single quote bring the scanner back inside quotes. */
  lemma QuotedQuoteScan(st: State)
    requires st.mode == Single
    ensures Run(st, QUOTED_QUOTE) == Append(st, Lit('\''))
  {
    assert QUOTED_QUOTE == ['\'', '"'] + (['\'', '"'] + ['\'']);
    QuoteBetweenQuotes(st, '\'', '"');
  }

  /** Close, open with the other quote, the quote itself, close, open again. */
  lemma QuoteBetweenQuotes(st: State, q: char, d: char)
    requires st.mode == Single && q == '\'' && d == '"'
    ensures Run(st, [q, d] + ([q, d] + [q])) == Append(st, Lit(q))
  {
    var inside, after := st.(mode := Double), Append(st, Lit(q)).(mode := InWord);
    RunConcat(st, [q, d], [q, d] + [q]);
    RunTwo(st, q, d);
    assert Step(Step(st, q), d) == inside;
    RunConcat(inside, [q, d], [q]);
    RunTwo(inside, q, d);
    assert Step(Step(inside, q), d) == after;
    RunOne(after, q, [q]);
  }

  lemma {:induction false} EscapeSingleScan(st: State, s: string)
    requires st.mode == Single
    ensures Run(st, EscapeSingle(s)) == State(Single, st.cur + Lits(s), st.toks)
    decreases |s|
  {
    if s == "" {
      assert st.cur + Lits(s) == st.cur;
    } else {
      var piece := if s[0] == '\'' then QUOTED_QUOTE else [s[0]];
      var next := Append(st, Lit(s[0]));
      RunConcat(st, piece, EscapeSingle(s[1..]));
      if s[0] == '\'' {
        QuotedQuoteScan(st);
      } else {
        assert Run(st, piece) == Run(next, piece[1..]) == next;
      }
      EscapeSingleScan(next, s[1..]);
      LitsCons(s);
      assert next.cur + Lits(s[1..]) == st.cur + Lits(s);
    }
  }

  /** Outside of quotes, a quoted argument adds exactly its own characters to the current word. */
  lemma QuoteScan(st: State, a: string)
    requires IsOpen(st)
    ensures Run(st, Quote(a)) == State(InWord, st.cur + Lits(a), st.toks)
  {
    if a == "" {
      RunTwo(st, '\'', '\'');
      assert Quote(a) == ['\'', '\''];
      assert st.cur + Lits(a) == st.cur;
    } else if AllSafe(a) {
      LiteralText(st, a);
    } else {
      WrappedScan(st, a);
    }
  }

  lemma WrappedScan(st: State, a: string)
    requires IsOpen(st)
    ensures Run(st, "'" + EscapeSingle(a) + "'") == State(InWord, st.cur + Lits(a), st.toks)
  {
    var inside, end := st.(mode := Single), State(Single, st.cur + Lits(a), st.toks);
    RunConcat(st, "'" + EscapeSingle(a), "'");
    RunConcat(st, "'", EscapeSingle(a));
    RunOne(st, '\'', "'");
    assert Step(st, '\'') == inside;
    EscapeSingleScan(inside, a);
    RunOne(end, '\'', "'");
  }

  lemma RunOne(st: State, c: char, s: string)
    requires s == [c]
    ensures Run(st, s) == Step(st, c)
  {
    assert s[1..] == "";
    assert Run(Step(st, c), s[1..]) == Step(st, c);
  }

  function ArgWords(args: seq<string>): seq<Token> {
    seq(|args|, i requires 0 <= i < |args| => Word(Lits(args[i])))
  }

  function QuoteAll(args: seq<string>): seq<string> {
    seq(|args|, i requires 0 <= i < |args| => Quote(args[i]))
  }

  lemma RunBlank(st: State, blank: string)
    requires blank == " "
    ensures Run(st, blank) == Step(st, ' ')
  {
    assert blank[1..] == "";
  }

  lemma QuotedArgScan(st: State, a: string)
    requires st.mode == Between && st.cur == []
    ensures Run(st, Quote(a)) == State(InWord, Lits(a), st.toks)
    ensures Run(st, Quote(a) + " ") == State(Between, [], st.toks + [Word(Lits(a))])
  {
    QuoteScan(st, a);
    assert st.cur + Lits(a) == Lits(a);
    RunConcat(st, Quote(a), " ");
    RunBlank(State(InWord, Lits(a), st.toks), " ");
  }

  lemma {:induction false} QuotedArgsScan(st: State, args: seq<string>)
    requires st.mode == Between && st.cur == []
    ensures Finish(Run(st, Join(" ", QuoteAll(args)))) == Some(st.toks + ArgWords(args))
    decreases |args|
  {
    if args == [] {
      assert st.toks + ArgWords(args) == st.toks;
    } else {
      var word := Word(Lits(args[0]));
      QuotedArgScan(st, args[0]);
      JoinQuoted(args);
      if |args| == 1 {
        assert st.toks + ArgWords(args) == st.toks + [word];
      } else {
        var rest := Join(" ", QuoteAll(args[1..]));
        var next := State(Between, [], st.toks + [word]);
        RunConcat(st, Quote(args[0]) + " ", rest);
        QuotedArgsScan(next, args[1..]);
        ArgWordsCons(st.toks, args);
        assert Run(st, Join(" ", QuoteAll(args))) == Run(next, rest);
      }
    }
  }

  lemma ArgWordsCons(toks: seq<Token>, args: seq<string>)
    requires args != []
    ensures toks + [Word(Lits(args[0]))] + ArgWords(args[1..]) == toks + ArgWords(args)
  {
  }

  lemma JoinQuoted(args: seq<string>)
    requires args != []
    ensures Join(" ", QuoteAll(args))
         == if |args| == 1 then Quote(args[0]) else Quote(args[0]) + " " + Join(" ", QuoteAll(args[1..]))
  {
    assert QuoteAll(args)[1..] == QuoteAll(args[1..]);
  }

  // ---- the command line of an asynchronous run ----

  function Command(binaryPath: string, args: seq<string>): string {
    binaryPath + " " + Join(" ", QuoteAll(args))
  }

  /** Exactly when shell text ends outside of quotes, escapes and comments do arguments reach its last command. */
  lemma CommandTokens(binaryPath: string, args: seq<string>)
    requires args != []
    ensures (&& Scan(binaryPath).Some?
             && Scan(Command(binaryPath, args)) == Some(Scan(binaryPath).value + ArgWords(args)))
        <==> IsOpen(Run(START, binaryPath))
  {
    var st := Run(START, binaryPath);
    var tail := Join(" ", QuoteAll(args));
    RunConcat(START, binaryPath + " ", tail);
    RunConcat(START, binaryPath, " ");
    RunBlank(st, " ");
    BetweenHasNoWord(START, binaryPath);
    if IsOpen(st) {
      QuotedArgsScan(Step(st, ' '), args);
      assert Step(st, ' ').toks == Scan(binaryPath).value;
    } else if st.mode == Comment {
      CommentSwallows(st, tail);
      var r := Run(st, tail);
      assert ArgWords(args)[0] == (st.toks + ArgWords(args))[|st.toks|];
      if Finish(r).Some? && r != st {
        assert Finish(r).value[|st.toks|] == Op('\n');
      }
    }
  }

  /** No arguments at all: the trailing blank is harmless in every text that ends a token list. */
  lemma CommandWithoutArgs(binaryPath: string)
    ensures Scan(binaryPath).Some? ==> Scan(Command(binaryPath, [])) == Scan(binaryPath)
  {
    var st := Run(START, binaryPath);
    assert Join(" ", QuoteAll([])) == "";
    assert Command(binaryPath, []) == binaryPath + " ";
    RunConcat(START, binaryPath, " ");
    RunBlank(st, " ");
  }

  predicate NoWordStarted(st: State) {
    st.mode == Between || st.mode == EscBetween || st.mode == Comment ==> st.cur == []
  }

  lemma {:induction false} BetweenHasNoWord(st: State, s: string)
    requires NoWordStarted(st)
    ensures NoWordStarted(Run(st, s))
    decreases |s|
  {
    if s != "" {
      BetweenHasNoWord(Step(st, s[0]), s[1..]);
    }
  }

  // ---- fixed command prefixes ----

  function PlainWord(s: string): Token {
    Word(Lits(s))
  }

  /** Text that scans to `toks` and leaves the scanner between two tokens. */
  ghost predicate Phrase(s: string, toks: seq<Token>) {
    Run(START, s) == State(Between, [], toks)
  }

  lemma PhraseConcat(a: string, ta: seq<Token>, b: string, tb: seq<Token>)
    requires Phrase(a, ta) && Phrase(b, tb)
    ensures Phrase(a + b, ta + tb)
  {
    RunConcat(START, a, b);
    RunPrepend(ta, START, b);
    assert ta + [] == ta;
  }

  /** Each word followed by one blank. */
  function Spaced(words: seq<string>): string {
    if words == [] then "" else words[0] + " " + Spaced(words[1..])
  }

  function PlainWords(words: seq<string>): seq<Token> {
    seq(|words|, i requires 0 <= i < |words| => PlainWord(words[i]))
  }

  predicate IsPlainWord(w: string) {
    w != "" && forall i :: 0 <= i < |w| ==> IsPlain(w[i])
  }

  lemma {:induction false} SpacedPhrase(words: seq<string>)
    requires forall i :: 0 <= i < |words| ==> IsPlainWord(words[i])
    ensures Phrase(Spaced(words), PlainWords(words))
  {
    if words != [] {
      var w := words[0];
      RunConcat(START, w, " ");
      LiteralText(START, w);
      RunBlank(Run(START, w), " ");
      assert [] + Lits(w) == Lits(w);
      assert Phrase(w + " ", [PlainWord(w)]);
      SpacedPhrase(words[1..]);
      PhraseConcat(w + " ", [PlainWord(w)], Spaced(words[1..]), PlainWords(words[1..]));
      assert PlainWords(words) == [PlainWord(w)] + PlainWords(words[1..]);
    }
  }

  /** Operators, followed by one blank. */
  lemma {:induction false} OperatorsPhrase(ops: string)
    requires forall i :: 0 <= i < |ops| ==> IsOperator(ops[i])
    ensures Phrase(ops + " ", seq(|ops|, i requires 0 <= i < |ops| => Op(ops[i])))
  {
    if ops == "" {
      assert ops + " " == " ";
      RunBlank(START, " ");
    } else {
      var rest := ops[1..];
      var toks := seq(|rest|, i requires 0 <= i < |rest| => Op(rest[i]));
      OperatorsPhrase(rest);
      assert [ops[0]][1..] == "";
      assert Phrase([ops[0]], [Op(ops[0])]) by {
        assert Run(START, [ops[0]]) == Run(Step(START, ops[0]), "");
      }
      PhraseConcat([ops[0]], [Op(ops[0])], rest + " ", toks);
      assert [ops[0]] + (rest + " ") == ops + " ";
      assert [Op(ops[0])] + toks == seq(|ops|, i requires 0 <= i < |ops| => Op(ops[i]));
    }
  }

  lemma RunTwo(st: State, c: char, d: char)
    ensures Run(st, [c, d]) == Step(Step(st, c), d)
  {
    assert [c, d][1..] == [d] && [d][1..] == [];
    assert Run(Step(st, c), [d]) == Run(Step(Step(st, c), d), []);
  }

  /** A character that the shell still expands, on its own. */
  lemma ActivePhrase(c: char)
    requires ExpandsUnquoted(c)
    ensures Phrase([c, ' '], [Word([Active(c)])])
  {
    RunTwo(START, c, ' ');
    assert Step(START, c) == State(InWord, [Active(c)], []);
  }

  /** Two such characters and an operator. */
  lemma ActivePairPhrase(c: char, d: char, op: char)
    requires ExpandsUnquoted(c) && ExpandsUnquoted(d) && IsOperator(op)
    ensures Phrase([c, d] + [op, ' '], [Word([Active(c), Active(d)]), Op(op)])
  {
    RunConcat(START, [c, d], [op, ' ']);
    RunTwo(START, c, d);
    var one, two := State(InWord, [Active(c)], []), State(InWord, [Active(c), Active(d)], []);
    assert Step(START, c) == one;
    assert Step(one, d) == two;
    OperatorThenBlank(two, op);
    assert [] + [Word(two.cur), Op(op)] == [Word(two.cur), Op(op)];
  }

  lemma OperatorThenBlank(st: State, op: char)
    requires st.mode == InWord && IsOperator(op)
    ensures Run(st, [op, ' ']) == State(Between, [], st.toks + [Word(st.cur), Op(op)])
  {
    RunTwo(st, op, ' ');
  }

  /** A one-letter word followed by an operator. */
  lemma LetterOperatorPhrase(a: char, op: char)
    requires IsPlain(a) && IsOperator(op)
    ensures Phrase([a, op], [Word([Lit(a)]), Op(op)])
  {
    RunTwo(START, a, op);
    var st := State(InWord, [Lit(a)], []);
    assert Step(START, a) == st;
    assert Step(st, op).toks == [Word(st.cur), Op(op)];
  }

  /** `2>&1; ` and the like: a letter and an operator, an operator and a letter, an operator. */
  lemma RedirectPhrase(a: char, op1: char, op2: char, b: char, op3: char)
    requires IsPlain(a) && IsPlain(b) && IsOperator(op1) && IsOperator(op2) && IsOperator(op3)
    ensures Phrase([a, op1] + ([op2, b] + [op3, ' ']), RedirectTokens(a, op1, op2, b, op3))
  {
    LetterOperatorPhrase(a, op1);
    RunConcat(START, [op2, b], [op3, ' ']);
    RunTwo(START, op2, b);
    var st := State(InWord, [Lit(b)], [Op(op2)]);
    assert Step(Step(START, op2), b) == st;
    RunTwo(st, op3, ' ');
    assert Step(st, op3).toks == [Op(op2), Word(st.cur), Op(op3)];
    assert Phrase([op2, b] + [op3, ' '], [Op(op2), Word([Lit(b)]), Op(op3)]);
    PhraseConcat([a, op1], [Word([Lit(a)]), Op(op1)], [op2, b] + [op3, ' '], [Op(op2), Word([Lit(b)]), Op(op3)]);
  }

  function RedirectTokens(a: char, op1: char, op2: char, b: char, op3: char): seq<Token> {
    [Word([Lit(a)]), Op(op1)] + [Op(op2), Word([Lit(b)]), Op(op3)]
  }

  /** `2>&1; ` */
  function ErrorToOutput(): string {
    ['2', '>'] + (['&', '1'] + [';', ' '])
  }

  function ErrorToOutputTokens(): seq<Token> {
    RedirectTokens('2', '>', '&', '1', ';')
  }

  /** `[ -r /etc/profile ] && ` */
  function TestProfile(): string {
    ['[', ' '] + (Spaced(["-r", "/etc/profile", "]"]) + ("&&" + " "))
  }

  function TestProfileTokens(): seq<Token> {
    [Word([Active('[')])] + (PlainWords(["-r", "/etc/profile", "]"]) + [Op('&'), Op('&')])
  }

  lemma TestProfilePhrase()
    ensures Phrase(TestProfile(), TestProfileTokens())
  {
    ActivePhrase('[');
    var w := ["-r", "/etc/profile", "]"];
    SpacedPhrase(w);
    AndPhrase();
    PhraseConcat(Spaced(w), PlainWords(w), "&&" + " ", [Op('&'), Op('&')]);
    PhraseConcat(['[', ' '], [Word([Active('[')])], Spaced(w) + ("&&" + " "), PlainWords(w) + [Op('&'), Op('&')]);
  }

  lemma AndPhrase()
    ensures Phrase("&&" + " ", [Op('&'), Op('&')])
  {
    OperatorsPhrase("&&");
    assert seq(2, i requires 0 <= i < 2 => Op("&&"[i])) == [Op('&'), Op('&')];
  }

  /** `. /etc/profile >/dev/null 2>&1; ` */
  function SourceProfile(): string {
    Spaced([".", "/etc/profile"]) + (">" + Spaced(["/dev/null"])) + ErrorToOutput()
  }

  function SourceProfileTokens(): seq<Token> {
    PlainWords([".", "/etc/profile"]) + ([Op('>')] + PlainWords(["/dev/null"]))
    + ErrorToOutputTokens()
  }

  /** Words whose output goes to a file. */
  lemma ToFilePhrase(words: seq<string>, file: string)
    requires forall i :: 0 <= i < |words| ==> IsPlainWord(words[i])
    requires IsPlainWord(file)
    ensures Phrase(Spaced(words) + (">" + Spaced([file])), PlainWords(words) + ([Op('>')] + PlainWords([file])))
  {
    SpacedPhrase(words);
    SpacedPhrase([file]);
    GreaterPhrase();
    PhraseConcat(">", [Op('>')], Spaced([file]), PlainWords([file]));
    PhraseConcat(Spaced(words), PlainWords(words), ">" + Spaced([file]), [Op('>')] + PlainWords([file]));
  }

  lemma GreaterPhrase()
    ensures Phrase(">", [Op('>')])
  {
    assert ">"[1..] == "";
    assert Run(START, ">") == Run(Step(START, '>'), "");
  }

  lemma SourceProfilePhrase()
    ensures Phrase(SourceProfile(), SourceProfileTokens())
  {
    var w, file := [".", "/etc/profile"], "/dev/null";
    assert IsPlainWord(w[0]) && IsPlainWord(w[1]) && IsPlainWord(file);
    ToFilePhrase(w, file);
    RedirectPhrase('2', '>', '&', '1', ';');
    PhraseConcat(Spaced(w) + (">" + Spaced([file])), PlainWords(w) + ([Op('>')] + PlainWords([file])),
                 ErrorToOutput(), ErrorToOutputTokens());
  }

  /** `[ -r /etc/profile ] && . /etc/profile >/dev/null 2>&1; ` */
  function ProfilePrefix(): string {
    TestProfile() + SourceProfile()
  }

  function ProfileTokens(): seq<Token> {
    TestProfileTokens() + SourceProfileTokens()
  }

  lemma ProfilePhrase()
    ensures Phrase(ProfilePrefix(), ProfileTokens())
  {
    TestProfilePhrase();
    SourceProfilePhrase();
    PhraseConcat(TestProfile(), TestProfileTokens(), SourceProfile(), SourceProfileTokens());
  }

  /** `echo $$; ` */
  function EchoPid(): string {
    Spaced(["echo"]) + (['$', '$'] + [';', ' '])
  }

  function EchoPidTokens(): seq<Token> {
    PlainWords(["echo"]) + [Word([Active('$'), Active('$')]), Op(';')]
  }

  lemma EchoPidPhrase()
    ensures Phrase(EchoPid(), EchoPidTokens())
  {
    var w := ["echo"];
    SpacedPhrase(w);
    ActivePairPhrase('$', '$', ';');
    PhraseConcat(Spaced(w), PlainWords(w), ['$', '$'] + [';', ' '], [Word([Active('$'), Active('$')]), Op(';')]);
  }

  // ---- the three shell command lines ----

  /** A prefix that ends between two tokens, followed by one quoted text. */
  lemma QuotedAfter(prefix: string, toks: seq<Token>, inner: string)
    requires Phrase(prefix, toks)
    ensures Scan(prefix + Quote(inner)) == Some(toks + [PlainWord(inner)])
  {
    RunConcat(START, prefix, Quote(inner));
    QuoteScan(State(Between, [], toks), inner);
    assert [] + Lits(inner) == Lits(inner);
  }

  /** `echo $$; exec /bin/bash -c ` */
  function DockerPrefix(): string {
    EchoPid() + Spaced(["exec", "/bin/bash", "-c"])
  }

  function DockerPrefixTokens(): seq<Token> {
    EchoPidTokens() + PlainWords(["exec", "/bin/bash", "-c"])
  }

  lemma DockerPrefixPhrase()
    ensures Phrase(DockerPrefix(), DockerPrefixTokens())
  {
    EchoPidPhrase();
    ExecBashWords();
    ThenThreeWords(EchoPid(), EchoPidTokens(), "exec", "/bin/bash", "-c");
  }

  lemma ExecBashWords()
    ensures IsPlainWord("exec") && IsPlainWord("/bin/bash") && IsPlainWord("-c")
  {
  }

  lemma ThenThreeWords(prefix: string, toks: seq<Token>, a: string, b: string, c: string)
    requires Phrase(prefix, toks) && IsPlainWord(a) && IsPlainWord(b) && IsPlainWord(c)
    ensures Phrase(prefix + Spaced([a, b, c]), toks + PlainWords([a, b, c]))
  {
    SpacedPhrase([a, b, c]);
    PhraseConcat(prefix, toks, Spaced([a, b, c]), PlainWords([a, b, c]));
  }

  /** score/itf/plugins/docker.py: the text given to the outer `bash -c`. */
  function DockerCommand(binaryPath: string, args: seq<string>): string {
    DockerPrefix() + Quote(Command(binaryPath, args))
  }

  /**
    The outer shell sees `exec /bin/bash -c` and the inner command as one literal word; the inner
    shell sees the tokens of the binary path followed by one literal word for each argument.
   */
  lemma DockerNested(binaryPath: string, args: seq<string>)
    ensures Scan(DockerCommand(binaryPath, args))
         == Some(DockerPrefixTokens() + [PlainWord(Command(binaryPath, args))])
    ensures IsOpen(Run(START, binaryPath)) ==> (
              && Scan(binaryPath).Some?
              && Scan(Command(binaryPath, args)) == Some(Scan(binaryPath).value + ArgWords(args)))
  {
    DockerPrefixPhrase();
    QuotedAfter(DockerPrefix(), DockerPrefixTokens(), Command(binaryPath, args));
    if IsOpen(Run(START, binaryPath)) {
      CommandScan(binaryPath, args);
    }
  }

  lemma CommandScan(binaryPath: string, args: seq<string>)
    requires IsOpen(Run(START, binaryPath))
    ensures Scan(binaryPath).Some?
    ensures Scan(Command(binaryPath, args)) == Some(Scan(binaryPath).value + ArgWords(args))
  {
    if args == [] {
      CommandWithoutArgs(binaryPath);
      assert Scan(binaryPath).value + ArgWords(args) == Scan(binaryPath).value;
    } else {
      CommandTokens(binaryPath, args);
    }
  }

  /** score/itf/core/com/ssh.py: `command_with_etc`. */
  function CommandWithEtc(cmd: string): string {
    Spaced(["sh", "-lc"]) + Quote(ProfilePrefix() + cmd)
  }

  /** Sourcing the profile first leaves the tokens of every command as they are, errors included. */
  lemma CommandWithEtcKeepsCommand(cmd: string)
    ensures Scan(CommandWithEtc(cmd)) == Some(PlainWords(["sh", "-lc"]) + [PlainWord(ProfilePrefix() + cmd)])
    ensures Scan(ProfilePrefix() + cmd)
         == match Scan(cmd) case Some(t) => Some(ProfileTokens() + t) case None => None
  {
    var w := ["sh", "-lc"];
    SpacedPhrase(w);
    QuotedAfter(Spaced(w), PlainWords(w), ProfilePrefix() + cmd);
    ProfilePhrase();
    ScanAfter(ProfilePrefix(), ProfileTokens(), cmd);
  }

  /** score/itf/plugins/qemu/qemu_target.py: the text inside the login shell. */
  function QemuInner(cwd: string, binaryPath: string, args: seq<string>): string {
    ProfilePrefix() + (EchoPid() + (ChangeDirectory(cwd) + Command(binaryPath, args)))
  }

  function QemuCommand(cwd: string, binaryPath: string, args: seq<string>): string {
    Spaced(["sh", "-lc"]) + Quote(QemuInner(cwd, binaryPath, args))
  }

  /** `cd <quoted directory> && ` */
  function ChangeDirectory(cwd: string): string {
    Spaced(["cd"]) + ((Quote(cwd) + " ") + ("&&" + " "))
  }

  function ChangeDirectoryTokens(cwd: string): seq<Token> {
    PlainWords(["cd"]) + ([PlainWord(cwd)] + [Op('&'), Op('&')])
  }

  lemma QuotedWordPhrase(a: string)
    ensures Phrase(Quote(a) + " ", [PlainWord(a)])
  {
    QuotedArgScan(START, a);
    assert [] + [PlainWord(a)] == [PlainWord(a)];
  }

  lemma ChangeDirectoryScan(cwd: string)
    ensures Phrase(ChangeDirectory(cwd), ChangeDirectoryTokens(cwd))
  {
    var w := ["cd"];
    SpacedPhrase(w);
    QuotedWordPhrase(cwd);
    AndPhrase();
    PhraseConcat(Quote(cwd) + " ", [PlainWord(cwd)], "&&" + " ", [Op('&'), Op('&')]);
    PhraseConcat(Spaced(w), PlainWords(w), (Quote(cwd) + " ") + ("&&" + " "), [PlainWord(cwd)] + [Op('&'), Op('&')]);
  }

  /**
    The SSH server's shell sees one literal word; the login shell sees the profile prefix, the
    PID echo, `cd` with the directory as one literal word, and then the command.
   */
  lemma QemuNested(cwd: string, binaryPath: string, args: seq<string>)
    ensures Scan(QemuCommand(cwd, binaryPath, args))
         == Some(PlainWords(["sh", "-lc"]) + [PlainWord(QemuInner(cwd, binaryPath, args))])
    ensures IsOpen(Run(START, binaryPath)) ==> (
              && Scan(binaryPath).Some?
              && Scan(QemuInner(cwd, binaryPath, args))
                 == Some(ProfileTokens() + (EchoPidTokens() + (ChangeDirectoryTokens(cwd)
                         + (Scan(binaryPath).value + ArgWords(args))))))
  {
    var w := ["sh", "-lc"];
    SpacedPhrase(w);
    QuotedAfter(Spaced(w), PlainWords(w), QemuInner(cwd, binaryPath, args));
    if IsOpen(Run(START, binaryPath)) {
      CommandScan(binaryPath, args);
      var cd := ChangeDirectory(cwd);
      ChangeDirectoryScan(cwd);
      ScanAfter(cd, ChangeDirectoryTokens(cwd), Command(binaryPath, args));
      EchoPidPhrase();
      ScanAfter(EchoPid(), EchoPidTokens(), cd + Command(binaryPath, args));
      ProfilePhrase();
      ScanAfter(ProfilePrefix(), ProfileTokens(), EchoPid() + (cd + Command(binaryPath, args)));
    }
  }

  // ---- the fixed texts, spelled out ----

  lemma FixedTexts()
    ensures EchoPid() == "echo $$; "
    ensures DockerPrefix() == "echo $$; exec /bin/bash -c "
  {
    Spaced1("echo");
    Spaced3("exec", "/bin/bash", "-c");
  }

  lemma FixedTestText()
    ensures TestProfile() == "[ -r /etc/profile ] && "
  {
    Spaced3("-r", "/etc/profile", "]");
  }

  lemma FixedSourceText()
    ensures SourceProfile() == ". /etc/profile >/dev/null 2>&1; "
  {
    Spaced2(".", "/etc/profile");
    Spaced1("/dev/null");
  }

  lemma FixedChangeDirectory(cwd: string)
    ensures ChangeDirectory(cwd) == "cd " + Quote(cwd) + " && "
  {
    Spaced1("cd");
  }

  lemma Spaced1(a: string)
    ensures Spaced([a]) == a + " "
  {
    assert Spaced([a]) == a + " " + Spaced([]);
  }

  lemma Spaced2(a: string, b: string)
    ensures Spaced([a, b]) == a + " " + (b + " ")
  {
    Spaced1(b);
    assert [a, b][1..] == [b];
  }

  lemma Spaced3(a: string, b: string, c: string)
    ensures Spaced([a, b, c]) == a + " " + (b + " " + (c + " "))
  {
    Spaced2(b, c);
    assert [a, b, c][1..] == [b, c];
  }
}
