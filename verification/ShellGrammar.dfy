/**
  The token scanner of the POSIX shell command language (IEEE Std 1003.1, sections 2.2.1
  escape character, 2.2.2 single quotes, 2.2.3 double quotes and 2.3 token recognition).

  The scanner is a state machine fed one character at a time. A word is kept after quote
  removal as a sequence of symbols: a literal character, or a character that the shell still
  interprets (a parameter, command, pathname, tilde or brace expansion).
 */
module ShellGrammar {
  import opened Text

  datatype Sym = Lit(ch: char) | Active(ch: char)

  datatype Token = Word(syms: seq<Sym>) | Op(ch: char)

  datatype Mode =
    | Between     // outside of any token
    | InWord      // inside a word, not quoted
    | Single      // inside '...'
    | Double      // inside "..."
    | EscBetween  // after an unquoted backslash that may start a word
    | EscWord     // after an unquoted backslash inside a word
    | EscDouble   // after a backslash inside "..."
    | Comment     // after an unquoted # at the start of a token

  datatype State = State(mode: Mode, cur: seq<Sym>, toks: seq<Token>)

  const START := State(Between, [], [])

  predicate IsBlank(c: char) {
    c == ' ' || c == '\t'
  }

  predicate IsOperator(c: char) {
    c == '|' || c == '&' || c == ';' || c == '<' || c == '>' || c == '(' || c == ')' || c == '\n'
  }

  predicate ExpandsInDouble(c: char) {
    c == '$' || c == '`'
  }

  predicate ExpandsUnquoted(c: char) {
    ExpandsInDouble(c) || c == '*' || c == '?' || c == '[' || c == '~' || c == '{'
  }

  /** The characters of each kind, listed. */
  lemma Characters(c: char)
    ensures IsBlank(c) <==> c in " \t"
    ensures IsOperator(c) <==> c in "|&;<>()\n"
    ensures ExpandsInDouble(c) <==> c in "$`"
    ensures ExpandsUnquoted(c) <==> c in "$`*?[~{"
    ensures IsSpecial(c) <==> c in " \t|&;<>()\n$`*?[~{\\'\""
  {
  }

  function Append(st: State, sym: Sym): State {
    State(st.mode, st.cur + [sym], st.toks)
  }

  /** An unquoted character that neither separates nor escapes. */
  function WordChar(st: State, c: char): State {
    if c == '\'' then st.(mode := Single)
    else if c == '"' then st.(mode := Double)
    else State(InWord, st.cur + [if ExpandsUnquoted(c) then Active(c) else Lit(c)], st.toks)
  }

  function Step(st: State, c: char): State {
    match st.mode
    case Between =>
      if IsBlank(c) then st
      else if c == '#' then st.(mode := Comment)
      else if c == '\\' then st.(mode := EscBetween)
      else if IsOperator(c) then st.(toks := st.toks + [Op(c)])
      else WordChar(st, c)
    case InWord =>
      if IsBlank(c) then State(Between, [], st.toks + [Word(st.cur)])
      else if c == '\\' then st.(mode := EscWord)
      else if IsOperator(c) then State(Between, [], st.toks + [Word(st.cur), Op(c)])
      else WordChar(st, c)
    case Single =>
      if c == '\'' then st.(mode := InWord) else Append(st, Lit(c))
    case Double =>
      if c == '"' then st.(mode := InWord)
      else if c == '\\' then st.(mode := EscDouble)
      else Append(st, if ExpandsInDouble(c) then Active(c) else Lit(c))
    case EscBetween =>
      if c == '\n' then st.(mode := Between) else State(InWord, st.cur + [Lit(c)], st.toks)
    case EscWord =>
      if c == '\n' then st.(mode := InWord) else State(InWord, st.cur + [Lit(c)], st.toks)
    case EscDouble =>
      if c == '\n' then st.(mode := Double)
      else if c == '\\' || c == '"' || ExpandsInDouble(c) then State(Double, st.cur + [Lit(c)], st.toks)
      else State(Double, st.cur + [Lit('\\'), Lit(c)], st.toks)
    case Comment =>
      if c == '\n' then State(Between, [], st.toks + [Op(c)]) else st
  }

  /**
    A backslash makes the next character literal, and joins lines; inside double quotes it does so only
    in front of a backslash, a double quote, `$` and a backquote, and stays otherwise.
   */
  lemma Escapes(st: State, c: char)
    requires c != '\n'
    ensures st.mode == Between || st.mode == InWord ==>
              Step(Step(st, '\\'), c) == State(InWord, st.cur + [Lit(c)], st.toks)
    ensures st.mode == Double ==>
              Step(Step(st, '\\'), c) == State(Double, st.cur + InDouble(c), st.toks)
    ensures st.mode == Between || st.mode == InWord || st.mode == Double ==> Step(Step(st, '\\'), '\n') == st
  {
  }

  function InDouble(c: char): seq<Sym> {
    if c in "\\\"$`" then [Lit(c)] else [Lit('\\'), Lit(c)]
  }

  function Run(st: State, s: string): State
    decreases |s|
  {
    if s == "" then st else Run(Step(st, s[0]), s[1..])
  }

  /** The tokens at the end of the input; none when a quote or an escape is left open. */
  function Finish(st: State): Option<seq<Token>> {
    match st.mode
    case Between => Some(st.toks)
    case Comment => Some(st.toks)
    case InWord => Some(st.toks + [Word(st.cur)])
    case _ => None
  }

  function Scan(s: string): Option<seq<Token>> {
    Finish(Run(START, s))
  }

  /** Outside of quotes, escapes and comments: what follows is scanned as fresh shell text. */
  predicate IsOpen(st: State) {
    st.mode == InWord || (st.mode == Between && st.cur == [])
  }

  function Lits(s: string): (r: seq<Sym>)
    ensures |r| == |s|
  {
    seq(|s|, i requires 0 <= i < |s| => Lit(s[i]))
  }

  lemma LitsCons(s: string)
    requires s != ""
    ensures Lits(s) == [Lit(s[0])] + Lits(s[1..])
  {
  }

  // ---- laws of the scanner ----

  lemma {:induction false} RunConcat(st: State, a: string, b: string)
    ensures Run(st, a + b) == Run(Run(st, a), b)
    decreases |a|
  {
    if a == "" {
      assert a + b == b;
    } else {
      assert (a + b)[1..] == a[1..] + b;
      RunConcat(Step(st, a[0]), a[1..], b);
    }
  }

  /** Tokens already scanned never change how the rest is scanned. */
  lemma {:induction false} RunPrepend(pre: seq<Token>, st: State, s: string)
    ensures Run(State(st.mode, st.cur, pre + st.toks), s)
         == var r := Run(st, s); State(r.mode, r.cur, pre + r.toks)
    decreases |s|
  {
    if s != "" {
      StepPrepend(pre, st, s[0]);
      RunPrepend(pre, Step(st, s[0]), s[1..]);
    }
  }

  lemma StepPrepend(pre: seq<Token>, st: State, c: char)
    ensures Step(State(st.mode, st.cur, pre + st.toks), c)
         == var r := Step(st, c); State(r.mode, r.cur, pre + r.toks)
  {
    assert pre + (st.toks + [Op(c)]) == pre + st.toks + [Op(c)];
    assert pre + (st.toks + [Word(st.cur)]) == pre + st.toks + [Word(st.cur)];
    assert pre + (st.toks + [Word(st.cur), Op(c)]) == pre + st.toks + [Word(st.cur), Op(c)];
  }

  /** Text that follows a finished prefix keeps the tokens that it has on its own. */
  lemma ScanAfter(pre: string, toks: seq<Token>, s: string)
    requires Run(START, pre) == State(Between, [], toks)
    ensures Scan(pre + s) == (match Scan(s) case Some(t) => Some(toks + t) case None => None)
  {
    RunConcat(START, pre, s);
    RunPrepend(toks, START, s);
    assert toks + [] == toks;
    var r := Run(START, s);
    assert toks + r.toks + [Word(r.cur)] == toks + (r.toks + [Word(r.cur)]);
  }

  lemma {:induction false} TokensGrow(st: State, s: string)
    ensures st.toks <= Run(st, s).toks
    decreases |s|
  {
    if s != "" {
      TokensGrow(Step(st, s[0]), s[1..]);
    }
  }

  /** Whatever follows an open comment, the next token it can produce is the end of the line. */
  lemma {:induction false} CommentSwallows(st: State, s: string)
    requires st.mode == Comment
    ensures var r := Run(st, s);
            r == st || (|st.toks| < |r.toks| && r.toks[|st.toks|] == Op('\n'))
    decreases |s|
  {
    if s != "" {
      if s[0] == '\n' {
        TokensGrow(Step(st, s[0]), s[1..]);
      } else {
        CommentSwallows(st, s[1..]);
      }
    }
  }

  /** Characters that stand for themselves anywhere outside of quotes. */
  predicate IsPlain(c: char) {
    !IsBlank(c) && !IsOperator(c) && !ExpandsUnquoted(c) && c != '\\' && c != '\'' && c != '"' && c != '#'
  }

  // ---- text that is one literal word without any quoting ----

  /** Nothing in the text means anything to the shell; a # may only not be the first character of a token. */
  predicate IsLiteralAfter(mode: Mode, s: string) {
    && (mode == Between && s != "" ==> s[0] != '#')
    && forall i :: 0 <= i < |s| ==> !IsSpecial(s[i])
  }

  lemma {:induction false} LiteralText(st: State, s: string)
    requires IsOpen(st) && s != "" && IsLiteralAfter(st.mode, s)
    ensures Run(st, s) == State(InWord, st.cur + Lits(s), st.toks)
    decreases |s|
  {
    var next := Step(st, s[0]);
    assert next == State(InWord, st.cur + [Lit(s[0])], st.toks);
    LitsCons(s);
    if |s| == 1 {
      assert s[1..] == "";
    } else {
      LiteralText(next, s[1..]);
      assert st.cur + [Lit(s[0])] + Lits(s[1..]) == st.cur + Lits(s);
    }
  }

  /** The characters that mean something to the shell wherever they stand unquoted. */
  predicate IsSpecial(c: char) {
    !IsPlain(c) && c != '#'
  }

  function Specials(s: string): nat {
    if s == "" then 0 else (if IsSpecial(s[0]) then 1 else 0) + Specials(s[1..])
  }

  lemma {:induction false} SpecialsConcat(a: string, b: string)
    ensures Specials(a + b) == Specials(a) + Specials(b)
  {
    if a == "" {
      assert a + b == b;
    } else {
      assert (a + b)[1..] == a[1..] + b;
      SpecialsConcat(a[1..], b);
    }
  }

  lemma {:induction false} LiteralHasNoSpecials(s: string)
    ensures Specials(s) == 0 <==> forall i :: 0 <= i < |s| ==> !IsSpecial(s[i])
  {
    if s != "" {
      LiteralHasNoSpecials(s[1..]);
      assert s == [s[0]] + s[1..];
    }
  }

  /** The number of special characters that became literal ones. */
  function Quoted(syms: seq<Sym>): nat {
    if syms == [] then 0
    else Quoted(syms[..|syms| - 1]) + (if syms[|syms| - 1].Lit? && IsSpecial(syms[|syms| - 1].ch) then 1 else 0)
  }

  function QuotedIn(toks: seq<Token>): nat {
    if toks == [] then 0
    else QuotedIn(toks[..|toks| - 1]) + (match toks[|toks| - 1] case Word(syms) => Quoted(syms) case Op(_) => 0)
  }

  function Pending(mode: Mode): nat {
    if mode == EscDouble then 1 else 0
  }

  /** Those found so far; a backslash inside double quotes may still become one. */
  function Weight(st: State): nat {
    QuotedIn(st.toks) + Quoted(st.cur) + Pending(st.mode)
  }

  lemma QuotedSnoc(syms: seq<Sym>, x: Sym)
    ensures Quoted(syms + [x]) == Quoted(syms) + (if x.Lit? && IsSpecial(x.ch) then 1 else 0)
  {
    assert (syms + [x])[..|syms|] == syms;
  }

  lemma QuotedInSnoc(toks: seq<Token>, syms: seq<Sym>, op: char)
    ensures QuotedIn(toks + [Word(syms)]) == QuotedIn(toks) + Quoted(syms)
    ensures QuotedIn(toks + [Op(op)]) == QuotedIn(toks)
    ensures QuotedIn(toks + [Word(syms), Op(op)]) == QuotedIn(toks) + Quoted(syms)
  {
    assert (toks + [Word(syms)])[..|toks|] == toks && (toks + [Op(op)])[..|toks|] == toks;
    assert (toks + [Word(syms), Op(op)])[..|toks| + 1] == toks + [Word(syms)];
  }

  lemma WeightOf(mode: Mode, cur: seq<Sym>, toks: seq<Token>, x: Sym)
    ensures Weight(State(mode, cur + [x], toks))
         == QuotedIn(toks) + Quoted(cur) + (if x.Lit? && IsSpecial(x.ch) then 1 else 0) + Pending(mode)
  {
    QuotedSnoc(cur, x);
  }

  /** A special character yields at most one, and other characters none. */
  lemma StepWeight(st: State, c: char)
    ensures Weight(Step(st, c)) <= Weight(st) + (if IsSpecial(c) then 1 else 0)
  {
    match st.mode {
      case EscDouble => EscDoubleWeight(st, c);
      case Double => WeightOf(Double, st.cur, st.toks, if ExpandsInDouble(c) then Active(c) else Lit(c));
      case Comment => QuotedInSnoc(st.toks, st.cur, c);
      case Between => OpenWeight(st, c);
      case InWord => OpenWeight(st, c);
      case Single => WeightOf(Single, st.cur, st.toks, Lit(c));
      case EscBetween => WeightOf(InWord, st.cur, st.toks, Lit(c));
      case EscWord => WeightOf(InWord, st.cur, st.toks, Lit(c));
    }
  }

  lemma EscDoubleWeight(st: State, c: char)
    requires st.mode == EscDouble
    ensures Weight(Step(st, c)) <= Weight(st) + (if IsSpecial(c) then 1 else 0)
  {
    var cur := st.cur + [Lit('\\')];
    WeightOf(Double, st.cur, st.toks, Lit(c));
    QuotedSnoc(st.cur, Lit('\\'));
    WeightOf(Double, cur, st.toks, Lit(c));
    assert cur + [Lit(c)] == st.cur + [Lit('\\'), Lit(c)];
  }

  /** The end of a word, or an operator. */
  lemma TokenWeight(st: State, toks: seq<Token>, op: char)
    requires st.mode == Between || st.mode == InWord
    requires toks in {st.toks + [Word(st.cur)], st.toks + [Op(op)], st.toks + [Word(st.cur), Op(op)]}
    ensures QuotedIn(toks) <= Weight(st)
    ensures st.mode == Between && toks == st.toks + [Op(op)] ==> QuotedIn(toks) == QuotedIn(st.toks)
  {
    QuotedInSnoc(st.toks, st.cur, op);
  }

  /** Outside of quotes no character yields one. */
  lemma OpenWeight(st: State, c: char)
    requires st.mode == Between || st.mode == InWord
    ensures Weight(Step(st, c)) <= Weight(st)
  {
    if IsBlank(c) || IsOperator(c) {
      TokenWeight(st, st.toks + [Word(st.cur)], c);
      TokenWeight(st, st.toks + [Op(c)], c);
      TokenWeight(st, st.toks + [Word(st.cur), Op(c)], c);
      assert Quoted([]) == 0;
    } else if c == '\\' || (c == '#' && st.mode == Between) {
    } else {
      assert Step(st, c) == WordChar(st, c);
      WeightOf(InWord, st.cur, st.toks, if ExpandsUnquoted(c) then Active(c) else Lit(c));
    }
  }

  lemma {:induction false} RunWeight(st: State, s: string)
    ensures Weight(Run(st, s)) <= Weight(st) + Specials(s)
    decreases |s|
  {
    if s != "" {
      StepWeight(st, s[0]);
      RunWeight(Step(st, s[0]), s[1..]);
    }
  }

  /** Outside of quotes and comments the first special character is spent on something else. */
  lemma {:induction false} SpecialIsSpent(st: State, s: string)
    requires IsOpen(st) && Specials(s) > 0 && (st.mode == Between ==> s[0] != '#')
    ensures Weight(Run(st, s)) < Weight(st) + Specials(s)
    decreases |s|
  {
    OpenWeight(st, s[0]);
    if IsSpecial(s[0]) {
      RunWeight(Step(st, s[0]), s[1..]);
    } else {
      assert Step(st, s[0]).mode == InWord;
      SpecialIsSpent(Step(st, s[0]), s[1..]);
    }
  }

  lemma {:induction false} QuotedLits(s: string)
    ensures Quoted(Lits(s)) == Specials(s)
  {
    if s != "" {
      var n := |s| - 1;
      QuotedLits(s[..n]);
      assert Lits(s)[..n] == Lits(s[..n]);
      assert s == s[..n] + [s[n]] && [s[n]][1..] == "";
      SpecialsConcat(s[..n], [s[n]]);
    }
  }

  /** What the whole input yields is no more than what the scanner has found. */
  lemma FinishWeight(st: State)
    requires Finish(st).Some?
    ensures QuotedIn(Finish(st).value) <= Weight(st)
  {
    QuotedInSnoc(st.toks, st.cur, ' ');
  }

  lemma {:induction false} WordWeight(toks: seq<Token>, i: nat)
    requires i < |toks| && toks[i].Word?
    ensures Quoted(toks[i].syms) <= QuotedIn(toks)
  {
    var n := |toks| - 1;
    if i < n {
      WordWeight(toks[..n], i);
    }
  }

  /** Text with special characters that does not start with a comment: every word of it has fewer of them. */
  lemma WordsHaveFewer(s: string)
    requires Specials(s) > 0 && s[0] != '#' && Scan(s).Some?
    ensures forall i :: 0 <= i < |Scan(s).value| && Scan(s).value[i].Word? ==>
              Quoted(Scan(s).value[i].syms) < Specials(s)
  {
    SpecialIsSpent(START, s);
    FinishWeight(Run(START, s));
    forall i | 0 <= i < |Scan(s).value| && Scan(s).value[i].Word?
      ensures Quoted(Scan(s).value[i].syms) < Specials(s)
    {
      WordWeight(Scan(s).value, i);
    }
  }

  lemma SpecialTextIsNotLiteral(s: string)
    requires s != "" && !IsLiteralAfter(Between, s)
    ensures Scan(s) != Some([Word(Lits(s))])
  {
    if s[0] == '#' {
      CommentSwallows(START.(mode := Comment), s[1..]);
    } else {
      LiteralHasNoSpecials(s);
      QuotedLits(s);
      if Scan(s).Some? {
        WordsHaveFewer(s);
        var toks := Scan(s).value;
        if |toks| == 1 && toks[0].Word? {
          assert Quoted(toks[0].syms) < Specials(s);
        }
      }
    }
  }

  /** Unquoted text reaches a command as one literal word exactly when it holds nothing special. */
  lemma LiteralWord(s: string)
    requires s != ""
    ensures Scan(s) == Some([Word(Lits(s))]) <==> IsLiteralAfter(Between, s)
  {
    if IsLiteralAfter(Between, s) {
      LiteralText(START, s);
      assert [] + Lits(s) == Lits(s);
      assert [] + [Word(Lits(s))] == [Word(Lits(s))];
    } else {
      SpecialTextIsNotLiteral(s);
    }
  }
}
