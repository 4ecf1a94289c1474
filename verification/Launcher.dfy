/**
  The launcher script of bazel/py_itf_test.bzl: every argument between double quotes, with
  backslashes and double quotes escaped, and the import paths without repetitions.
 */
module Launcher {
  import opened Text
  import opened ShellGrammar
  import opened ShellQuoting

  const TWO_BACKSLASHES := "\\\\"
  const ESCAPED_QUOTE := "\\\""

  /** `a.replace("\\", "\\\\").replace('"', '\\"')` */
  function EscapeDouble(a: string): string {
    ReplaceChar(ReplaceChar(a, '\\', TWO_BACKSLASHES), '"', ESCAPED_QUOTE)
  }

  function DoubleQuote(a: string): string {
    "\"" + EscapeDouble(a) + "\""
  }

  /** What double quotes leave of a text: the shell still expands `$` and backquotes in it. */
  function Kept(a: string): (r: seq<Sym>)
    ensures |r| == |a|
  {
    seq(|a|, i requires 0 <= i < |a| => if ExpandsInDouble(a[i]) then Active(a[i]) else Lit(a[i]))
  }

  function EscapeOne(c: char): string {
    if c == '\\' then TWO_BACKSLASHES else if c == '"' then ESCAPED_QUOTE else [c]
  }

  /** The two replacements in sequence act on each character on its own. */
  lemma EscapeDoubleCons(a: string)
    requires a != ""
    ensures EscapeDouble(a) == EscapeOne(a[0]) + EscapeDouble(a[1..])
  {
    var first := if a[0] == '\\' then TWO_BACKSLASHES else [a[0]];
    ReplaceCharConcat(first, ReplaceChar(a[1..], '\\', TWO_BACKSLASHES), '"', ESCAPED_QUOTE);
    if a[0] == '\\' {
      assert TWO_BACKSLASHES[1..] == "\\" && TWO_BACKSLASHES[1..][1..] == "";
      assert ReplaceChar("\\", '"', ESCAPED_QUOTE) == "\\";
      assert ReplaceChar(TWO_BACKSLASHES, '"', ESCAPED_QUOTE) == TWO_BACKSLASHES;
    } else {
      assert first[1..] == "";
      assert ReplaceChar(first, '"', ESCAPED_QUOTE) == EscapeOne(a[0]);
    }
  }

  lemma EscapeOneScan(st: State, c: char)
    requires st.mode == Double
    ensures Run(st, EscapeOne(c)) == Append(st, if ExpandsInDouble(c) then Active(c) else Lit(c))
  {
    var e := EscapeOne(c);
    if |e| == 2 {
      assert e[1..][1..] == "";
      assert Run(st, e) == Run(Step(st, e[0]), e[1..]) == Run(Step(Step(st, e[0]), e[1]), "");
    } else {
      assert e[1..] == "";
      assert Run(st, e) == Run(Step(st, c), "");
    }
  }

  lemma {:induction false} EscapeDoubleScan(st: State, a: string)
    requires st.mode == Double
    ensures Run(st, EscapeDouble(a)) == State(Double, st.cur + Kept(a), st.toks)
    decreases |a|
  {
    if a == "" {
      assert st.cur + Kept(a) == st.cur;
    } else {
      EscapeDoubleCons(a);
      RunConcat(st, EscapeOne(a[0]), EscapeDouble(a[1..]));
      EscapeOneScan(st, a[0]);
      var next := Run(st, EscapeOne(a[0]));
      EscapeDoubleScan(next, a[1..]);
      assert next.cur + Kept(a[1..]) == st.cur + Kept(a);
    }
  }

  lemma DoubleQuoteScan(st: State, a: string)
    requires st.mode == Between && st.cur == []
    ensures Run(st, DoubleQuote(a)) == State(InWord, Kept(a), st.toks)
  {
    var inside := st.(mode := Double);
    RunConcat(st, "\"" + EscapeDouble(a), "\"");
    RunConcat(st, "\"", EscapeDouble(a));
    assert "\""[1..] == "";
    assert Run(st, "\"") == Run(inside, "");
    EscapeDoubleScan(inside, a);
    assert [] + Kept(a) == Kept(a);
    var closing := State(Double, Kept(a), st.toks);
    assert Run(closing, "\"") == Run(closing.(mode := InWord), "");
  }

  function DoubleQuoteAll(args: seq<string>): seq<string> {
    seq(|args|, i requires 0 <= i < |args| => DoubleQuote(args[i]))
  }

  /** The `quoted` text of the launcher. */
  function Quoted(args: seq<string>): string {
    Join(" ", DoubleQuoteAll(args))
  }

  function KeptWords(args: seq<string>): seq<Token> {
    seq(|args|, i requires 0 <= i < |args| => Word(Kept(args[i])))
  }

  lemma {:induction false} QuotedRun(st: State, args: seq<string>)
    requires st.mode == Between && st.cur == []
    ensures IsOpen(Run(st, Quoted(args)))
    ensures Finish(Run(st, Quoted(args))) == Some(st.toks + KeptWords(args))
    decreases |args|
  {
    if args == [] {
      assert st.toks + KeptWords(args) == st.toks;
    } else {
      DoubleQuoteScan(st, args[0]);
      if |args| == 1 {
        assert KeptWords(args) == [Word(Kept(args[0]))];
      } else {
        assert DoubleQuoteAll(args)[1..] == DoubleQuoteAll(args[1..]);
        var rest := Quoted(args[1..]);
        RunConcat(st, DoubleQuote(args[0]) + " ", rest);
        RunConcat(st, DoubleQuote(args[0]), " ");
        var word := State(InWord, Kept(args[0]), st.toks);
        RunBlank(word, " ");
        var next := Step(word, ' ');
        QuotedRun(next, args[1..]);
        assert next.toks + KeptWords(args[1..]) == st.toks + KeptWords(args);
      }
    }
  }

  /** Every argument comes back as one word, in order, with only `$` and backquotes left to expand. */
  lemma LauncherRoundTrip(args: seq<string>)
    ensures Scan(Quoted(args)) == Some(KeptWords(args))
  {
    QuotedRun(START, args);
    assert [] + KeptWords(args) == KeptWords(args);
  }

  predicate HasExpansion(a: string) {
    exists i :: 0 <= i < |a| && ExpandsInDouble(a[i])
  }

  /** The arguments come back literally exactly when none of them holds a `$` or a backquote. */
  lemma LauncherLiteral(args: seq<string>)
    ensures Scan(Quoted(args)) == Some(ArgWords(args))
        <==> (forall k :: 0 <= k < |args| ==> !HasExpansion(args[k]))
  {
    LauncherRoundTrip(args);
    forall k | 0 <= k < |args|
      ensures KeptWords(args)[k] == ArgWords(args)[k] <==> !HasExpansion(args[k])
    {
      var a := args[k];
      if HasExpansion(a) {
        var i :| 0 <= i < |a| && ExpandsInDouble(a[i]);
        assert Kept(a)[i] != Lits(a)[i];
      } else {
        assert Kept(a) == Lits(a);
      }
    }
    if forall k :: 0 <= k < |args| ==> !HasExpansion(args[k]) {
      assert KeptWords(args) == ArgWords(args);
    }
  }

  // ---- the exec line ----

  function ProgramText(workspace: string, binary: string): string {
    "$RUNFILES_DIR/" + workspace + "/" + binary
  }

  /** `exec "$RUNFILES_DIR/<workspace>/<binary>"`, whose names are not escaped. */
  function ExecHead(workspace: string, binary: string): string {
    Spaced(["exec"]) + ("\"" + ProgramText(workspace, binary) + "\"")
  }

  function ExecLine(workspace: string, binary: string, args: seq<string>): string {
    ExecHead(workspace, binary) + " " + Quoted(args) + " \"$@\""
  }

  /**
    Whatever the names, once they leave the scanner outside of quotes the arguments and then the
    caller's own arguments follow the words of the program.
   */
  lemma ExecLineWords(workspace: string, binary: string, args: seq<string>)
    requires IsOpen(Run(START, ExecHead(workspace, binary)))
    ensures Scan(ExecHead(workspace, binary)).Some?
    ensures Scan(ExecLine(workspace, binary, args))
         == Some(Scan(ExecHead(workspace, binary)).value + KeptWords(args) + [Word([Active('$'), Lit('@')])])
  {
    var head := ExecHead(workspace, binary);
    RunConcat(START, head, " ");
    RunBlank(Run(START, head), " ");
    var st := Step(Run(START, head), ' ');
    QuotedRun(st, args);
    RunConcat(START, head + " ", Quoted(args));
    CallerArguments(Run(st, Quoted(args)));
    RunConcat(START, head + " " + Quoted(args), " \"$@\"");
  }

  predicate NeedsNoEscape(s: string) {
    forall i :: 0 <= i < |s| ==> s[i] != '\\' && s[i] != '"'
  }

  lemma {:induction false} EscapeNothing(s: string)
    requires NeedsNoEscape(s)
    ensures EscapeDouble(s) == s
  {
    if s != "" {
      EscapeDoubleCons(s);
      EscapeNothing(s[1..]);
      assert [s[0]] + s[1..] == s;
    }
  }

  /** Names without quotes and backslashes do, and the program is then one word. */
  lemma ExecHeadWords(workspace: string, binary: string)
    requires NeedsNoEscape(workspace) && NeedsNoEscape(binary)
    ensures IsOpen(Run(START, ExecHead(workspace, binary)))
    ensures Scan(ExecHead(workspace, binary))
         == Some([PlainWord("exec"), Word(Kept("$RUNFILES_DIR/" + workspace + "/" + binary))])
  {
    var program := ProgramText(workspace, binary);
    var variable := "$RUNFILES_DIR/";
    assert NeedsNoEscape(variable) && NeedsNoEscape("/");
    EscapeNothing(program);
    var w := ["exec"];
    SpacedPhrase(w);
    DoubleQuoteScan(State(Between, [], PlainWords(w)), program);
    RunConcat(START, Spaced(w), DoubleQuote(program));
    assert PlainWords(w) + [Word(Kept(program))] == [PlainWord("exec"), Word(Kept(program))];
  }

  lemma FixedExecLine(workspace: string, binary: string, args: seq<string>)
    ensures ExecLine(workspace, binary, args)
         == "exec \"$RUNFILES_DIR/" + workspace + "/" + binary + "\" " + Quoted(args) + " \"$@\""
  {
    Spaced1("exec");
    assert "exec" + " " + ("\"" + ProgramText(workspace, binary) + "\"")
        == "exec \"$RUNFILES_DIR/" + workspace + "/" + binary + "\"";
  }

  lemma CallerArguments(st: State)
    requires IsOpen(st)
    ensures Finish(Run(st, " \"$@\"")) == Some(Finish(st).value + [Word([Active('$'), Lit('@')])])
  {
    var t := " \"$@\"";
    var quoted := DoubleQuote("$@");
    assert NeedsNoEscape("$@");
    EscapeNothing("$@");
    assert t == " " + quoted;
    RunConcat(st, " ", quoted);
    RunBlank(st, " ");
    DoubleQuoteScan(Step(st, ' '), "$@");
    assert Kept("$@") == [Active('$'), Lit('@')];
  }

  // ---- import paths ----

  /** The first occurrences, in order. */
  function FirstOccurrences(imports: seq<string>): seq<string> {
    if imports == [] then []
    else
      var before := imports[..|imports| - 1];
      var last := imports[|imports| - 1];
      FirstOccurrences(before) + (if last in before then [] else [last])
  }

  /** Starlark's loop over `plugin_imports`; `seen` is a dictionary used as a set. */
  method UniqueImports(pluginImports: seq<string>) returns (uniqueImports: seq<string>)
    ensures uniqueImports == FirstOccurrences(pluginImports)
  {
    var seen: map<string, bool> := map[];
    uniqueImports := [];
    for i := 0 to |pluginImports|
      invariant uniqueImports == FirstOccurrences(pluginImports[..i])
      invariant forall s :: s in seen <==> s in pluginImports[..i]
    {
      var imp := pluginImports[i];
      assert pluginImports[..i + 1][..i] == pluginImports[..i];
      assert pluginImports[..i + 1] == pluginImports[..i] + [imp];
      if imp !in seen {
        seen := seen[imp := true];
        uniqueImports := uniqueImports + [imp];
      }
    }
    assert pluginImports[..|pluginImports|] == pluginImports;
  }

  /** The position of the first occurrence. */
  function IndexOf(s: string, list: seq<string>): (k: nat)
    requires s in list
    ensures k < |list| && list[k] == s && s !in list[..k]
  {
    if list[0] == s then 0 else
      var k := IndexOf(s, list[1..]);
      assert list[..k + 1] == [list[0]] + list[1..][..k];
      k + 1
  }

  /** No entry twice, none lost, none invented, and the order is that of the first occurrences. */
  lemma {:induction false} UniqueImportsMeaning(imports: seq<string>)
    ensures var u := FirstOccurrences(imports);
            && (forall s :: s in u <==> s in imports)
            && (forall i, j :: 0 <= i < j < |u| ==> IndexOf(u[i], imports) < IndexOf(u[j], imports))
  {
    var u := FirstOccurrences(imports);
    if imports != [] {
      var n := |imports| - 1;
      var before, last := imports[..n], imports[n];
      var v := FirstOccurrences(before);
      UniqueImportsMeaning(before);
      assert imports == before + [last];
      forall s | s in before
        ensures IndexOf(s, imports) == IndexOf(s, before)
      {
        IndexUnique(s, before, [last]);
      }
      if last !in before {
        assert IndexOf(last, imports) == n;
        forall i, j | 0 <= i < j < |u|
          ensures IndexOf(u[i], imports) < IndexOf(u[j], imports)
        {
          assert u[i] == v[i] && v[i] in before;
          if j < |v| {
            assert u[j] == v[j] && v[j] in before;
          }
        }
      }
    }
  }

  lemma IndexUnique(s: string, a: seq<string>, b: seq<string>)
    requires s in a
    ensures s in a + b && IndexOf(s, a + b) == IndexOf(s, a)
  {
    var m := IndexOf(s, a);
    assert (a + b)[m] == s;
    var k := IndexOf(s, a + b);
    forall i | 0 <= i < m
      ensures (a + b)[i] != s
    {
      assert a[i] == a[..m][i];
    }
    forall i | 0 <= i < k
      ensures (a + b)[i] != s
    {
      assert (a + b)[i] == (a + b)[..k][i];
    }
  }
}
