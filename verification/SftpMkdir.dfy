/**
  How `Sftp.upload` of score/itf/core/com/sftp.py makes the remote directory of a file: with
  `test -d <dir> || mkdir -p <dir>`, in which the directory is not quoted.

  Directories are sequences of components from the root. What the shell and `mkdir` do is constrained
  only as far as the words of the command tell; everything else is left open.
 */
module SftpMkdir {
  import opened Text
  import opened ShellGrammar
  import opened ShellQuoting
  import opened SftpTree

  // ---- the command ----

  /** `test -d <dir> || mkdir -p <dir>` */
  function MkdirCommand(dir: string): string {
    Spaced(["test", "-d"]) + (dir + " " + ("||" + " ") + (Spaced(["mkdir", "-p"]) + dir))
  }

  function MkdirTokens(dir: seq<Token>): seq<Token> {
    PlainWords(["test", "-d"]) + (dir + [Op('|'), Op('|')] + (PlainWords(["mkdir", "-p"]) + dir))
  }

  /** A path, absolute or relative, that the shell takes as it is and that cannot be read as an option. */
  predicate IsPlainDirectory(dir: string) {
    dir != "" && dir[0] != '-' && IsLiteralAfter(Between, dir)
  }

  /**
    Text that on its own leaves the scanner outside of quotes reaches `test` and `mkdir` as whatever
    words it stands for: several for a directory with a blank, one literal word for a plain one.
   */
  lemma MkdirWords(dir: string)
    requires IsOpen(Run(START, dir))
    ensures Scan(MkdirCommand(dir)) == Some(MkdirTokens(Scan(dir).value))
    ensures IsPlainDirectory(dir) ==> Scan(dir).value == [PlainWord(dir)]
  {
    var toks := Scan(dir).value;
    TwoWordsPhrase("test", "-d");
    TwoWordsPhrase("mkdir", "-p");
    OrPhrase();
    DirectoryPhrase(dir);
    PhraseConcat(dir + " ", toks, "||" + " ", [Op('|'), Op('|')]);
    ScanThree(Spaced(["test", "-d"]), PlainWords(["test", "-d"]), dir + " " + ("||" + " "), toks + [Op('|'), Op('|')],
              Spaced(["mkdir", "-p"]), PlainWords(["mkdir", "-p"]), dir);
    if IsPlainDirectory(dir) {
      LiteralWord(dir);
    }
  }

  lemma TwoWordsPhrase(a: string, b: string)
    requires IsPlainWord(a) && IsPlainWord(b)
    ensures Phrase(Spaced([a, b]), PlainWords([a, b]))
  {
    SpacedPhrase([a, b]);
  }

  lemma DirectoryPhrase(dir: string)
    requires IsOpen(Run(START, dir))
    ensures Phrase(dir + " ", Scan(dir).value)
  {
    RunConcat(START, dir, " ");
    RunBlank(Run(START, dir), " ");
  }

  lemma ScanThree(
    a: string, ta: seq<Token>, b: string, tb: seq<Token>, c: string, tc: seq<Token>, last: string)
    requires Phrase(a, ta) && Phrase(b, tb) && Phrase(c, tc) && Scan(last).Some?
    ensures Scan(a + (b + (c + last))) == Some(ta + (tb + (tc + Scan(last).value)))
  {
    ScanAfter(c, tc, last);
    ScanAfter(b, tb, c + last);
    ScanAfter(a, ta, b + (c + last));
  }

  lemma OrPhrase()
    ensures Phrase("||" + " ", [Op('|'), Op('|')])
  {
    OperatorsPhrase("||");
    assert seq(2, i requires 0 <= i < 2 => Op("||"[i])) == [Op('|'), Op('|')];
  }

  lemma FixedMkdirText(dir: string)
    ensures MkdirCommand(dir) == "test -d " + dir + " || mkdir -p " + dir
  {
    Spaced2("test", "-d");
    Spaced2("mkdir", "-p");
  }

  /** A directory with a blank: two words in front of `||`, and two directories for `mkdir`. */
  lemma BlankSplitsDirectory(x: string, y: string)
    requires x != "" && y != "" && IsLiteralAfter(Between, x) && IsLiteralAfter(Between, y)
    ensures IsOpen(Run(START, x + " " + y)) && Scan(x + " " + y) == Some([PlainWord(x), PlainWord(y)])
    ensures Scan(MkdirCommand(x + " " + y)) == Some(MkdirTokens([PlainWord(x), PlainWord(y)]))
    ensures !IsPlainDirectory(x + " " + y)
  {
    var dir := x + " " + y;
    LiteralText(START, x);
    assert [] + Lits(x) == Lits(x);
    RunConcat(START, x + " ", y);
    RunConcat(START, x, " ");
    RunBlank(Run(START, x), " ");
    var st := State(Between, [], [PlainWord(x)]);
    assert [] + [PlainWord(x)] == [PlainWord(x)];
    assert Run(START, x + " ") == st;
    LiteralText(st, y);
    assert [] + Lits(y) == Lits(y);
    assert [PlainWord(x)] + [PlainWord(y)] == [PlainWord(x), PlainWord(y)];
    MkdirWords(dir);
    assert dir[|x|] == ' ';
  }

  // ---- directories ----

  /** The directory that a component leads to. */
  function Enter(at: Path, name: string): Path {
    if name == "" || name == "." then at
    else if name == ".." then (if at == [] then [] else at[..|at| - 1])
    else at + [name]
  }

  function Follow(at: Path, names: Path): Path
    decreases |names|
  {
    if names == [] then at else Follow(Enter(at, names[0]), names[1..])
  }

  /** All the directories that are entered on the way. */
  function Entered(at: Path, names: Path): set<Path>
    decreases |names|
  {
    if names == [] then {} else {Enter(at, names[0])} + Entered(Enter(at, names[0]), names[1..])
  }

  /** Where a text starts: at the root, or in the login directory. */
  function StartOf(home: Path, text: string): Path {
    if text != "" && text[0] == '/' then [] else home
  }

  /** The directory that a text names. */
  function Directory(home: Path, text: string): Path {
    Follow(StartOf(home, text), Split(text, "/"))
  }

  /** A component that is entered and left again makes no difference. */
  lemma {:induction false} UpAndBack(at: Path, names: Path, name: string, rest: Path)
    requires name != "" && name != "." && name != ".."
    ensures Follow(at, names + [name, ".."] + rest) == Follow(at, names + rest)
    decreases |names|
  {
    if names == [] {
      var all := names + [name, ".."] + rest;
      assert all == [name] + ([".."] + rest) && all[1..] == [".."] + rest && all[1..][1..] == rest;
      assert names + rest == rest;
      assert Follow(at, all) == Follow(Enter(at, name), [".."] + rest);
      assert ([".."] + rest)[1..] == rest;
      assert Enter(at + [name], "..") == at;
    } else {
      assert (names + [name, ".."] + rest)[1..] == names[1..] + [name, ".."] + rest;
      assert (names + rest)[1..] == names[1..] + rest;
      UpAndBack(Enter(at, names[0]), names[1..], name, rest);
    }
  }

  /** Following some components enters exactly the directories that prefixes of them lead to. */
  lemma {:induction false} EnteredMeans(at: Path, names: Path, q: Path)
    ensures q in Entered(at, names) <==> exists k :: 1 <= k <= |names| && q == Follow(at, names[..k])
    decreases |names|
  {
    if names != [] {
      var next, rest := Enter(at, names[0]), names[1..];
      EnteredMeans(next, rest, q);
      forall k | 1 <= k <= |names|
        ensures Follow(at, names[..k]) == Follow(next, rest[..k - 1])
      {
        assert names[..k][1..] == rest[..k - 1];
      }
      if q == next {
        assert q == Follow(next, rest[..0]) == Follow(at, names[..1]);
      }
      if k :| 1 <= k <= |rest| && q == Follow(next, rest[..k]) {
        assert q == Follow(at, names[..k + 1]);
      }
      if k :| 1 <= k <= |names| && q == Follow(at, names[..k]) {
        assert k > 1 ==> q == Follow(next, rest[..k - 1]);
      }
    }
  }

  /** A literal word as text. */
  function WordText(syms: seq<Sym>): string {
    seq(|syms|, i requires 0 <= i < |syms| => syms[i].ch)
  }

  /** What `mkdir -p` makes of its words: the directories they name and those on the way. */
  function MadeBy(home: Path, toks: seq<Token>): set<Path> {
    if toks == [] then {}
    else
      MadeBy(home, toks[1..])
      + (match toks[0]
         case Word(syms) => Entered(StartOf(home, WordText(syms)), Split(WordText(syms), "/"))
         case Op(_) => {})
  }

  predicate IsLiteral(syms: seq<Sym>) {
    forall i :: 0 <= i < |syms| ==> syms[i].Lit?
  }

  predicate AreLiteralWords(toks: seq<Token>) {
    forall i :: 0 <= i < |toks| ==> toks[i].Word? && IsLiteral(toks[i].syms)
  }

  /** A path whose command is known word by word: nothing is expanded, no quote is left open, no comment or option starts it. */
  predicate IsReadable(dir: string) {
    && dir != "" && dir[0] != '-' && dir[0] != '#' && ".." !in Split(dir, "/")
    && IsOpen(Run(START, dir)) && AreLiteralWords(Scan(dir).value)
  }

  /** The exit code of the command for a text, and the directories that exist after it. */
  datatype Made = Made(code: int, dirs: set<Path>) {
    /** `upload` goes on when the code is zero, and then writes into the directory, which has to be there. */
    predicate Allows(at: Path) {
      code == 0 && at in dirs
    }
  }

  /** Making a directory, given the directories that existed before. */
  type Mkdir = (string, set<Path>) -> Made

  /**
    The remote shell. A plain directory is made; a command known word by word makes nothing but what
    `mkdir` is given. Neither takes a directory away. What the shell does in all other cases is left open.
   */
  ghost predicate IsShell(mkdir: Mkdir, home: Path) {
    forall dir, dirs ::
      && (IsPlainDirectory(dir) ==> mkdir(dir, dirs).Allows(Directory(home, dir)))
      && (IsReadable(dir) ==> mkdir(dir, dirs).dirs <= dirs + MadeBy(home, Scan(dir).value))
      && (IsPlainDirectory(dir) || IsReadable(dir) ==> dirs <= mkdir(dir, dirs).dirs)
  }

  /** `os.makedirs(..., exist_ok=True)`. */
  ghost predicate AlwaysMakes(mkdir: Mkdir, home: Path) {
    forall dir, dirs :: mkdir(dir, dirs).Allows(Directory(home, dir)) && dirs <= mkdir(dir, dirs).dirs
  }

  /** The plainest shell there is: the words are made, and nothing else happens. */
  function PlainShell(home: Path): Mkdir {
    (dir, dirs) => match Scan(dir) case Some(toks) => Made(0, dirs + MadeBy(home, toks)) case None => Made(2, dirs)
  }

  lemma {:induction false} LastIsEntered(at: Path, names: Path)
    requires names != []
    ensures Follow(at, names) in Entered(at, names)
    decreases |names|
  {
    if |names| > 1 {
      LastIsEntered(Enter(at, names[0]), names[1..]);
    } else {
      assert Follow(at, names) == Follow(Enter(at, names[0]), []);
    }
  }

  lemma PlainShellIsShell(home: Path)
    ensures IsShell(PlainShell(home), home)
  {
    forall dir | IsPlainDirectory(dir)
      ensures Directory(home, dir) in MadeBy(home, [PlainWord(dir)])
    {
      LastIsEntered(StartOf(home, dir), Split(dir, "/"));
      assert WordText(Lits(dir)) == dir;
    }
    forall dir | IsPlainDirectory(dir)
      ensures Scan(dir) == Some([PlainWord(dir)])
    {
      LiteralWord(dir);
    }
  }

  // ---- counting special characters ----

  function SpecialsIn(p: Path): nat {
    if p == [] then 0 else SpecialsIn(p[..|p| - 1]) + Specials(p[|p| - 1])
  }

  lemma SpecialsInSnoc(p: Path, name: string)
    ensures SpecialsIn(p + [name]) == SpecialsIn(p) + Specials(name)
  {
    assert (p + [name])[..|p|] == p;
  }

  /** Entering a component adds its special characters at most, and exactly them unless it goes up. */
  lemma EnterSpecials(at: Path, name: string)
    ensures SpecialsIn(Enter(at, name)) <= SpecialsIn(at) + Specials(name)
    ensures name != ".." ==> SpecialsIn(Enter(at, name)) == SpecialsIn(at) + Specials(name)
  {
    SpecialsInSnoc(at, name);
    if name == "." {
      assert name[0] == '.' && !IsSpecial(name[0]);
      LiteralHasNoSpecials(name);
    }
  }

  function SpecialsOfAll(names: seq<string>): nat {
    if names == [] then 0 else Specials(names[0]) + SpecialsOfAll(names[1..])
  }

  lemma {:induction false} FollowSpecials(at: Path, names: Path)
    requires ".." !in names
    ensures SpecialsIn(Follow(at, names)) == SpecialsIn(at) + SpecialsOfAll(names)
    decreases |names|
  {
    if names != [] {
      EnterSpecials(at, names[0]);
      FollowSpecials(Enter(at, names[0]), names[1..]);
    }
  }

  lemma {:induction false} EnteredSpecials(at: Path, names: Path, q: Path)
    requires q in Entered(at, names)
    ensures SpecialsIn(q) <= SpecialsIn(at) + SpecialsOfAll(names)
    decreases |names|
  {
    EnterSpecials(at, names[0]);
    if q != Enter(at, names[0]) {
      EnteredSpecials(Enter(at, names[0]), names[1..], q);
    }
  }

  lemma {:induction false} JoinSpecials(parts: seq<string>)
    ensures Specials(Join("/", parts)) == SpecialsOfAll(parts)
  {
    if |parts| > 1 {
      JoinSpecials(parts[1..]);
      var rest := Join("/", parts[1..]);
      SpecialsConcat(parts[0] + "/", rest);
      SpecialsConcat(parts[0], "/");
      LiteralHasNoSpecials("/");
    } else if |parts| == 1 {
      assert SpecialsOfAll(parts[1..]) == 0;
    }
  }

  lemma SplitSpecials(text: string)
    ensures SpecialsOfAll(Split(text, "/")) == Specials(text)
  {
    JoinSplit(text, "/");
    JoinSpecials(Split(text, "/"));
  }

  lemma WordTextSpecials(syms: seq<Sym>)
    requires IsLiteral(syms)
    ensures Specials(WordText(syms)) == Quoted(syms)
  {
    assert Lits(WordText(syms)) == syms;
    QuotedLits(WordText(syms));
  }

  /** What is made has no more special characters in its name than the word that names it. */
  lemma {:induction false} MadeBySpecials(home: Path, toks: seq<Token>, q: Path) returns (i: nat)
    requires AreLiteralWords(toks) && SpecialsIn(home) == 0 && q in MadeBy(home, toks)
    ensures i < |toks| && SpecialsIn(q) <= Quoted(toks[i].syms)
  {
    if q in MadeBy(home, toks[1..]) {
      var j := MadeBySpecials(home, toks[1..], q);
      i := j + 1;
    } else {
      var text := WordText(toks[0].syms);
      WordTextSpecials(toks[0].syms);
      SplitSpecials(text);
      EnteredSpecials(StartOf(home, text), Split(text, "/"), q);
      i := 0;
    }
  }

  // ---- when the directory is made ----

  lemma DirectorySpecials(home: Path, dir: string)
    requires IsReadable(dir) && SpecialsIn(home) == 0
    ensures SpecialsIn(Directory(home, dir)) == Specials(dir)
    ensures IsPlainDirectory(dir) <==> Specials(dir) == 0
  {
    SplitSpecials(dir);
    FollowSpecials(StartOf(home, dir), Split(dir, "/"));
    assert SpecialsIn([]) == 0;
    LiteralHasNoSpecials(dir);
  }

  /** The command for a directory with special characters makes no directory with as many of them. */
  lemma MadeByHasFewer(home: Path, dir: string, q: Path)
    requires IsReadable(dir) && Specials(dir) > 0 && SpecialsIn(home) == 0 && q in MadeBy(home, Scan(dir).value)
    ensures SpecialsIn(q) < Specials(dir)
  {
    var i := MadeBySpecials(home, Scan(dir).value, q);
    WordsHaveFewer(dir);
  }

  /** A directory that is not there and whose command is known word by word is made exactly when it is plain. */
  lemma MadeExactlyWhenPlain(mkdir: Mkdir, home: Path, dir: string, dirs: set<Path>)
    requires IsShell(mkdir, home) && SpecialsIn(home) == 0
    requires IsReadable(dir) && Directory(home, dir) !in dirs
    ensures Directory(home, dir) in mkdir(dir, dirs).dirs <==> IsPlainDirectory(dir)
    ensures mkdir(dir, dirs).Allows(Directory(home, dir)) <==> IsPlainDirectory(dir)
  {
    DirectorySpecials(home, dir);
    if Directory(home, dir) in mkdir(dir, dirs).dirs && !IsPlainDirectory(dir) {
      MadeByHasFewer(home, dir, Directory(home, dir));
    }
  }

  /** Directories that are not among the given ones have nothing special in their names. */
  ghost predicate OnlyPlainNew(dirs: set<Path>, existing: set<Path>) {
    forall q :: q in dirs ==> q in existing || SpecialsIn(q) == 0
  }

  lemma PlainMakesPlain(mkdir: Mkdir, home: Path, dir: string, dirs: set<Path>, existing: set<Path>)
    requires IsShell(mkdir, home) && SpecialsIn(home) == 0
    requires IsReadable(dir) && IsPlainDirectory(dir) && OnlyPlainNew(dirs, existing)
    ensures OnlyPlainNew(mkdir(dir, dirs).dirs, existing)
  {
    DirectorySpecials(home, dir);
    MkdirWords(dir);
    forall q | q in mkdir(dir, dirs).dirs
      ensures q in existing || SpecialsIn(q) == 0
    {
      if q !in dirs {
        var i := MadeBySpecials(home, Scan(dir).value, q);
        QuotedLits(dir);
      }
    }
  }

  /** What `mkdir` is given for such a directory are the two parts, each taken for a directory of its own. */
  lemma BlankMeansTwo(home: Path, x: string, y: string, q: Path)
    requires x != "" && y != "" && IsLiteralAfter(Between, x) && IsLiteralAfter(Between, y)
    ensures Scan(x + " " + y).Some?
    ensures q in MadeBy(home, Scan(x + " " + y).value)
       <==> q in Entered(StartOf(home, x), Split(x, "/")) || q in Entered(StartOf(home, y), Split(y, "/"))
  {
    BlankSplitsDirectory(x, y);
    var toks := [PlainWord(x), PlainWord(y)];
    assert toks[1..] == [PlainWord(y)] && toks[1..][1..] == [];
    assert WordText(Lits(x)) == x && WordText(Lits(y)) == y;
    assert MadeBy(home, []) == {};
  }

  /** So a directory with a blank in its name is not there after its command. */
  lemma BlankIsNotMade(mkdir: Mkdir, home: Path, x: string, y: string, dirs: set<Path>)
    requires IsShell(mkdir, home) && SpecialsIn(home) == 0
    requires x != "" && x[0] != '-' && y != "" && IsLiteralAfter(Between, x) && IsLiteralAfter(Between, y)
    requires ".." !in Split(x + " " + y, "/") && Directory(home, x + " " + y) !in dirs
    ensures Directory(home, x + " " + y) !in mkdir(x + " " + y, dirs).dirs
  {
    BlankSplitsDirectory(x, y);
    MadeExactlyWhenPlain(mkdir, home, x + " " + y, dirs);
  }
}
