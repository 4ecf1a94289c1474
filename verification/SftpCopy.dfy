/**
  Copying directory trees with `Sftp.upload_dir` and `Sftp.download_dir` of score/itf/core/com/sftp.py.
  An upload makes each remote directory with a shell command, a download with `os.makedirs`.
 */
module SftpCopy {
  import opened Text
  import opened ShellGrammar
  import opened ShellQuoting
  import opened SftpTree
  import opened SftpMkdir
  import opened Utf8

  // ---- from one root to another ----

  /** `os.path.relpath` for a directory at or below the base. */
  function RelPath(p: Path, base: Path): Path
    requires base <= p
  {
    if p == base then ["."] else p[|base|..]
  }

  predicate AreProper(p: Path) {
    forall i :: 0 <= i < |p| ==> IsProperName(p[i])
  }

  lemma {:induction false} FollowProper(at: Path, p: Path)
    requires AreProper(p)
    ensures Follow(at, p) == at + p
    decreases |p|
  {
    if p == [] {
      assert at + p == at;
    } else {
      FollowProper(at + [p[0]], p[1..]);
      assert at + [p[0]] + p[1..] == at + p;
    }
  }

  /** Moving a file path from one root to another loses nothing: below the roots both paths are the same. */
  lemma RelocatedPath(base: Path, dir: Path, name: string)
    requires base <= dir && AreProper(dir[|base|..]) && IsProperName(name)
    ensures Follow([], RelPath(dir, base) + [name]) == (dir + [name])[|base|..]
  {
    var below := dir[|base|..];
    assert (dir + [name])[|base|..] == below + [name];
    FollowProper([], below + [name]);
    if dir == base {
      assert below == [];
      assert ([".", name])[1..] == [name] && ["."] + [name] == [".", name];
      assert [] + [name] == [name];
      assert Follow([], [".", name]) == Follow([], [name]);
    } else {
      assert [] + (below + [name]) == below + [name];
    }
  }

  lemma {:induction false} FilesAreProper(n: Node, p: Path)
    requires NamesAreProper(n) && Lookup(n, p).Some?
    ensures AreProper(p)
    decreases |p|
  {
    if p != [] {
      FilesAreProper(n.entries[p[0]], p[1..]);
      assert p == [p[0]] + p[1..];
    }
  }

  /** The destination holds exactly the listed files of the source, below its own root. */
  ghost predicate Copied(place: Option<Node>, source: Node, base: Path, done: seq<Path>) {
    && (place.None? <==> done == [])
    && (place.Some? ==> place.value.Dir? && Solid(place.value) && HasFile(place.value))
    && (forall p :: p in done ==> IsFileBelow(source, base, p))
    && (place.Some? ==> forall q ::
          Lookup(place.value, q) == if base + q in done then Lookup(source, q) else None)
  }

  lemma Uncat(base: Path, q: Path)
    ensures (base + q)[|base|..] == q
  {
  }

  lemma CopyOne(place: Option<Node>, source: Node, base: Path, done: seq<Path>, p: Path)
    requires source.Dir? && Copied(place, source, base, done)
    requires IsFileBelow(source, base, p)
    ensures var n := if place.Some? then place.value else Dir(map[]);
            var t := p[|base|..];
            && CanPut(n, t)
            && Copied(Some(Put(n, t, Lookup(source, t).value)), source, base, done + [p])
  {
    var n := if place.Some? then place.value else Dir(map[]);
    var t := p[|base|..];
    assert base + t == p;
    forall q | Lookup(n, q).Some?
      ensures !ProperPrefix(q, t) && !ProperPrefix(t, q)
    {
      assert place.Some? && base + q in done && Lookup(source, q).Some?;
      FilesDoNotContainFiles(source, q, t);
      FilesDoNotContainFiles(source, t, q);
    }
    RoomForFile(n, t);
    var data := Lookup(source, t).value;
    PutIsSolid(n, t, data);
    forall q
      ensures Lookup(Put(n, t, data), q) == if base + q in done + [p] then Lookup(source, q) else None
    {
      PutFiles(n, t, data, q);
      Uncat(base, q);
      assert base + q == p <==> q == t;
      assert base + q in done + [p] <==> base + q in done || base + q == p;
      if place.None? {
        assert Lookup(n, q) == None;
      }
    }
  }

  // ---- the directory of each copied file ----

  /** `os.path.dirname(os.path.join(root, relative directory, name))` */
  function DirText(root: string, rel: Path): string {
    (if root == "" || root[|root| - 1] == '/' then root else root + "/") + Join("/", rel)
  }

  /** The directory that the file at `p`, relative to the base, is copied to. */
  function TargetDir(root: string, p: Path): string {
    DirText(root, if |p| <= 1 then ["."] else p[..|p| - 1])
  }

  lemma {:induction false} FollowConcat(at: Path, a: Path, b: Path)
    ensures Follow(at, a + b) == Follow(Follow(at, a), b)
    decreases |a|
  {
    if a == [] {
      assert a + b == b;
    } else {
      assert (a + b)[1..] == a[1..] + b;
      FollowConcat(Enter(at, a[0]), a[1..], b);
    }
  }

  lemma {:induction false} SplitConcat(a: string, b: string, c: char)
    ensures Split(a + [c] + b, [c]) == Split(a, [c]) + Split(b, [c])
    decreases |a|
  {
    FindChar(a, c);
    match Find(a, [c]) {
      case None => SplitFirst(a, b, c);
      case Some(i) =>
        SplitConcat(a[i + 1..], b, c);
        SplitConcatAt(a, b, c, i);
    }
  }

  lemma SplitConcatAt(a: string, b: string, c: char, i: nat)
    requires i < |a| && a[i] == c && c !in a[..i]
    requires Split(a[i + 1..] + [c] + b, [c]) == Split(a[i + 1..], [c]) + Split(b, [c])
    ensures Split(a + [c] + b, [c]) == Split(a, [c]) + Split(b, [c])
  {
    var head, rest := a[..i], a[i + 1..];
    CutOnce(a, b, c, i);
    FirstOfSplit(a, head, rest, c);
    FirstOfSplit(a + [c] + b, head, rest + [c] + b, c);
    ConsConcat(head, Split(rest, [c]), Split(b, [c]));
  }

  lemma FirstOfSplit(s: string, head: string, rest: string, c: char)
    requires c !in head && s == head + [c] + rest
    ensures Split(s, [c]) == [head] + Split(rest, [c])
  {
    SplitFirst(head, rest, c);
  }

  lemma ConsConcat(head: string, x: seq<string>, y: seq<string>)
    ensures [head] + (x + y) == [head] + x + y
  {
  }

  lemma CutOnce(a: string, b: string, c: char, i: nat)
    requires i < |a| && a[i] == c
    ensures a == a[..i] + [c] + a[i + 1..]
    ensures a + [c] + b == a[..i] + [c] + (a[i + 1..] + [c] + b)
  {
  }

  lemma FollowNowhere(at: Path)
    ensures Follow(at, [""]) == at && Follow(at, ["."]) == at
    ensures Split("", "/") == [""]
  {
    assert Follow(at, [""]) == Follow(at, []) && Follow(at, ["."]) == Follow(at, []);
    SplitFirst("", "", '/');
  }

  /** A slash at the end of a directory makes no difference. */
  lemma SlashAtEnd(home: Path, front: string)
    requires front != ""
    ensures Directory(home, front + "/") == Directory(home, front)
  {
    var start, names := StartOf(home, front), Split(front, "/");
    SplitConcat(front, "", '/');
    assert front + ['/'] + "" == front + "/";
    FollowNowhere(Follow(start, names));
    FollowConcat(start, names, [""]);
  }

  /** A directory followed by relative components. */
  lemma BelowDirectory(home: Path, front: string, rel: Path)
    requires front != "" && rel != [] && forall i :: 0 <= i < |rel| ==> '/' !in rel[i]
    ensures Directory(home, front + "/" + Join("/", rel)) == Follow(Directory(home, front), rel)
  {
    var text := Join("/", rel);
    SplitJoin(rel, '/');
    SplitConcat(front, text, '/');
    assert front + ['/'] + text == front + "/" + text;
    FollowConcat(StartOf(home, front), Split(front, "/"), rel);
  }

  /** A root followed by relative components, as text and as a path. */
  lemma RelativeText(home: Path, root: string, rel: Path)
    requires rel != [] && forall i :: 0 <= i < |rel| ==> rel[i] != "" && '/' !in rel[i]
    ensures Directory(home, DirText(root, rel)) == Follow(Directory(home, root), rel)
  {
    if root == "" {
      BelowNothing(home, rel);
    } else if root == "/" {
      BelowSlash(home, rel);
    } else if root[|root| - 1] == '/' {
      var front := root[..|root| - 1];
      assert root == front + "/";
      SlashAtEnd(home, front);
      BelowDirectory(home, front, rel);
    } else {
      BelowDirectory(home, root, rel);
    }
  }

  lemma BelowNothing(home: Path, rel: Path)
    requires rel != [] && forall i :: 0 <= i < |rel| ==> rel[i] != "" && '/' !in rel[i]
    ensures Directory(home, DirText("", rel)) == Follow(Directory(home, ""), rel)
  {
    JoinStarts(rel);
    SplitJoin(rel, '/');
    assert DirText("", rel) == Join("/", rel);
    FollowNowhere(home);
  }

  lemma BelowSlash(home: Path, rel: Path)
    requires rel != [] && forall i :: 0 <= i < |rel| ==> '/' !in rel[i]
    ensures Directory(home, DirText("/", rel)) == Follow(Directory(home, "/"), rel)
  {
    SplitJoin(rel, '/');
    SlashFirst(home, Join("/", rel));
    SlashFirst(home, "");
    FollowNowhere([]);
    assert "/" + "" == "/" && DirText("/", rel) == "/" + Join("/", rel);
  }

  lemma SlashFirst(home: Path, text: string)
    ensures Directory(home, "/" + text) == Follow([], Split(text, "/"))
  {
    SplitFirst("", text, '/');
    assert "" + ['/'] + text == "/" + text;
    FollowConcat([], [""], Split(text, "/"));
    FollowNowhere([]);
  }

  lemma JoinStarts(rel: Path)
    requires rel != [] && forall i :: 0 <= i < |rel| ==> rel[i] != "" && '/' !in rel[i]
    ensures Join("/", rel) != "" && Join("/", rel)[0] != '/'
  {
    assert Join("/", rel)[0] == rel[0][0];
    assert rel[0][0] in rel[0];
  }

  /** The directory that is made for a file is the one that it is put into: the root's, and below it the file's own. */
  lemma TargetIsBelowRoot(home: Path, root: string, p: Path)
    requires p != [] && AreProper(p)
    ensures Directory(home, TargetDir(root, p)) == Directory(home, root) + p[..|p| - 1]
  {
    var at, rel := Directory(home, root), if |p| <= 1 then ["."] else p[..|p| - 1];
    RelativeText(home, root, rel);
    if |p| == 1 {
      assert Follow(at, ["."]) == Follow(at, []) && at + p[..0] == at;
    } else {
      FollowProper(at, rel);
    }
  }

  /** Where files are copied to: the root as text, the login directory, how directories are made, and those there are. */
  datatype Destination = Destination(root: string, home: Path, mkdir: Mkdir, existing: set<Path>) {

    /** The directory of a file with its full path. */
    function DirOf(base: Path, p: Path): string
      requires |base| <= |p|
    {
      TargetDir(root, p[|base|..])
    }

    /** The directory that a file is put into: in the root, its own directory below the base. */
    function FileDir(base: Path, p: Path): Path
      requires |base| < |p|
    {
      Directory(home, root) + p[|base|..|p| - 1]
    }

    /** The command is that of a plain directory, or known word by word. */
    predicate HasTameDir(base: Path, p: Path) {
      |base| <= |p| && (IsPlainDirectory(DirOf(base, p)) || IsReadable(DirOf(base, p)))
    }

    predicate HasPlainDir(base: Path, p: Path) {
      |base| <= |p| && IsPlainDirectory(DirOf(base, p))
    }

    /** The command is known word by word, and a directory that is not plain is not there at first. */
    predicate HasKnownDir(base: Path, p: Path) {
      |base| <= |p| && IsReadable(DirOf(base, p))
      && (IsPlainDirectory(DirOf(base, p)) || Directory(home, DirOf(base, p)) !in existing)
    }

    /** The remote side: directories are made by the shell, which logs in to a plain directory. */
    ghost predicate IsRemote() {
      IsShell(mkdir, home) && SpecialsIn(home) == 0
    }

    /** The local side. */
    ghost predicate IsLocal() {
      AlwaysMakes(mkdir, home)
    }
  }

  /**
    What is known about the end of a copy of some files: it is complete on the local side, and on the
    remote side when all directories are plain. If every command is known word by word, it is
    complete exactly then.
   */
  ghost predicate Decided(to: Destination, base: Path, files: seq<Path>, ok: bool) {
    && (to.IsLocal() ==> ok)
    && (to.IsRemote() && (forall p :: p in files ==> to.HasPlainDir(base, p)) ==> ok)
    && (to.IsRemote() && (forall p :: p in files ==> to.HasKnownDir(base, p)) ==>
          (ok <==> forall p :: p in files ==> to.HasPlainDir(base, p)))
  }

  /** While every command is known and the copy goes on, the new directories are plain. */
  ghost predicate OnTrack(to: Destination, base: Path, files: seq<Path>, dirs: set<Path>) {
    to.IsRemote() && (forall p :: p in files ==> to.HasKnownDir(base, p)) ==> OnlyPlainNew(dirs, to.existing)
  }

  /**
    The directories that the files were put into are there, and those from before. Unless a command that
    is not known word by word took one away.
   */
  ghost predicate DirsAreThere(to: Destination, base: Path, files: seq<Path>, dirs: set<Path>) {
    to.IsLocal() || (to.IsRemote() && forall p :: p in files ==> to.HasTameDir(base, p)) ==>
      to.existing <= dirs && forall p :: p in files ==> |base| < |p| && to.FileDir(base, p) in dirs
  }

  /** What is known while the copy goes on. */
  ghost predicate Going(to: Destination, base: Path, files: seq<Path>, dirs: set<Path>) {
    Decided(to, base, files, true) && OnTrack(to, base, files, dirs) && DirsAreThere(to, base, files, dirs)
  }

  lemma OneMoreIsThere(to: Destination, base: Path, done: seq<Path>, p: Path, dirs: set<Path>)
    requires |base| < |p| && DirsAreThere(to, base, done, dirs)
    requires to.FileDir(base, p) in to.mkdir(to.DirOf(base, p), dirs).dirs
    ensures DirsAreThere(to, base, done + [p], to.mkdir(to.DirOf(base, p), dirs).dirs)
  {
    var all, dirs' := done + [p], to.mkdir(to.DirOf(base, p), dirs).dirs;
    assert p in all && forall q :: q in done ==> q in all;
    assert forall q :: q in all ==> q in done || q == p;
    if to.IsRemote() && forall q :: q in all ==> to.HasTameDir(base, q) {
      assert to.HasTameDir(base, p);
      assert dirs <= dirs';
    }
  }

  /** One directory more. */
  lemma OneMore(to: Destination, base: Path, done: seq<Path>, p: Path, dirs: set<Path>)
    requires |base| < |p| && Going(to, base, done, dirs)
    requires Directory(to.home, to.DirOf(base, p)) == to.FileDir(base, p)
    ensures var made := to.mkdir(to.DirOf(base, p), dirs);
            if made.Allows(to.FileDir(base, p)) then Going(to, base, done + [p], made.dirs)
            else Decided(to, base, done + [p], false)
  {
    OneMoreDecided(to, base, done, p, dirs);
    if to.mkdir(to.DirOf(base, p), dirs).Allows(to.FileDir(base, p)) {
      OneMoreIsThere(to, base, done, p, dirs);
    }
  }

  lemma OneMoreDecided(to: Destination, base: Path, done: seq<Path>, p: Path, dirs: set<Path>)
    requires |base| <= |p| && Decided(to, base, done, true) && OnTrack(to, base, done, dirs)
    ensures var dir := to.DirOf(base, p); var made := to.mkdir(dir, dirs); var ok := made.Allows(Directory(to.home, dir));
            && Decided(to, base, done + [p], ok)
            && (ok ==> OnTrack(to, base, done + [p], made.dirs))
  {
    var dir, all := to.DirOf(base, p), done + [p];
    var made := to.mkdir(dir, dirs);
    var ok := made.Allows(Directory(to.home, dir));
    assert p in all && forall q :: q in done ==> q in all;
    assert forall q :: q in all ==> q in done || q == p;
    if to.IsRemote() && forall q :: q in all ==> to.HasKnownDir(base, q) {
      assert to.HasKnownDir(base, p);
      assert OnlyPlainNew(dirs, to.existing);
      if IsPlainDirectory(dir) {
        PlainMakesPlain(to.mkdir, to.home, dir, dirs, to.existing);
      } else {
        DirectorySpecials(to.home, dir);
        assert Directory(to.home, dir) !in dirs;
        MadeExactlyWhenPlain(to.mkdir, to.home, dir, dirs);
        assert !to.HasPlainDir(base, p);
      }
    }
  }

  // ---- copying ----

  /** One pass over the visits, as in `upload_dir` and in `download_dir`, writing into an empty place. */
  method CopyFiles(source: Node, base: Path, visits: seq<Visit>, to: Destination)
    returns (place: Option<Node>, dirs: set<Path>, ok: bool, ghost done: seq<Path>)
    requires source.Dir? && NamesAreProper(source)
    requires forall p :: p in AllFiles(visits) ==> IsFileBelow(source, base, p)
    ensures ok ==> done == AllFiles(visits) && Copied(place, source, base, done)
    ensures done <= AllFiles(visits) && Decided(to, base, done, ok)
    ensures ok ==> DirsAreThere(to, base, done, dirs)
  {
    place, dirs, ok, done := None, to.existing, true, [];
    assert visits[0..] == visits;
    for i := 0 to |visits|
      invariant done + AllFiles(visits[i..]) == AllFiles(visits)
      invariant ok && Copied(place, source, base, done)
      invariant Going(to, base, done, dirs)
    {
      SliceStep(visits, i);
      ghost var rest := AllFiles(visits[i + 1..]);
      FirstVisit(done, FilesOf(visits[i]), rest, AllFiles(visits));
      ghost var more;
      place, dirs, ok, more := CopyVisit(source, base, visits[i], place, dirs, done, to);
      PrefixOfAll(done, more, FilesOf(visits[i]), rest, AllFiles(visits));
      done := done + more;
      if !ok {
        return;
      }
    }
    assert done + [] == done;
  }

  lemma PrefixOfAll(done: seq<Path>, more: seq<Path>, own: seq<Path>, rest: seq<Path>, all: seq<Path>)
    requires done + own + rest == all && more <= own
    ensures done + more <= all
  {
  }

  lemma FirstVisit(done: seq<Path>, own: seq<Path>, rest: seq<Path>, all: seq<Path>)
    requires done + (own + rest) == all
    ensures done + own + rest == all
    ensures forall p :: p in own ==> p in all
  {
  }

  /** The inner loop, over the file names of one directory. */
  method CopyVisit(
    source: Node, base: Path, v: Visit, start: Option<Node>, startDirs: set<Path>, ghost done: seq<Path>, to: Destination)
    returns (place: Option<Node>, dirs: set<Path>, ok: bool, ghost more: seq<Path>)
    requires source.Dir? && NamesAreProper(source) && Copied(start, source, base, done)
    requires forall p :: p in FilesOf(v) ==> IsFileBelow(source, base, p)
    requires Going(to, base, done, startDirs)
    ensures more <= FilesOf(v) && Decided(to, base, done + more, ok)
    ensures ok ==> more == FilesOf(v) && Copied(place, source, base, done + more) && Going(to, base, done + more, dirs)
  {
    place, dirs, ok, more := start, startDirs, true, [];
    ghost var own := FilesOf(v);
    assert done + more == done;
    for j := 0 to |v.files|
      invariant ok && more == own[..j] && Copied(place, source, base, done + more)
      invariant Going(to, base, done + more, dirs)
    {
      ghost var p := v.dir + [v.files[j]];
      assert own[j] == p && p in own;
      SliceStep(own, j);
      assert done + more + [p] == done + (more + [p]);
      place, dirs, ok := CopyFile(source, base, v.dir, v.files[j], place, dirs, done + more, to);
      more := more + [p];
      if !ok {
        return;
      }
    }
    assert own[..|own|] == own;
  }

  /** Make the directory, which has to succeed, then write the file, which raises when the directory is not there. */
  method CopyFile(
    source: Node, base: Path, dir: Path, name: string, place: Option<Node>, dirs: set<Path>, ghost done: seq<Path>,
    to: Destination)
    returns (r: Option<Node>, dirs': set<Path>, ok: bool)
    requires source.Dir? && NamesAreProper(source) && Copied(place, source, base, done)
    requires IsFileBelow(source, base, dir + [name]) && Going(to, base, done, dirs)
    ensures if ok then Going(to, base, done + [dir + [name]], dirs') else Decided(to, base, done + [dir + [name]], false)
    ensures |base| < |dir + [name]|
    ensures var made := to.mkdir(to.DirOf(base, dir + [name]), dirs);
            dirs' == made.dirs && (ok <==> made.Allows(Directory(to.home, to.DirOf(base, dir + [name]))))
    // which is the directory that the file is put into
    ensures Directory(to.home, to.DirOf(base, dir + [name])) == to.FileDir(base, dir + [name])
    ensures ok ==> Copied(r, source, base, done + [dir + [name]])
  {
    ghost var p := dir + [name];
    Relocated(source, base, dir, name);
    FilesAreProper(source, p[|base|..]);
    TargetIsBelowRoot(to.home, to.root, p[|base|..]);
    assert p[|base|..][..|p| - |base| - 1] == p[|base|..|p| - 1];
    OneMore(to, base, done, p, dirs);
    var relative := RelPath(dir, base);
    var made := to.mkdir(DirText(to.root, relative), dirs);
    if made.code != 0 {
      return place, made.dirs, false;
    }
    dirs' := made.dirs;
    ok := Directory(to.home, DirText(to.root, relative)) in dirs';
    if !ok {
      return place, dirs', false;
    }
    CopyOne(place, source, base, done, p);
    var target := Follow([], relative + [name]);
    var data := Lookup(source, target).value;
    r := Some(Put(if place.Some? then place.value else Dir(map[]), target, data));
  }

  /** Where a file of the source goes, and in which directory. */
  lemma Relocated(source: Node, base: Path, dir: Path, name: string)
    requires NamesAreProper(source) && IsFileBelow(source, base, dir + [name])
    ensures base <= dir
    ensures var below := (dir + [name])[|base|..];
            && Follow([], RelPath(dir, base) + [name]) == below
            && RelPath(dir, base) == if |below| <= 1 then ["."] else below[..|below| - 1]
  {
    var p := dir + [name];
    assert base == p[..|base|] == dir[..|base|];
    var above, below := dir[|base|..], p[|base|..];
    assert below == above + [name];
    FilesAreProper(source, below);
    assert below[|above|] == name;
    assert forall i :: 0 <= i < |above| ==> above[i] == below[i];
    RelocatedPath(base, dir, name);
    assert below[..|above|] == above;
  }

  datatype Copy = Done(place: Option<Node>, dirs: set<Path>) | Raised

  /** Every file of the tree goes to a plain directory. */
  ghost predicate AllPlain(source: Node, root: string) {
    forall p :: Lookup(source, p).Some? ==> IsPlainDirectory(TargetDir(root, p))
  }

  /** Every file of the tree goes to a directory whose command is known word by word, and which is plain or not there yet. */
  ghost predicate AllKnown(source: Node, to: Destination) {
    forall p :: Lookup(source, p).Some? ==> to.HasKnownDir([], p)
  }

  /** The directory of every file of the tree is there, and those from before are. */
  ghost predicate TreeDirsAreThere(source: Node, to: Destination, dirs: set<Path>) {
    to.existing <= dirs && forall p :: Lookup(source, p).Some? ==> p != [] && to.FileDir([], p) in dirs
  }

  ghost predicate AllTame(source: Node, to: Destination) {
    forall p :: Lookup(source, p).Some? ==> to.HasTameDir([], p)
  }

  /**
    A whole directory: the copy is the tree minus its empty directories, or nothing when it has no
    file. To the local side it never raises. To the remote side it does not raise when all directories
    are plain; if every command is known word by word, it raises exactly when one is not.
   */
  method CopyDir(source: Node, base: Path, order: Order, to: Destination) returns (r: Copy)
    requires source.Dir? && NamesAreProper(source) && IsOrder(order)
    ensures r.Done? ==> r.place == if HasFile(source) then Some(Prune(source)) else None
    ensures to.IsLocal() ==> r.Done?
    ensures to.IsRemote() && AllPlain(source, to.root) ==> r.Done?
    ensures to.IsRemote() && AllKnown(source, to) ==> (r.Done? <==> AllPlain(source, to.root))
    // and then the directory of every file is there
    ensures r.Done? && (to.IsLocal() || (to.IsRemote() && AllTame(source, to))) ==> TreeDirsAreThere(source, to, r.dirs)
  {
    var visits := Walk(source, base, order);
    WalkVisits(source, base, order);
    ghost var done;
    var place, dirs, ok;
    place, dirs, ok, done := CopyFiles(source, base, visits, to);
    FilesAreBelow(source, base, AllFiles(visits), done, to);
    if !ok {
      return Raised;
    }
    CopyIsPruned(place, source, base, AllFiles(visits));
    if to.IsLocal() || (to.IsRemote() && AllTame(source, to)) {
      DirsOfTree(source, base, AllFiles(visits), to, dirs);
    }
    r := Done(place, dirs);
  }

  lemma DirsOfTree(source: Node, base: Path, files: seq<Path>, to: Destination, dirs: set<Path>)
    requires source.Dir? && DirsAreThere(to, base, files, dirs)
    requires forall p :: p in files <==> IsFileBelow(source, base, p)
    requires to.IsLocal() || (to.IsRemote() && AllTame(source, to))
    ensures TreeDirsAreThere(source, to, dirs)
  {
    forall p | p in files && AllTame(source, to)
      ensures to.HasTameDir(base, p)
    {
      SeenFromBase(base, p, to);
      assert Lookup(source, p[|base|..]).Some?;
    }
    forall q | Lookup(source, q).Some?
      ensures q != [] && to.FileDir([], q) in dirs
    {
      Uncat(base, q);
      assert base <= base + q && q != [] && base + q in files;
      SeenFromBase(base, base + q, to);
    }
  }

  /** A file has the same directory on the destination whether its path is taken from the base or from its root. */
  lemma SeenFromBase(base: Path, p: Path, to: Destination)
    requires |base| < |p|
    ensures to.DirOf(base, p) == to.DirOf([], p[|base|..]) && to.FileDir(base, p) == to.FileDir([], p[|base|..])
    ensures to.HasTameDir([], p[|base|..]) ==> to.HasTameDir(base, p)
  {
    var q := p[|base|..];
    assert q[0..] == q && q[0..|q| - 1] == p[|base|..|p| - 1];
  }

  /** The visited files, seen from the root of the tree. */
  lemma FilesAreBelow(source: Node, base: Path, files: seq<Path>, done: seq<Path>, to: Destination)
    requires source.Dir? && done <= files
    requires forall p :: p in files <==> IsFileBelow(source, base, p)
    ensures AllPlain(source, to.root) ==> forall p :: p in done ==> to.HasPlainDir(base, p)
    ensures AllKnown(source, to) ==> forall p :: p in done ==> to.HasKnownDir(base, p)
    ensures done == files && (forall p :: p in done ==> to.HasPlainDir(base, p)) ==> AllPlain(source, to.root)
  {
    forall p | p in done
      ensures p in files && Lookup(source, p[|base|..]).Some? && p[|base|..][0..] == p[|base|..]
    {
    }
    forall q | Lookup(source, q).Some?
      ensures base + q in files && (base + q)[|base|..] == q
    {
      Uncat(base, q);
      assert base <= base + q && q != [];
    }
  }

  lemma CopyIsPruned(place: Option<Node>, source: Node, base: Path, files: seq<Path>)
    requires source.Dir? && Copied(place, source, base, files)
    requires forall p :: p in files <==> IsFileBelow(source, base, p)
    ensures place == if HasFile(source) then Some(Prune(source)) else None
  {
    if HasFile(source) {
      var w := FileWitness(source);
      Uncat(base, w);
      assert base <= base + w && base + w in files;
      CompleteCopy(place.value, source, base, files);
    } else if place.Some? {
      var w := FileWitness(place.value);
      LookupHasFile(source, w);
    }
  }

  lemma CompleteCopy(copy: Node, source: Node, base: Path, done: seq<Path>)
    requires source.Dir? && Copied(Some(copy), source, base, done)
    requires forall p :: IsFileBelow(source, base, p) ==> p in done
    ensures copy == Prune(source)
  {
    forall q
      ensures Lookup(copy, q) == Lookup(Prune(source), q)
    {
      PruneKeepsFiles(source, q);
      Uncat(base, q);
      assert base <= base + q;
      assert Lookup(source, q).Some? && q != [] ==> IsFileBelow(source, base, base + q);
    }
    PruneIsSolid(source);
    SameFilesSameTree(copy, Prune(source));
  }

  lemma {:induction false} PruneProper(n: Node)
    requires NamesAreProper(n)
    ensures NamesAreProper(Prune(n))
    decreases n
  {
    if n.Dir? {
      forall k | k in Prune(n).entries
        ensures IsProperName(k) && NamesAreProper(Prune(n).entries[k])
      {
        PruneProper(n.entries[k]);
      }
    }
  }

  lemma {:induction false} PruneTwice(n: Node)
    ensures Prune(Prune(n)) == Prune(n)
    decreases n
  {
    if n.Dir? {
      forall k | k in n.entries && HasFile(n.entries[k])
        ensures HasFile(Prune(n.entries[k])) && Prune(Prune(n.entries[k])) == Prune(n.entries[k])
      {
        PruneIsSolid(n.entries[k]);
        PruneTwice(n.entries[k]);
      }
      assert Prune(Prune(n)).entries == Prune(n).entries;
    }
  }

  datatype Downloaded = Tree(node: Node) | NoSuchDirectory | UploadRaised

  /**
    `upload_dir` into an absent remote directory and `download_dir` back into an empty local one: the
    same tree minus its empty directories. A tree without any file creates no remote directory, and
    listing that raises. Only the upload goes through the shell.
   */
  method UploadThenDownload(
    local: Node, localPath: Path, remotePath: Path, listing: Order, sorted: Order, up: Destination, down: Destination)
    returns (r: Downloaded)
    requires local.Dir? && NamesAreProper(local) && IsOrder(listing) && IsOrder(sorted)
    requires up.IsRemote() && down.IsLocal()
    ensures r != UploadRaised ==> r == if HasFile(local) then Tree(Prune(local)) else NoSuchDirectory
    ensures AllPlain(local, up.root) ==> r != UploadRaised
    ensures AllKnown(local, up) ==> (r == UploadRaised <==> !AllPlain(local, up.root))
  {
    var remote := CopyDir(local, localPath, listing, up);
    if remote == Raised {
      return UploadRaised;
    }
    if remote.place.None? {
      return NoSuchDirectory;
    }
    PruneProper(local);
    PruneIsSolid(local);
    PruneTwice(local);
    var back := CopyDir(remote.place.value, remotePath, sorted, down);
    r := Tree(back.place.value);
  }

  /** One file in a directory with a blank: the input for which the upload raises. */
  function BlankTree(x: string, y: string, name: string, data: seq<Byte>): Node {
    Dir(map[x + " " + y := Dir(map[name := File(data)])])
  }

  lemma OneFile(top: string, name: string, data: seq<Byte>, p: Path)
    ensures Lookup(Dir(map[top := Dir(map[name := File(data)])]), p).Some? <==> p == [top, name]
  {
    var child := Dir(map[name := File(data)]);
    var n := Dir(map[top := child]);
    if p != [] && p[0] == top {
      var q := p[1..];
      assert p == [top] + q && Lookup(n, p) == Lookup(child, q);
      if q != [] && q[0] == name {
        assert q == [name] + q[1..] && Lookup(child, q) == Lookup(File(data), q[1..]);
      }
      assert q == [name] <==> p == [top, name];
    }
  }

  /** The directory of that file is known word by word, and is not plain. */
  lemma BlankDirIsKnown(x: string, y: string, name: string, to: Destination)
    requires y != "" && IsPlainDirectory(DirText(to.root, [x])) && IsLiteralAfter(Between, y)
    requires ".." !in Split(DirText(to.root, [x + " " + y]), "/")
    requires Directory(to.home, DirText(to.root, [x + " " + y])) !in to.existing
    ensures to.HasKnownDir([], [x + " " + y, name])
    ensures !IsPlainDirectory(TargetDir(to.root, [x + " " + y, name]))
  {
    var at, dir := DirText(to.root, [x]), DirText(to.root, [x + " " + y]);
    assert dir == at + " " + y;
    BlankSplitsDirectory(at, y);
    var file := [x + " " + y, name];
    assert file[..1] == [x + " " + y] && file[0..] == file;
    assert to.DirOf([], file) == dir;
  }

  /** Its upload into an empty place below a plain root raises, whatever the shell is. */
  method BlankUploadRaises(x: string, y: string, name: string, data: seq<Byte>, order: Order, to: Destination)
    returns (r: Copy)
    requires IsOrder(order) && to.IsRemote()
    requires IsProperName(name) && y != "" && IsPlainDirectory(DirText(to.root, [x])) && IsLiteralAfter(Between, y)
    requires IsProperName(x + " " + y) && ".." !in Split(DirText(to.root, [x + " " + y]), "/")
    requires Directory(to.home, DirText(to.root, [x + " " + y])) !in to.existing
    ensures r == Raised
  {
    var source := BlankTree(x, y, name, data);
    BlankDirIsKnown(x, y, name, to);
    forall p
      ensures Lookup(source, p).Some? <==> p == [x + " " + y, name]
    {
      OneFile(x + " " + y, name, data, p);
    }
    assert !AllPlain(source, to.root) && AllKnown(source, to);
    r := CopyDir(source, [], order, to);
  }
}
