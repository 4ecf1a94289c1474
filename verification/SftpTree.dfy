/**
  Directory trees and `Sftp.walk` of score/itf/core/com/sftp.py. Paths are sequences of components.
 */
module SftpTree {
  import opened Text
  import opened Utf8

  type Path = seq<string>

  datatype Node = File(data: seq<Byte>) | Dir(entries: map<string, Node>)

  /** The order in which a directory is listed: sorted, or whatever the file system gives. */
  type Order = set<string> -> seq<string>

  ghost predicate IsOrder(order: Order) {
    forall names: set<string> ::
      && (forall x :: x in order(names) <==> x in names)
      && (forall i, j :: 0 <= i < j < |order(names)| ==> order(names)[i] != order(names)[j])
  }

  /** What a path leads to, if it leads to a file. */
  function Lookup(n: Node, p: Path): Option<seq<Byte>>
    decreases |p|
  {
    if p == [] then (if n.File? then Some(n.data) else None)
    else if n.Dir? && p[0] in n.entries then Lookup(n.entries[p[0]], p[1..])
    else None
  }

  /** What a directory entry can be called. */
  predicate IsProperName(name: string) {
    name != "" && name != "." && name != ".." && '/' !in name
  }

  predicate NamesAreProper(n: Node) {
    n.Dir? ==> forall k :: k in n.entries ==> IsProperName(k) && NamesAreProper(n.entries[k])
  }

  // ---- walking ----

  datatype Visit = Visit(dir: Path, files: seq<string>)

  function FileNames(n: Node): set<string> {
    if n.Dir? then set k | k in n.entries && n.entries[k].File? else {}
  }

  function FolderNames(n: Node): set<string> {
    if n.Dir? then set k | k in n.entries && n.entries[k].Dir? else {}
  }

  /** `walk`: a directory's own files, if any, and then its folders one by one. */
  function Walk(n: Node, at: Path, order: Order): seq<Visit>
    requires n.Dir?
    decreases n, 1, 0
  {
    var files := order(FileNames(n));
    (if files != [] then [Visit(at, files)] else []) + WalkFolders(n, at, order(FolderNames(n)), order)
  }

  function WalkFolders(n: Node, at: Path, folders: seq<string>, order: Order): seq<Visit>
    requires n.Dir?
    decreases n, 0, |folders|
  {
    if folders == [] then []
    else
      (if folders[0] in n.entries && n.entries[folders[0]].Dir?
       then Walk(n.entries[folders[0]], at + [folders[0]], order) else [])
      + WalkFolders(n, at, folders[1..], order)
  }

  /** The files that a visit names. */
  function FilesOf(v: Visit): seq<Path> {
    seq(|v.files|, i requires 0 <= i < |v.files| => v.dir + [v.files[i]])
  }

  function AllFiles(visits: seq<Visit>): seq<Path> {
    if visits == [] then [] else FilesOf(visits[0]) + AllFiles(visits[1..])
  }

  lemma {:induction false} AllFilesConcat(a: seq<Visit>, b: seq<Visit>)
    ensures AllFiles(a + b) == AllFiles(a) + AllFiles(b)
  {
    if a == [] {
      assert a + b == b;
    } else {
      assert (a + b)[1..] == a[1..] + b;
      AllFilesConcat(a[1..], b);
    }
  }

  predicate Distinct(ps: seq<Path>) {
    forall i, j :: 0 <= i < j < |ps| ==> ps[i] != ps[j]
  }

  lemma DistinctConcat(a: seq<Path>, b: seq<Path>)
    requires Distinct(a) && Distinct(b) && forall p :: p in a ==> p !in b
    ensures Distinct(a + b)
  {
    var c := a + b;
    forall i, j | 0 <= i < j < |c|
      ensures c[i] != c[j]
    {
      assert i < |a| ==> c[i] in a;
      assert j >= |a| ==> c[j] in b;
    }
  }

  /** The path, below the directory at `at`, leads to a file. */
  predicate IsFileBelow(n: Node, at: Path, p: Path) {
    at <= p && |at| < |p| && Lookup(n, p[|at|..]).Some?
  }

  /** The path goes through one of the given folders and leads to a file. */
  predicate IsFileInFolders(n: Node, at: Path, folders: seq<string>, p: Path)
    requires n.Dir?
  {
    IsFileBelow(n, at, p) && |at| + 1 < |p| && p[|at|] in folders
  }

  lemma LookupSteps(n: Node, at: Path, p: Path)
    requires n.Dir? && at <= p && |at| < |p|
    ensures Lookup(n, p[|at|..])
         == if p[|at|] in n.entries then Lookup(n.entries[p[|at|]], p[|at| + 1..]) else None
  {
    assert p[|at|..][1..] == p[|at| + 1..];
  }

  lemma {:induction false} WalkFoldersVisits(n: Node, at: Path, folders: seq<string>, order: Order)
    requires n.Dir? && IsOrder(order)
    requires forall i, j :: 0 <= i < j < |folders| ==> folders[i] != folders[j]
    requires forall f :: f in folders ==> f in FolderNames(n)
    ensures var fs := AllFiles(WalkFolders(n, at, folders, order));
            Distinct(fs) && forall p :: p in fs <==> IsFileInFolders(n, at, folders, p)
    decreases n, 0, |folders|
  {
    if folders != [] {
      var f, rest := folders[0], folders[1..];
      assert f in folders && f in FolderNames(n);
      var child := n.entries[f];
      WalkVisits(child, at + [f], order);
      WalkFoldersVisits(n, at, rest, order);
      var a, b := AllFiles(Walk(child, at + [f], order)), AllFiles(WalkFolders(n, at, rest, order));
      AllFilesConcat(Walk(child, at + [f], order), WalkFolders(n, at, rest, order));
      FolderFiles(n, at, f, a);
      assert f !in rest;
      assert forall p :: p in a ==> p[|at|] == f;
      DistinctConcat(a, b);
      FirstFolder(n, at, folders, a, b);
    }
  }

  /** The files below one folder, seen from its parent. */
  lemma FolderFiles(n: Node, at: Path, f: string, fs: seq<Path>)
    requires n.Dir? && f in FolderNames(n)
    requires forall p :: p in fs <==> IsFileBelow(n.entries[f], at + [f], p)
    ensures forall p :: p in fs <==> IsFileInFolders(n, at, [f], p)
  {
    forall p
      ensures p in fs <==> IsFileInFolders(n, at, [f], p)
    {
      if at <= p && |at| < |p| {
        LookupSteps(n, at, p);
        assert at + [f] <= p <==> p[|at|] == f;
      } else {
        assert at + [f] <= p ==> at <= p;
      }
    }
  }

  lemma FirstFolder(n: Node, at: Path, folders: seq<string>, a: seq<Path>, b: seq<Path>)
    requires n.Dir? && folders != []
    requires forall p :: p in a <==> IsFileInFolders(n, at, [folders[0]], p)
    requires forall p :: p in b <==> IsFileInFolders(n, at, folders[1..], p)
    ensures forall p :: p in a + b <==> IsFileInFolders(n, at, folders, p)
  {
    assert folders == [folders[0]] + folders[1..];
    forall p
      ensures p in a + b <==> IsFileInFolders(n, at, folders, p)
    {
      assert p in a + b <==> p in a || p in b;
    }
  }

  /** `walk` visits every file of the tree exactly once, and nothing else. */
  lemma {:induction false} WalkVisits(n: Node, at: Path, order: Order)
    requires n.Dir? && IsOrder(order)
    ensures var fs := AllFiles(Walk(n, at, order));
            Distinct(fs) && forall p :: p in fs <==> IsFileBelow(n, at, p)
    decreases n, 1, 0
  {
    var files, folders := order(FileNames(n)), order(FolderNames(n));
    assert (forall x :: x in order(FileNames(n)) <==> x in FileNames(n));
    assert (forall x :: x in order(FolderNames(n)) <==> x in FolderNames(n));
    WalkFoldersVisits(n, at, folders, order);
    var own := FilesOf(Visit(at, files));
    var below := AllFiles(WalkFolders(n, at, folders, order));
    var first := if files != [] then [Visit(at, files)] else [];
    AllFilesConcat(first, WalkFolders(n, at, folders, order));
    assert AllFiles(first) == own;
    OwnFiles(n, at, files);
    forall p
      ensures p in own + below <==> IsFileBelow(n, at, p)
    {
      if at <= p && |at| < |p| {
        LookupSteps(n, at, p);
      }
    }
    DistinctConcat(own, below);
  }

  lemma OwnFiles(n: Node, at: Path, files: seq<string>)
    requires n.Dir?
    requires forall x :: x in files <==> x in FileNames(n)
    requires forall i, j :: 0 <= i < j < |files| ==> files[i] != files[j]
    ensures var own := FilesOf(Visit(at, files));
            Distinct(own) && forall p :: p in own <==> IsFileBelow(n, at, p) && |p| == |at| + 1
  {
    var own := FilesOf(Visit(at, files));
    forall i, j | 0 <= i < j < |own|
      ensures own[i] != own[j]
    {
      assert own[i][|at|] == files[i] && own[j][|at|] == files[j];
    }
    forall p
      ensures p in own <==> IsFileBelow(n, at, p) && |p| == |at| + 1
    {
      if p in own {
        var i :| 0 <= i < |own| && own[i] == p;
        assert p == at + [files[i]] && files[i] in FileNames(n);
        LookupSteps(n, at, p);
      }
      if IsFileBelow(n, at, p) && |p| == |at| + 1 {
        LookupSteps(n, at, p);
        assert p == at + [p[|at|]];
        assert p[|at|] in files;
        var i :| 0 <= i < |files| && files[i] == p[|at|];
        assert own[i] == p;
      }
    }
  }

  // ---- the order of the walk ----

  /** What a path leads to. */
  function NodeAt(n: Node, p: Path): Option<Node>
    decreases |p|
  {
    if p == [] then Some(n)
    else if n.Dir? && p[0] in n.entries then NodeAt(n.entries[p[0]], p[1..])
    else None
  }

  /** A visit lists the files of its directory, in the order of the listing. */
  predicate IsListing(n: Node, at: Path, order: Order, v: Visit) {
    && at <= v.dir && NodeAt(n, v.dir[|at|..]).Some?
    && var d := NodeAt(n, v.dir[|at|..]).value; d.Dir? && v.files == order(FileNames(d)) && v.files != []
  }

  /** No directory comes behind one of its subdirectories, or twice. */
  predicate IsTopDown(visits: seq<Visit>) {
    forall i, j :: 0 <= i < j < |visits| ==> !(visits[j].dir <= visits[i].dir)
  }

  lemma TopDownConcat(a: seq<Visit>, b: seq<Visit>)
    requires IsTopDown(a) && IsTopDown(b)
    requires forall v, w :: v in a && w in b ==> !(w.dir <= v.dir)
    ensures IsTopDown(a + b)
  {
    var c := a + b;
    forall i, j | 0 <= i < j < |c|
      ensures !(c[j].dir <= c[i].dir)
    {
      if i < |a| <= j {
        assert c[i] in a && c[j] in b;
      }
    }
  }

  lemma DeeperListing(n: Node, at: Path, f: string, order: Order, v: Visit)
    requires n.Dir? && f in n.entries && IsListing(n.entries[f], at + [f], order, v)
    ensures IsListing(n, at, order, v) && |at| < |v.dir| && v.dir[|at|] == f
  {
    var p := v.dir[|at|..];
    assert p[0] == f && p[1..] == v.dir[|at| + 1..];
  }

  /** `walk` lists every directory that has files in its place: before its subdirectories, and once. */
  lemma {:induction false} WalkIsTopDown(n: Node, at: Path, order: Order)
    requires n.Dir? && IsOrder(order)
    ensures IsTopDown(Walk(n, at, order))
    ensures forall v :: v in Walk(n, at, order) ==> IsListing(n, at, order, v)
    decreases n, 1, 0
  {
    var files, folders := order(FileNames(n)), order(FolderNames(n));
    var own := if files != [] then [Visit(at, files)] else [];
    WalkFoldersTopDown(n, at, folders, order);
    TopDownConcat(own, WalkFolders(n, at, folders, order));
    assert at[|at|..] == [];
  }

  lemma {:induction false} WalkFoldersTopDown(n: Node, at: Path, folders: seq<string>, order: Order)
    requires n.Dir? && IsOrder(order)
    requires forall i, j :: 0 <= i < j < |folders| ==> folders[i] != folders[j]
    ensures IsTopDown(WalkFolders(n, at, folders, order))
    ensures forall v :: v in WalkFolders(n, at, folders, order) ==>
              IsListing(n, at, order, v) && |at| < |v.dir| && v.dir[|at|] in folders
    decreases n, 0, |folders|
  {
    if folders != [] {
      var f, rest := folders[0], folders[1..];
      var a := if f in n.entries && n.entries[f].Dir? then Walk(n.entries[f], at + [f], order) else [];
      WalkFoldersTopDown(n, at, rest, order);
      if a != [] {
        WalkIsTopDown(n.entries[f], at + [f], order);
        forall v | v in a
          ensures IsListing(n, at, order, v) && |at| < |v.dir| && v.dir[|at|] == f
        {
          DeeperListing(n, at, f, order, v);
        }
      }
      assert f !in rest;
      TopDownConcat(a, WalkFolders(n, at, rest, order));
    }
  }

  // ---- trees without empty directories ----

  predicate HasFile(n: Node) {
    n.File? || exists k :: k in n.entries && HasFile(n.entries[k])
  }

  /** No directory below the root is without files. */
  predicate Solid(n: Node) {
    n.Dir? ==> forall k :: k in n.entries ==> HasFile(n.entries[k]) && Solid(n.entries[k])
  }

  /** The tree minus its empty directories. */
  function Prune(n: Node): Node {
    if n.File? then n
    else Dir(map k | k in n.entries && HasFile(n.entries[k]) :: Prune(n.entries[k]))
  }

  lemma {:induction false} FileWitness(n: Node) returns (p: Path)
    requires HasFile(n)
    ensures Lookup(n, p).Some?
  {
    if n.File? {
      p := [];
    } else {
      var k :| k in n.entries && HasFile(n.entries[k]);
      var q := FileWitness(n.entries[k]);
      p := [k] + q;
      assert p[1..] == q;
    }
  }

  lemma {:induction false} LookupHasFile(n: Node, p: Path)
    requires Lookup(n, p).Some?
    ensures HasFile(n)
    decreases |p|
  {
    if p != [] {
      LookupHasFile(n.entries[p[0]], p[1..]);
    }
  }

  lemma {:induction false} PruneKeepsFiles(n: Node, p: Path)
    ensures Lookup(Prune(n), p) == Lookup(n, p)
    decreases |p|
  {
    if p != [] && n.Dir? && p[0] in n.entries {
      var child := n.entries[p[0]];
      if HasFile(child) {
        PruneKeepsFiles(child, p[1..]);
      } else if Lookup(child, p[1..]).Some? {
        LookupHasFile(child, p[1..]);
      }
    }
  }

  lemma {:induction false} PruneIsSolid(n: Node)
    ensures Solid(Prune(n)) && (HasFile(n) ==> HasFile(Prune(n)))
    decreases n
  {
    if n.Dir? {
      forall k | k in n.entries
        ensures Solid(Prune(n.entries[k])) && (HasFile(n.entries[k]) ==> HasFile(Prune(n.entries[k])))
      {
        PruneIsSolid(n.entries[k]);
      }
      if HasFile(n) {
        var k :| k in n.entries && HasFile(n.entries[k]);
        assert k in Prune(n).entries;
      }
    }
  }

  /** A tree without empty directories is determined by its files. */
  lemma {:induction false} SameFilesSameTree(a: Node, b: Node)
    requires a.Dir? && b.Dir? && Solid(a) && Solid(b)
    requires forall p :: Lookup(a, p) == Lookup(b, p)
    ensures a == b
    decreases a
  {
    SameNames(a, b);
    SameNames(b, a);
    forall k | k in a.entries
      ensures a.entries[k] == b.entries[k]
    {
      var c, d := a.entries[k], b.entries[k];
      forall p
        ensures Lookup(c, p) == Lookup(d, p)
      {
        assert ([k] + p)[1..] == p;
        assert Lookup(a, [k] + p) == Lookup(b, [k] + p);
      }
      assert Lookup(c, []) == Lookup(d, []);
      if c.Dir? {
        SameFilesSameTree(c, d);
      }
    }
    assert a.entries == b.entries;
  }

  lemma SameNames(a: Node, b: Node)
    requires a.Dir? && b.Dir? && Solid(a)
    requires forall p :: Lookup(a, p) == Lookup(b, p)
    ensures forall k :: k in a.entries ==> k in b.entries
  {
    forall k | k in a.entries
      ensures k in b.entries
    {
      var q := FileWitness(a.entries[k]);
      assert ([k] + q)[1..] == q;
      assert Lookup(a, [k] + q) == Lookup(b, [k] + q);
    }
  }

  // ---- writing one file ----

  /** Nothing is in the way: no file where a directory is needed, no directory where the file goes. */
  predicate CanPut(n: Node, p: Path)
    decreases |p|
  {
    && n.Dir? && p != []
    && (p[0] in n.entries ==> if |p| == 1 then n.entries[p[0]].File? else CanPut(n.entries[p[0]], p[1..]))
  }

  /** Create the missing directories on the way, then the file. */
  function Put(n: Node, p: Path, data: seq<Byte>): (r: Node)
    requires CanPut(n, p)
    ensures r.Dir?
    decreases |p|
  {
    var child :=
      if |p| == 1 then File(data)
      else if p[0] in n.entries then Put(n.entries[p[0]], p[1..], data)
      else PutNew(p[1..], data);
    Dir(n.entries[p[0] := child])
  }

  function PutNew(p: Path, data: seq<Byte>): Node
    decreases |p|
  {
    if p == [] then File(data) else Dir(map[p[0] := PutNew(p[1..], data)])
  }

  lemma {:induction false} PutNewFiles(p: Path, data: seq<Byte>, q: Path)
    ensures Lookup(PutNew(p, data), q) == if q == p then Some(data) else None
    ensures HasFile(PutNew(p, data)) && Solid(PutNew(p, data))
    decreases |p|
  {
    if p == [] {
    } else {
      var n := PutNew(p, data);
      assert p[0] in n.entries;
      PutNewFiles(p[1..], data, if q != [] then q[1..] else []);
      if q != [] && q[0] == p[0] {
        assert q == p <==> q[1..] == p[1..] by {
          assert q == [q[0]] + q[1..] && p == [p[0]] + p[1..];
        }
      }
    }
  }

  lemma {:induction false} PutFiles(n: Node, p: Path, data: seq<Byte>, q: Path)
    requires CanPut(n, p)
    ensures Lookup(Put(n, p, data), q) == if q == p then Some(data) else Lookup(n, q)
    decreases |p|
  {
    if q != [] && q[0] == p[0] {
      assert q == p <==> q[1..] == p[1..] by {
        assert q == [q[0]] + q[1..] && p == [p[0]] + p[1..];
      }
      if |p| == 1 {
        assert p[1..] == [];
        if p[0] in n.entries && q[1..] != [] {
          assert Lookup(n.entries[p[0]], q[1..]) == None;
        }
      } else if p[0] in n.entries {
        PutFiles(n.entries[p[0]], p[1..], data, q[1..]);
      } else {
        PutNewFiles(p[1..], data, q[1..]);
      }
    }
  }

  lemma {:induction false} PutIsSolid(n: Node, p: Path, data: seq<Byte>)
    requires CanPut(n, p) && Solid(n)
    ensures Solid(Put(n, p, data)) && HasFile(Put(n, p, data))
    decreases |p|
  {
    var r := Put(n, p, data);
    if |p| > 1 {
      if p[0] in n.entries {
        PutIsSolid(n.entries[p[0]], p[1..], data);
      } else {
        PutNewFiles(p[1..], data, []);
      }
    }
    assert p[0] in r.entries && HasFile(r.entries[p[0]]);
  }

  predicate ProperPrefix(p: Path, q: Path) {
    p < q
  }

  lemma TailPrefix(p: Path, q: Path)
    requires p != [] && q != []
    ensures p < q ==> p[1..] < q[1..]
  {
  }

  lemma FileInside(n: Node, name: string) returns (p: Path)
    requires n.Dir? && Solid(n) && name in n.entries && n.entries[name].Dir?
    ensures Lookup(n, p).Some? && ProperPrefix([name], p)
  {
    var q := FileWitness(n.entries[name]);
    p := [name] + q;
    assert p[1..] == q;
  }

  /** Paths of files that do not contain each other are never in each other's way. */
  lemma {:induction false} RoomForFile(n: Node, p: Path)
    requires n.Dir? && Solid(n) && p != []
    requires forall q :: Lookup(n, q).Some? ==> !ProperPrefix(q, p) && !ProperPrefix(p, q)
    ensures CanPut(n, p)
    decreases |p|
  {
    if p[0] in n.entries {
      var child := n.entries[p[0]];
      if |p| == 1 {
        assert p == [p[0]];
        if child.Dir? {
          var q := FileInside(n, p[0]);
        }
      } else {
        if child.File? {
          assert [p[0]][1..] == [];
          assert Lookup(n, [p[0]]).Some? && ProperPrefix([p[0]], p);
        }
        forall q | Lookup(child, q).Some?
          ensures !ProperPrefix(q, p[1..]) && !ProperPrefix(p[1..], q)
        {
          assert ([p[0]] + q)[1..] == q;
          assert Lookup(n, [p[0]] + q).Some?;
          assert p == [p[0]] + p[1..];
        }
        RoomForFile(child, p[1..]);
      }
    }
  }

  lemma {:induction false} FilesDoNotContainFiles(n: Node, p: Path, q: Path)
    requires Lookup(n, p).Some? && Lookup(n, q).Some?
    ensures !ProperPrefix(p, q)
    decreases |p|
  {
    if p != [] && q != [] && p[0] == q[0] {
      FilesDoNotContainFiles(n.entries[p[0]], p[1..], q[1..]);
      TailPrefix(p, q);
    }
  }
}
