/** SBOM scan trees (scripts/release_sbom.py): a name-checked archive is laid out on disk and
    read back.  The disk may itself fold names (a case-insensitive or normalising volume); as
    long as it folds no more than the collision key does, every mkdir finds its parent, every
    exclusive open meets nothing, and the readback spells every path as the archive did. */
module ScanTree {
  import opened ArchiveNames
  import opened Wrappers
  import ArchiveMeaning
  import Text

  type Bytes = seq<bv8>

  datatype Entry = Entry(member: Member, payload: Bytes)

  datatype ArchiveTree = ArchiveTree(files: map<Path, Bytes>, directories: set<Path>)

  function Members(es: seq<Entry>): seq<Member> {
    seq(|es|, i requires 0 <= i < |es| => es[i].member)
  }

  // ---- Reading the archive ----

  /** The components `PurePosixPath(name)` keeps. */
  function PosixParts(parts: seq<string>): Path {
    if parts == [] then []
    else (if parts[0] in {"", "."} then [] else [parts[0]]) + PosixParts(parts[1..])
  }

  function SafeMemberPath(name: string): Option<Path> {
    if name == "" || '\\' in name || '\0' in name || name[0] == '/' then None
    else
      var parts := PosixParts(Text.Split('/', name));
      if ".." in parts then None else Some(parts)
  }

  lemma {:induction false} PosixPartsKeep(parts: seq<string>)
    requires forall i | 0 <= i < |parts| :: parts[i] !in {"", "."}
    ensures PosixParts(parts) == parts
    ensures PosixParts(parts + [""]) == parts
  {
    if parts != [] {
      PosixPartsKeep(parts[1..]);
      assert (parts + [""])[1..] == parts[1..] + [""];
      assert parts == [parts[0]] + parts[1..];
    } else {
      assert parts + [""] == [""] && [""][1..] == [];
    }
  }

  /** A member name without the slash that ends the name of a directory. */
  function Stem(name: string): string
    requires name != []
  {
    if name[|name| - 1] == '/' then name[..|name| - 1] else name
  }

  lemma CanonicalParts(n: Naming, m: Member)
    requires Named(n, m)
    ensures m.name != "" && '\\' !in m.name && m.name[0] != '/'
    ensures PathOf(n, m) == Text.Split('/', Stem(m.name))
    ensures forall i | 0 <= i < |PathOf(n, m)| :: PathOf(n, m)[i] !in {"", ".", ".."}
  {
    hide Text.Split, Text.EndsWith;
  }

  lemma SafePathIsCanonical(n: Naming, m: Member)
    requires Named(n, m)
    ensures SafeMemberPath(m.name) == if '\0' in m.name then None else Some(PathOf(n, m))
  {
    hide Named, PathOf, Text.Split, PosixParts;
    CanonicalParts(n, m);
    PosixPartsKeep(PathOf(n, m));
    if Stem(m.name) != m.name {
      assert m.name == Stem(m.name) + "/";
      Text.SplitTrailing('/', Stem(m.name));
    }
  }

  /** `_wheel_tree` / `_sdist_tree`: fills both collections in member order. */
  method ReadTree(es: seq<Entry>, ghost n: Naming) returns (r: Result<ArchiveTree, string>)
    requires Collisionless(n, Members(es))
    ensures r.Success? <==> forall e | e in es :: '\0' !in e.member.name
    ensures r.Success? ==> r.value == TreeOf(n, es)
  {
    hide SafeMemberPath, Prefixes, FilesOf, Directories, Publishable, OneSpelling;
    var files: map<Path, Bytes> := map[];
    var directories: set<Path>, seen: set<Path> := {}, {};
    EmptyTree(n);
    var i := 0;
    while i < |es|
      invariant 0 <= i <= |es|
      invariant forall e | e in es[..i] :: '\0' !in e.member.name
      invariant ArchiveTree(files, directories) == TreeOf(n, es[..i])
      invariant seen == set m | m in Members(es[..i]) :: PathOf(n, m)
    {
      var e := es[i];
      assert e in es && Members(es)[i] == e.member;
      SafePathIsCanonical(n, e.member);
      var relative := SafeMemberPath(e.member.name);
      if relative.None? { return Failure("unsafe member name"); }
      var path := relative.value;
      FreshPath(n, es, i);
      if path in seen { return Failure("duplicate member"); }
      seen := seen + {path};
      if e.member.isDirectory {
        directories := directories + {path};
      } else {
        files := files[path := e.payload];
      }
      directories := AddParents(path, directories);
      assert es[..i + 1] == es[..i] + [e];
      GrownTree(n, es[..i], e);
      i := i + 1;
    }
    assert es[..i] == es;
    r := Success(ArchiveTree(files, directories));
  }

  /** `_add_parent_directories`: from the nearest parent up. */
  method AddParents(path: Path, directories0: set<Path>) returns (directories: set<Path>)
    requires path != []
    ensures directories == directories0 + Prefixes(path, |path|)
  {
    directories := directories0;
    var k := |path|;
    while k > 1
      invariant 1 <= k <= |path|
      invariant directories == directories0 + (Prefixes(path, |path|) - Prefixes(path, k))
    {
      k := k - 1;
      directories := directories + {path[..k]};
      assert Prefixes(path, k + 1) == Prefixes(path, k) + {path[..k]};
    }
    assert Prefixes(path, 1) == {};
  }

  /** The tree an accepted archive stands for. */
  ghost function TreeOf(n: Naming, es: seq<Entry>): ArchiveTree {
    ArchiveTree(FilesOf(n, es), Directories(n, Members(es)))
  }

  ghost function FilesOf(n: Naming, es: seq<Entry>): map<Path, Bytes> {
    if es == [] then map[]
    else
      var last := es[|es| - 1];
      var before := FilesOf(n, es[..|es| - 1]);
      if last.member.isDirectory then before else before[PathOf(n, last.member) := last.payload]
  }

  lemma EmptyTree(n: Naming)
    ensures TreeOf(n, []) == ArchiveTree(map[], {})
  {
  }

  lemma GrownTree(n: Naming, es: seq<Entry>, e: Entry)
    ensures Members(es + [e]) == Members(es) + [e.member]
    ensures TreeOf(n, es + [e]).directories == TreeOf(n, es).directories + DirectoriesOf(n, e.member)
    ensures TreeOf(n, es + [e]).files ==
      if e.member.isDirectory then TreeOf(n, es).files else TreeOf(n, es).files[PathOf(n, e.member) := e.payload]
  {
    hide PathOf, DirectoriesOf, Directories;
    assert Members(es + [e]) == Members(es) + [e.member];
    GrownDirectories(n, Members(es), e.member);
    assert (es + [e])[..|es|] == es;
  }

  lemma FreshPath(n: Naming, es: seq<Entry>, i: nat)
    requires Collisionless(n, Members(es)) && i < |es|
    ensures PathOf(n, es[i].member) !in (set m | m in Members(es[..i]) :: PathOf(n, m))
  {
    forall m | m in Members(es[..i]) ensures PathOf(n, m) != PathOf(n, es[i].member) {
      var j :| 0 <= j < i && Members(es[..i])[j] == m;
      assert Members(es)[j] == m && Members(es)[i] == es[i].member;
    }
  }

  lemma {:induction false} FilePaths(n: Naming, es: seq<Entry>)
    ensures FilesOf(n, es).Keys == set m | m in Members(es) && !m.isDirectory :: PathOf(n, m)
  {
    if es != [] {
      var before, last := es[..|es| - 1], es[|es| - 1];
      FilePaths(n, before);
      assert es == before + [last];
      GrownTree(n, before, last);
    }
  }

  // ---- The disk ----

  datatype Node = Directory(path: Path) | File(path: Path, content: Bytes)

  function Compared(fold: string -> string, path: Path): (key: Path)
    ensures |key| == |path|
  {
    seq(|path|, i requires 0 <= i < |path| => fold(path[i]))
  }

  /** A directory tree whose volume compares names through `fold`. */
  class Disk {
    const fold: string -> string
    var nodes: map<Path, Node>

    /** Every node sits where its recorded spelling compares to. */
    ghost predicate Valid()
      reads this
    {
      forall k | k in nodes :: nodes[k].path != [] && Compared(fold, nodes[k].path) == k
    }

    constructor (fold: string -> string)
      ensures Valid() && this.fold == fold && nodes == map[]
    {
      this.fold := fold;
      nodes := map[];
    }

    predicate IsDirectory(path: Path)
      reads this
    {
      path == [] || (Compared(fold, path) in nodes && nodes[Compared(fold, path)].Directory?)
    }

    /** `path` as the volume spells it, when its parent exists. */
    function Spelled(path: Path): Path
      requires path != [] && IsDirectory(path[..|path| - 1])
      reads this
    {
      var parent := path[..|path| - 1];
      (if parent == [] then [] else nodes[Compared(fold, parent)].path) + [path[|path| - 1]]
    }

    lemma SpelledCompares(path: Path)
      requires Valid() && path != [] && IsDirectory(path[..|path| - 1])
      ensures Compared(fold, Spelled(path)) == Compared(fold, path)
    {
      var parent := path[..|path| - 1];
      if parent != [] {
        var spelled := nodes[Compared(fold, parent)].path;
        assert |spelled| == |parent|;
        forall i | 0 <= i < |parent| ensures fold(spelled[i]) == fold(path[i]) {
          assert Compared(fold, spelled)[i] == Compared(fold, parent)[i];
        }
      }
    }

    /** `mkdir(exist_ok=True)` without `parents`. */
    method Mkdir(path: Path) returns (ok: bool)
      requires Valid() && path != []
      modifies this
      ensures Valid()
      ensures ok <==> old(IsDirectory(path[..|path| - 1]) && (Compared(fold, path) in nodes ==> IsDirectory(path)))
      ensures ok && Compared(fold, path) !in old(nodes) ==>
        nodes == old(nodes)[Compared(fold, path) := Directory(old(Spelled(path)))]
      ensures !ok || Compared(fold, path) in old(nodes) ==> nodes == old(nodes)
    {
      if !IsDirectory(path[..|path| - 1]) { return false; }
      if Compared(fold, path) in nodes { return IsDirectory(path); }
      SpelledCompares(path);
      nodes := nodes[Compared(fold, path) := Directory(Spelled(path))];
      return true;
    }

    /** `open("xb")` and write: fails when anything is already there. */
    method WriteNew(path: Path, content: Bytes) returns (ok: bool)
      requires Valid() && path != []
      modifies this
      ensures Valid()
      ensures ok <==> old(IsDirectory(path[..|path| - 1])) && Compared(fold, path) !in old(nodes)
      ensures ok ==> nodes == old(nodes)[Compared(fold, path) := File(old(Spelled(path)), content)]
      ensures !ok ==> nodes == old(nodes)
    {
      if !IsDirectory(path[..|path| - 1]) || Compared(fold, path) in nodes { return false; }
      SpelledCompares(path);
      nodes := nodes[Compared(fold, path) := File(Spelled(path), content)];
      return true;
    }
  }

  /** The disk holds exactly the directories `ds` and the files `fs`, spelled as given. */
  ghost predicate Holds(fold: string -> string, nodes: map<Path, Node>, ds: set<Path>, fs: map<Path, Bytes>) {
    && (forall p | p in ds :: Compared(fold, p) in nodes && nodes[Compared(fold, p)] == Directory(p))
    && (forall f | f in fs :: Compared(fold, f) in nodes && nodes[Compared(fold, f)] == File(f, fs[f]))
    && (forall k | k in nodes :: Compared(fold, nodes[k].path) == k)
    && (forall k | k in nodes :: if nodes[k].Directory? then nodes[k].path in ds else nodes[k].path in fs)
  }

  /** What lets a tree be laid out parents first on a volume. */
  ghost predicate Fitting(fold: string -> string, tree: ArchiveTree) {
    && (forall p | p in tree.directories + tree.files.Keys ::
          p != [] && (|p| > 1 ==> p[..|p| - 1] in tree.directories))
    && (forall p, q | p in tree.directories + tree.files.Keys && q in tree.directories + tree.files.Keys &&
          Compared(fold, p) == Compared(fold, q) :: p == q)
    && tree.directories !! tree.files.Keys
  }

  /** The volume folds no more than the collision key does. */
  ghost predicate NoCoarser(fold: string -> string, n: Naming) {
    forall a, b :: fold(a) == fold(b) ==> n.fold(a) == n.fold(b)
  }

  /** Each element of `xs` once, no shorter path after a longer one. */
  ghost predicate ByDepth(order: seq<Path>, xs: set<Path>) {
    && Once(order, xs)
    && (forall i, j | 0 <= i < j < |order| :: |order[i]| <= |order[j]|)
  }

  ghost predicate Once(order: seq<Path>, xs: set<Path>) {
    && (forall x :: x in order <==> x in xs)
    && (forall i, j | 0 <= i < j < |order| :: order[i] != order[j])
  }

  lemma {:induction false} Shallowest(xs: set<Path>) returns (x: Path)
    requires xs != {}
    ensures x in xs && forall y | y in xs :: |x| <= |y|
  {
    x :| x in xs;
    if xs == {x} {
    } else {
      var z := Shallowest(xs - {x});
      forall y | y in xs ensures y == x || |z| <= |y| {
        assert y == x || y in xs - {x};
      }
      if |z| < |x| { x := z; }
    }
  }

  /** `sorted(directories, key=depth first)`; ties in any order. */
  lemma NothingOrdered()
    ensures ByDepth([], {})
  {
  }

  lemma DeeperStill(order: seq<Path>, xs: set<Path>, x: Path)
    requires ByDepth(order, xs) && x !in xs && forall y | y in order :: |y| <= |x|
    ensures ByDepth(order + [x], xs + {x})
  {
  }

  method DepthOrder(xs: set<Path>) returns (order: seq<Path>)
    ensures ByDepth(order, xs)
  {
    hide ByDepth;
    order := [];
    var todo := xs;
    NothingOrdered();
    assert xs - todo == {};
    while todo != {}
      invariant todo <= xs && ByDepth(order, xs - todo)
      invariant forall x, y | x in order && y in todo :: |x| <= |y|
      decreases todo
    {
      ghost var w := Shallowest(todo);
      var x :| x in todo && forall y | y in todo :: |x| <= |y|;
      DeeperStill(order, xs - todo, x);
      assert xs - (todo - {x}) == (xs - todo) + {x};
      order, todo := order + [x], todo - {x};
    }
    assert xs - todo == xs;
  }

  lemma ShorterComesFirst(order: seq<Path>, xs: set<Path>, i: nat, q: Path)
    requires ByDepth(order, xs) && i < |order| && q in xs && |q| < |order[i]|
    ensures q in order[..i]
  {
    var j :| 0 <= j < |order| && order[j] == q;
    assert j < i;
    assert order[..i][j] == q;
  }

  ghost function Elements(xs: seq<Path>): set<Path> { set x | x in xs }

  lemma OneMore(order: seq<Path>, xs: set<Path>, i: nat)
    requires Once(order, xs) && i < |order|
    ensures Elements(order[..i + 1]) == Elements(order[..i]) + {order[i]}
    ensures order[i] !in Elements(order[..i])
    ensures Elements(order[..i]) <= xs && order[i] in xs
  {
    assert order[..i + 1] == order[..i] + [order[i]];
    forall x | x in order[..i] ensures x in order && x != order[i] {
      var j :| 0 <= j < i && order[..i][j] == x;
      assert order[j] == x;
    }
    assert order[i] in order;
  }

  lemma NotYetMade(fold: string -> string, nodes: map<Path, Node>, ds: set<Path>, fs: map<Path, Bytes>, p: Path,
      tree: ArchiveTree)
    requires Fitting(fold, tree) && Holds(fold, nodes, ds, fs)
    requires ds + fs.Keys <= tree.directories + tree.files.Keys
    requires p in tree.directories + tree.files.Keys && p !in ds && p !in fs
    ensures Compared(fold, p) !in nodes
  {
    if Compared(fold, p) in nodes {
      assert false;
    }
  }

  ghost predicate Placeable(p: Path, ds: set<Path>) {
    p != [] && (|p| > 1 ==> p[..|p| - 1] in ds)
  }

  /** A directory whose parent is made and whose place is free. */
  method MakeOne(disk: Disk, p: Path, ghost ds: set<Path>)
    requires disk.Valid() && Holds(disk.fold, disk.nodes, ds, map[])
    requires Placeable(p, ds) && Compared(disk.fold, p) !in disk.nodes
    modifies disk
    ensures disk.Valid() && Holds(disk.fold, disk.nodes, ds + {p}, map[])
  {
    assert p == p[..|p| - 1] + [p[|p| - 1]];
    HoldsOneMore(disk.fold, disk.nodes, ds, map[], Directory(p));
    var ok := disk.Mkdir(p);
    assert ok;
  }

  /** The first loop of `_write_archive_tree`: no mkdir ever lacks its parent. */
  method MakeDirectories(disk: Disk, order: seq<Path>, ghost tree: ArchiveTree)
    requires disk.Valid() && disk.nodes == map[]
    requires ByDepth(order, tree.directories) && Fitting(disk.fold, tree)
    modifies disk
    ensures disk.Valid() && Holds(disk.fold, disk.nodes, tree.directories, map[])
  {
    var i := 0;
    assert Holds(disk.fold, disk.nodes, Elements(order[..0]), map[]);
    while i < |order|
      invariant 0 <= i <= |order| && disk.Valid()
      invariant Holds(disk.fold, disk.nodes, Elements(order[..i]), map[])
    {
      PlaceFree(disk.fold, disk.nodes, order, i, tree);
      MakeOne(disk, order[i], Elements(order[..i]));
      OneMore(order, tree.directories, i);
      i := i + 1;
    }
    assert order[..i] == order;
    assert Elements(order) == tree.directories;
  }

  lemma PlaceFree(fold: string -> string, nodes: map<Path, Node>, order: seq<Path>, i: nat, tree: ArchiveTree)
    requires ByDepth(order, tree.directories) && Fitting(fold, tree) && i < |order|
    requires Holds(fold, nodes, Elements(order[..i]), map[])
    ensures Placeable(order[i], Elements(order[..i]))
    ensures Compared(fold, order[i]) !in nodes
  {
    var p := order[i];
    OneMore(order, tree.directories, i);
    if |p| > 1 { ShorterComesFirst(order, tree.directories, i, p[..|p| - 1]); }
    NotYetMade(fold, nodes, Elements(order[..i]), map[], p, tree);
  }

  lemma HoldsOneMore(fold: string -> string, nodes: map<Path, Node>, ds: set<Path>, fs: map<Path, Bytes>, node: Node)
    requires Holds(fold, nodes, ds, fs) && Compared(fold, node.path) !in nodes
    ensures match node
      case Directory(p) => Holds(fold, nodes[Compared(fold, p) := node], ds + {p}, fs)
      case File(p, c) => Holds(fold, nodes[Compared(fold, p) := node], ds, fs[p := c])
  {
  }

  /** `parent.mkdir(parents=True, exist_ok=True)`. */
  method MkdirParents(disk: Disk, path: Path) returns (ok: bool)
    requires disk.Valid() && path != []
    requires forall k | 1 <= k < |path| :: disk.IsDirectory(path[..k])
    modifies disk
    ensures ok && disk.Valid() && disk.nodes == old(disk.nodes)
  {
    var k := 1;
    while k < |path|
      invariant 1 <= k <= |path| && disk.Valid() && disk.nodes == old(disk.nodes)
    {
      assert path[..k][..k - 1] == path[..k - 1];
      assert old(disk.IsDirectory(path[..k]));
      ok := disk.Mkdir(path[..k]);
      if !ok { return; }
      k := k + 1;
    }
    ok := true;
  }

  lemma {:induction false} AncestorsListed(fold: string -> string, tree: ArchiveTree, path: Path, k: nat)
    requires Fitting(fold, tree) && path in tree.directories + tree.files.Keys && 1 <= k < |path|
    ensures path[..k] in tree.directories
    decreases |path|
  {
    var parent := path[..|path| - 1];
    if k < |parent| {
      AncestorsListed(fold, tree, parent, k);
      assert parent[..k] == path[..k];
    } else {
      assert parent == path[..k];
    }
  }

  lemma AncestorsMade(disk: Disk, tree: ArchiveTree, fs: map<Path, Bytes>, f: Path)
    requires Holds(disk.fold, disk.nodes, tree.directories, fs)
    requires Fitting(disk.fold, tree) && f in tree.files
    ensures f != [] && disk.IsDirectory(f[..|f| - 1])
    ensures forall k | 1 <= k < |f| :: disk.IsDirectory(f[..k])
    ensures disk.Spelled(f) == f
  {
    forall k | 1 <= k < |f| ensures f[..k] in tree.directories {
      AncestorsListed(disk.fold, tree, f, k);
    }
    assert f == f[..|f| - 1] + [f[|f| - 1]];
  }

  method WriteOne(disk: Disk, f: Path, content: Bytes, ghost fs: map<Path, Bytes>, ghost tree: ArchiveTree)
    requires disk.Valid() && Holds(disk.fold, disk.nodes, tree.directories, fs)
    requires Fitting(disk.fold, tree) && f in tree.files && Compared(disk.fold, f) !in disk.nodes
    modifies disk
    ensures disk.Valid() && disk.nodes == old(disk.nodes)[Compared(disk.fold, f) := File(f, content)]
  {
    AncestorsMade(disk, tree, fs, f);
    var ok := MkdirParents(disk, f);
    assert disk.IsDirectory(f[..|f| - 1]) && disk.Spelled(f) == f;
    ok := disk.WriteNew(f, content);
    assert ok;
  }

  lemma FileStep(fold: string -> string, nodes: map<Path, Node>, order: seq<Path>, i: nat,
      written: map<Path, Bytes>, tree: ArchiveTree)
    requires Once(order, tree.files.Keys) && Fitting(fold, tree) && i < |order|
    requires Partly(written, Elements(order[..i]), tree.files)
    requires Holds(fold, nodes, tree.directories, written)
    ensures order[i] in tree.files && Compared(fold, order[i]) !in nodes
    ensures var f, c := order[i], tree.files[order[i]];
      Holds(fold, nodes[Compared(fold, f) := File(f, c)], tree.directories, written[f := c]) &&
      Partly(written[f := c], Elements(order[..i + 1]), tree.files)
  {
    hide Holds;
    var f := order[i];
    OneMore(order, tree.files.Keys, i);
    NotYetMade(fold, nodes, tree.directories, written, f, tree);
    HoldsOneMore(fold, nodes, tree.directories, written, File(f, tree.files[f]));
  }

  /** The second loop of `_write_archive_tree`: no exclusive open ever meets a node. */
  method WriteFiles(disk: Disk, order: seq<Path>, tree: ArchiveTree)
    requires disk.Valid() && Holds(disk.fold, disk.nodes, tree.directories, map[])
    requires Once(order, tree.files.Keys) && Fitting(disk.fold, tree)
    modifies disk
    ensures disk.Valid() && Holds(disk.fold, disk.nodes, tree.directories, tree.files)
  {
    hide Holds, Fitting, Partly, Elements;
    var i := 0;
    ghost var written: map<Path, Bytes> := map[];
    PartlyNone(order, tree);
    while i < |order|
      invariant 0 <= i <= |order| && disk.Valid()
      invariant Partly(written, Elements(order[..i]), tree.files)
      invariant Holds(disk.fold, disk.nodes, tree.directories, written)
    {
      var f := order[i];
      FileStep(disk.fold, disk.nodes, order, i, written, tree);
      WriteOne(disk, f, tree.files[f], written, tree);
      written := written[f := tree.files[f]];
      i := i + 1;
    }
    assert order[..i] == order;
    PartlyAll(order, tree, written);
  }

  lemma PartlyNone(order: seq<Path>, tree: ArchiveTree)
    ensures Partly(map[], Elements(order[..0]), tree.files)
  {
  }

  lemma PartlyAll(order: seq<Path>, tree: ArchiveTree, written: map<Path, Bytes>)
    requires Once(order, tree.files.Keys) && Partly(written, Elements(order), tree.files)
    ensures written == tree.files
  {
    assert Elements(order) == tree.files.Keys;
  }

  ghost predicate Partly(written: map<Path, Bytes>, keys: set<Path>, files: map<Path, Bytes>) {
    && written.Keys == keys <= files.Keys
    && forall f | f in written :: written[f] == files[f]
  }

  /** `_verify_scan_tree`: walk the disk, collect both collections, compare. */
  method VerifyScanTree(disk: Disk, expected: ArchiveTree) returns (accepted: bool)
    requires disk.Valid()
    ensures accepted <==> Holds(disk.fold, disk.nodes, expected.directories, expected.files)
  {
    var directories: set<Path> := {};
    var files: map<Path, Bytes> := map[];
    var todo := disk.nodes.Keys;
    while todo != {}
      invariant todo <= disk.nodes.Keys
      invariant Walked(disk.fold, disk.nodes, disk.nodes.Keys - todo, directories, files)
      decreases todo
    {
      var k :| k in todo;
      var node := disk.nodes[k];
      match node {
        case Directory(p) => directories := directories + {p};
        case File(p, c) => files := files[p := c];
      }
      todo := todo - {k};
    }
    WalkedAll(disk.fold, disk.nodes, directories, files, expected);
    return directories == expected.directories && files == expected.files;
  }

  ghost predicate Walked(fold: string -> string, nodes: map<Path, Node>, ks: set<Path>, ds: set<Path>,
      fs: map<Path, Bytes>) {
    && (forall p | p in ds ::
      Compared(fold, p) in ks && Compared(fold, p) in nodes && nodes[Compared(fold, p)] == Directory(p))
    && (forall f | f in fs ::
      Compared(fold, f) in ks && Compared(fold, f) in nodes && nodes[Compared(fold, f)] == File(f, fs[f]))
    && (forall k | k in ks && k in nodes :: if nodes[k].Directory? then nodes[k].path in ds else nodes[k].path in fs)
  }

  lemma WalkedAll(fold: string -> string, nodes: map<Path, Node>, ds: set<Path>, fs: map<Path, Bytes>,
      expected: ArchiveTree)
    requires Walked(fold, nodes, nodes.Keys, ds, fs)
    requires forall k | k in nodes :: Compared(fold, nodes[k].path) == k
    ensures ds == expected.directories && fs == expected.files <==>
      Holds(fold, nodes, expected.directories, expected.files)
  {
    if Holds(fold, nodes, expected.directories, expected.files) {
      forall p ensures p in ds <==> p in expected.directories {}
      forall f ensures f in fs <==> f in expected.files {}
    }
  }

  // ---- Accepted archives fit ----

  lemma SameKeySameMember(n: Naming, ms: seq<Member>, a: Member, b: Member)
    requires DistinctKeys(n, ms) && a in ms && b in ms && Key(n, a) == Key(n, b)
    ensures a == b
  {
    var i :| 0 <= i < |ms| && ms[i] == a;
    var j :| 0 <= j < |ms| && ms[j] == b;
    if i < j || j < i { assert false; }
  }

  lemma FileKeyIsNoDirectory(n: Naming, ms: seq<Member>, m: Member, d: Path)
    requires Collisionless(n, ms) && m in ms && !m.isDirectory && d in Directories(n, ms)
    ensures Folded(n, d) != Key(n, m)
  {
    var o :| o in ms && d in DirectoriesOf(n, o);
    if d == PathOf(n, o) {
      if Folded(n, d) == Key(n, m) { SameKeySameMember(n, ms, m, o); }
    } else {
      FoldedPrefix(n, PathOf(n, o), |d|);
      assert Key(n, m) in FileKeys(n, ms);
      assert Folded(n, d) < Key(n, o);
    }
  }

  lemma FoldsTogether(fold: string -> string, n: Naming, p: Path, q: Path)
    requires NoCoarser(fold, n) && Compared(fold, p) == Compared(fold, q)
    ensures Folded(n, p) == Folded(n, q)
  {
    assert |p| == |Compared(fold, p)| == |q|;
    forall i | 0 <= i < |p| ensures n.fold(p[i]) == n.fold(q[i]) {
      assert Compared(fold, p)[i] == Compared(fold, q)[i];
    }
  }

  lemma ParentOf(n: Naming, m: Member, p: Path)
    requires Named(n, m) && (p in DirectoriesOf(n, m) || p == PathOf(n, m))
    ensures p != [] && (|p| > 1 ==> p[..|p| - 1] in DirectoriesOf(n, m))
  {
    hide Canonical;
    var path := PathOf(n, m);
    assert p == path[..|p|];
    if |p| > 1 { assert p[..|p| - 1] == path[..|p| - 1]; }
  }

  lemma ParentsListed(n: Naming, es: seq<Entry>, p: Path)
    requires Collisionless(n, Members(es))
    requires p in TreeOf(n, es).directories + TreeOf(n, es).files.Keys
    ensures p != [] && (|p| > 1 ==> p[..|p| - 1] in Directories(n, Members(es)))
  {
    hide PathOf, DirectoriesOf, FilesOf, Named;
    var ms := Members(es);
    FilePaths(n, es);
    var m :| m in ms && (p in DirectoriesOf(n, m) || p == PathOf(n, m));
    assert Named(n, m);
    ParentOf(n, m, p);
  }

  lemma AloneOnVolume(fold: string -> string, n: Naming, es: seq<Entry>, p: Path, q: Path)
    requires Collisionless(n, Members(es)) && NoCoarser(fold, n)
    requires p in TreeOf(n, es).directories + TreeOf(n, es).files.Keys
    requires q in TreeOf(n, es).directories + TreeOf(n, es).files.Keys
    requires Compared(fold, p) == Compared(fold, q)
    ensures p == q && (p in TreeOf(n, es).files ==> q !in TreeOf(n, es).directories)
  {
    var ms := Members(es);
    FilePaths(n, es);
    FoldsTogether(fold, n, p, q);
    if p in TreeOf(n, es).files {
      var m :| m in ms && !m.isDirectory && p == PathOf(n, m);
      if q in Directories(n, ms) { FileKeyIsNoDirectory(n, ms, m, q); }
      var o :| o in ms && !o.isDirectory && q == PathOf(n, o);
      SameKeySameMember(n, ms, m, o);
    } else if q in TreeOf(n, es).files {
      var o :| o in ms && !o.isDirectory && q == PathOf(n, o);
      FileKeyIsNoDirectory(n, ms, o, p);
    }
  }

  /** Every accepted archive can be laid out, parents first, on every volume no coarser than
      the collision key. */
  lemma AcceptedTreeFits(fold: string -> string, n: Naming, es: seq<Entry>)
    requires Collisionless(n, Members(es)) && NoCoarser(fold, n)
    ensures Fitting(fold, TreeOf(n, es))
  {
    var tree := TreeOf(n, es);
    forall p | p in tree.directories + tree.files.Keys
      ensures p != [] && (|p| > 1 ==> p[..|p| - 1] in tree.directories)
    {
      ParentsListed(n, es, p);
    }
    forall p, q | p in tree.directories + tree.files.Keys && q in tree.directories + tree.files.Keys &&
        Compared(fold, p) == Compared(fold, q)
      ensures p == q
    {
      AloneOnVolume(fold, n, es, p, q);
    }
    forall p | p in tree.files ensures p !in tree.directories {
      AloneOnVolume(fold, n, es, p, p);
    }
  }

  // ---- What is on the disk ----

  lemma ArchiveOneMore(n: Naming, before: seq<Entry>, last: Entry)
    requires Collisionless(n, Members(before + [last]))
    ensures Collisionless(n, Members(before))
    ensures forall e | e in before :: PathOf(n, e.member) != PathOf(n, last.member)
  {
    hide Collisionless, PathOf;
    var es := before + [last];
    SubsetCollisionless(n, Members(es), |before|);
    assert Members(es)[..|before|] == Members(before);
    FreshPath(n, es, |before|);
    assert es[..|before|] == before;
    forall e | e in before ensures PathOf(n, e.member) != PathOf(n, last.member) {
      var i :| 0 <= i < |before| && before[i] == e;
      assert Members(before)[i] == e.member && e.member in Members(before);
    }
  }

  lemma {:induction false} FileContents(n: Naming, es: seq<Entry>)
    requires Collisionless(n, Members(es))
    ensures forall e | e in es && !e.member.isDirectory ::
      PathOf(n, e.member) in FilesOf(n, es) && FilesOf(n, es)[PathOf(n, e.member)] == e.payload
  {
    hide Collisionless, PathOf;
    if es != [] {
      var before, last := es[..|es| - 1], es[|es| - 1];
      assert es == before + [last];
      ArchiveOneMore(n, before, last);
      FileContents(n, before);
    }
  }

  predicate FileAt(e: Entry, p: Path, content: Bytes) { p == ArchiveMeaning.Parts(e.member) && content == e.payload }

  /** Every file member stands at its components with its content, every folder of a member is a
      directory, and there is nothing else. */
  ghost predicate LaidOut(fold: string -> string, nodes: map<Path, Node>, es: seq<Entry>) {
    && (forall e | e in es && !e.member.isDirectory ::
      var p := ArchiveMeaning.Parts(e.member);
      Compared(fold, p) in nodes && nodes[Compared(fold, p)] == File(p, e.payload))
    && (forall e, k: nat, p | e in es && ArchiveMeaning.FolderOf(e.member, k, p) ::
      Compared(fold, p) in nodes && nodes[Compared(fold, p)] == Directory(p))
    && (forall key | key in nodes && nodes[key].File? ::
      exists e :: e in es && !e.member.isDirectory && FileAt(e, nodes[key].path, nodes[key].content))
    && (forall key | key in nodes && nodes[key].Directory? ::
      exists e, k: nat :: e in es && ArchiveMeaning.FolderOf(e.member, k, nodes[key].path))
  }

  lemma FoldersListed(n: Naming, es: seq<Entry>)
    requires Collisionless(n, Members(es))
    ensures forall p ::
      p in Directories(n, Members(es)) <==> exists e, k: nat :: e in es && ArchiveMeaning.FolderOf(e.member, k, p)
  {
    hide Named, DirectoriesOf, ArchiveMeaning.Parts, PathOf;
    forall e | e in es
      ensures e.member in Members(es)
      ensures forall p :: p in DirectoriesOf(n, e.member) <==> exists k: nat :: ArchiveMeaning.FolderOf(e.member, k, p)
    {
      var i :| 0 <= i < |es| && es[i] == e;
      assert Members(es)[i] == e.member;
      ArchiveMeaning.FoldersAre(n, e.member);
    }
    forall p | p in Directories(n, Members(es))
      ensures exists e, k: nat :: e in es && ArchiveMeaning.FolderOf(e.member, k, p)
    {
      var m :| m in Members(es) && p in DirectoriesOf(n, m);
      var i :| 0 <= i < |es| && Members(es)[i] == m;
      assert es[i] in es;
    }
    forall e, k: nat, p | e in es && ArchiveMeaning.FolderOf(e.member, k, p) ensures p in Directories(n, Members(es)) {
      assert p in DirectoriesOf(n, e.member);
    }
  }

  lemma FilesListed(n: Naming, es: seq<Entry>)
    requires Collisionless(n, Members(es))
    ensures forall e | e in es && !e.member.isDirectory ::
      && ArchiveMeaning.Parts(e.member) in FilesOf(n, es)
      && FilesOf(n, es)[ArchiveMeaning.Parts(e.member)] == e.payload
    ensures forall p | p in FilesOf(n, es) ::
      exists e :: e in es && !e.member.isDirectory && FileAt(e, p, FilesOf(n, es)[p])
  {
    hide Named, ArchiveMeaning.Parts, PathOf, FilesOf;
    FileContents(n, es);
    FilePaths(n, es);
    forall e | e in es ensures PathOf(n, e.member) == ArchiveMeaning.Parts(e.member) {
      var i :| 0 <= i < |es| && es[i] == e;
      assert Members(es)[i] == e.member;
      ArchiveMeaning.NameMeans(n, e.member);
    }
    forall p | p in FilesOf(n, es)
      ensures exists e :: e in es && !e.member.isDirectory && FileAt(e, p, FilesOf(n, es)[p])
    {
      var m :| m in Members(es) && !m.isDirectory && PathOf(n, m) == p;
      var i :| 0 <= i < |es| && Members(es)[i] == m;
      assert es[i] in es;
    }
  }

  lemma HeldIsLaidOut(n: Naming, fold: string -> string, nodes: map<Path, Node>, es: seq<Entry>)
    requires Collisionless(n, Members(es))
    requires Holds(fold, nodes, TreeOf(n, es).directories, TreeOf(n, es).files)
    ensures LaidOut(fold, nodes, es)
  {
    hide Collisionless, Directories, FilesOf, Compared, ArchiveMeaning.Parts;
    FoldersListed(n, es);
    FilesListed(n, es);
  }

  /** `_archive_tree`, `_write_archive_tree` and `_verify_scan_tree` on an archive the name check
      accepted: laid out without a missing parent or an existing file, and read back as it was.  The disk
      then holds what the archive says, spelled as the archive does. */
  method LayOutAndVerify(n: Naming, fold: string -> string, es: seq<Entry>)
    returns (accepted: bool, nodes: map<Path, Node>)
    requires Collisionless(n, Members(es)) && NoCoarser(fold, n)
    ensures accepted <==> forall e | e in es :: '\0' !in e.member.name
    ensures accepted ==> LaidOut(fold, nodes, es)
  {
    hide Collisionless, LaidOut;
    var read := ReadTree(es, n);
    if read.Failure? { return false, map[]; }
    AcceptedTreeFits(fold, n, es);
    var disk := new Disk(fold);
    var directories := DepthOrder(read.value.directories);
    MakeDirectories(disk, directories, read.value);
    var files := DepthOrder(read.value.files.Keys);
    WriteFiles(disk, files, read.value);
    accepted := VerifyScanTree(disk, read.value);
    nodes := disk.nodes;
    HeldIsLaidOut(n, fold, nodes, es);
  }

  // ---- A name with NUL ----

  /** Names as they are, and no devices. */
  function PlainNaming(): Naming { Naming(part => part, part => false) }

  /** An sdist whose pax header names its one member; from a zip, the name would be cut at the NUL. */
  function NulArchive(): seq<Entry> { [Entry(Member("a\0b", false), [])] }

  lemma NulNameIsPath()
    ensures PathOf(PlainNaming(), Member("a\0b", false)) == ["a\0b"]
    ensures Text.Join('/', ["a\0b"]) == "a\0b"
  {
    hide Text.Split;
    Text.SplitWithoutSeparator('/', "a\0b");
  }

  lemma NulNameIsPublishable()
    ensures Publishable(["a\0b"])
  {
    NulNameIsPath();
    var name := "a\0b";
    assert name[0] == 'a' && |name| == 3;
    assert forall part | part in FORBIDDEN_PARTS :: |part| != 3 || part[0] != 'a';
  }

  /** One member, whose name the name check accepts. */
  lemma NulNameIsAccepted()
    ensures Collisionless(PlainNaming(), Members(NulArchive()))
  {
    hide Canonical, Publishable, Text.Join;
    NulNameIsPath();
    NulNameIsPublishable();
    var m := Member("a\0b", false);
    assert Members(NulArchive()) == [m];
    assert Directories(PlainNaming(), [m]) == {};
  }

  /** The archive is accepted by name and refused by the reader. */
  method ReadNulArchive() returns (r: Result<ArchiveTree, string>)
    ensures Collisionless(PlainNaming(), Members(NulArchive())) && r.Failure?
  {
    hide Collisionless;
    NulNameIsAccepted();
    r := ReadTree(NulArchive(), PlainNaming());
    assert NulArchive()[0] in NulArchive();
  }

  // ---- The sdist's extra metadata file ----

  const SDIST_METADATA_DIR := ".openopps-sbom"

  ghost predicate Within(n: Naming, ms: seq<Member>, root: string) {
    forall m | m in ms :: PathOf(n, m) != [] && PathOf(n, m)[0] == root
  }

  lemma DirectoriesWithin(n: Naming, ms: seq<Member>, root: string, d: Path)
    requires Within(n, ms, root) && d in Directories(n, ms)
    ensures d != [] && d[0] == root
  {
    var m :| m in ms && d in DirectoriesOf(n, m);
    assert d == PathOf(n, m)[..|d|];
  }

  /** Adding the metadata file beside the single sdist root keeps the archive collisionless, so
      everything proved for accepted archives holds of the augmented sdist tree too. */
  lemma SdistMetadataFits(n: Naming, es: seq<Entry>, root: string, meta: Entry)
    requires Collisionless(n, Members(es)) && Within(n, Members(es), root)
    requires n.fold(root) != n.fold(SDIST_METADATA_DIR)
    requires Named(n, meta.member) && Publishable(PathOf(n, meta.member)) && !meta.member.isDirectory
    requires PathOf(n, meta.member)[0] == SDIST_METADATA_DIR
    ensures Collisionless(n, Members(es + [meta]))
  {
    var ms, m := Members(es), meta.member;
    GrownTree(n, es, meta);
    assert Key(n, m)[0] == n.fold(SDIST_METADATA_DIR);
    forall o | o in ms ensures Key(n, o) != Key(n, m) {
      assert Key(n, o)[0] == n.fold(root);
    }
    forall k | 1 <= k < |Key(n, m)| ensures Key(n, m)[..k] !in FileKeys(n, ms) {
      assert Key(n, m)[..k][0] == n.fold(SDIST_METADATA_DIR);
    }
    forall p | p in Directories(n, ms) ensures p != [] && Folded(n, p)[0] == n.fold(root) {
      DirectoriesWithin(n, ms, root, p);
    }
    forall q | q in DirectoriesOf(n, m) ensures q != [] && Folded(n, q)[0] == n.fold(SDIST_METADATA_DIR) {
      assert q == PathOf(n, m)[..|q|];
    }
    forall p, q | p in DirectoriesOf(n, m) && q in DirectoriesOf(n, m) && Folded(n, p) == Folded(n, q) ensures p == q {
      assert p == PathOf(n, m)[..|p|] && q == PathOf(n, m)[..|q|];
      assert |p| == |Folded(n, p)| == |q|;
    }
    assert Fits(n, ms, m);
    Extend(n, ms, m);
  }
}
