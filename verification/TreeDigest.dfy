/** The tree digest of a staged asset tree, implemented once for delivery
    (scripts/docs_search_delivery.py) and once for bootstrap (scripts/docs_search_bootstrap.py).

    The byte stream that is hashed frames every file as a 4-byte path length, the path, an
    8-byte size and a 32-byte content digest.  The framing is proved to be uniquely
    readable, and the two implementations to write the same stream. */
module TreeDigest {
  import opened Orders
  import opened Wrappers
  import Text

  type Byte = x: int | 0 <= x < 256
  type Bytes = seq<Byte>
  type Path = seq<string>

  // ---- Framing ----

  datatype Record = Record(path: Bytes, size: nat, digest: Bytes)

  const PATH_LIMIT: nat := 0x1_0000_0000
  const SIZE_LIMIT: nat := 0x1_0000_0000_0000_0000

  predicate Encodable(r: Record) {
    |r.path| < PATH_LIMIT && r.size < SIZE_LIMIT && |r.digest| == 32
  }

  function Power256(width: nat): nat {
    if width == 0 then 1 else 256 * Power256(width - 1)
  }

  /** `int.to_bytes(width, "big")`. */
  function ToBytes(n: nat, width: nat): (b: Bytes)
    ensures |b| == width
  {
    if width == 0 then [] else ToBytes(n / 256, width - 1) + [n % 256]
  }

  function FromBytes(b: Bytes): nat {
    if b == [] then 0 else 256 * FromBytes(b[..|b| - 1]) + b[|b| - 1]
  }

  lemma {:induction false} FromToBytes(n: nat, width: nat)
    requires n < Power256(width)
    ensures FromBytes(ToBytes(n, width)) == n
  {
    if width != 0 {
      FromToBytes(n / 256, width - 1);
      var b := ToBytes(n, width);
      assert b[..|b| - 1] == ToBytes(n / 256, width - 1);
    }
  }

  lemma {:induction false} ToFromBytes(b: Bytes)
    ensures FromBytes(b) < Power256(|b|)
    ensures ToBytes(FromBytes(b), |b|) == b
  {
    if b != [] {
      var high := b[..|b| - 1];
      ToFromBytes(high);
      var n := FromBytes(b);
      assert n / 256 == FromBytes(high) && n % 256 == b[|b| - 1];
      assert b == high + [b[|b| - 1]];
    }
  }

  lemma Widths()
    ensures Power256(4) == PATH_LIMIT && Power256(8) == SIZE_LIMIT
  {
    assert Power256(1) == 256;
    assert Power256(2) == 0x1_0000;
    assert Power256(3) == 0x100_0000;
    assert Power256(4) == PATH_LIMIT;
    assert Power256(5) == 0x100_0000_0000;
    assert Power256(6) == 0x1_0000_0000_0000;
    assert Power256(7) == 0x100_0000_0000_0000;
  }

  function Frame(r: Record): Bytes {
    ToBytes(|r.path|, 4) + r.path + ToBytes(r.size, 8) + r.digest
  }

  function Stream(rs: seq<Record>): Bytes {
    if rs == [] then [] else Frame(rs[0]) + Stream(rs[1..])
  }

  /** The record framed at the start of `s`, if the bytes are there. */
  function FirstRecord(s: Bytes): (r: Option<Record>)
    ensures r.Some? ==> |s| >= 44 + |r.value.path|
  {
    if |s| < 4 then None
    else
      var n := FromBytes(s[..4]);
      if |s| < 44 + n then None
      else Some(Record(s[4..4 + n], FromBytes(s[4 + n..12 + n]), s[12 + n..44 + n]))
  }

  /** Reads the records back, left to right; None when the bytes are no sequence of frames. */
  function Parse(s: Bytes): Option<seq<Record>>
    decreases |s|
  {
    if s == [] then Some([])
    else
      match FirstRecord(s)
      case None => None
      case Some(r) =>
        match Parse(s[44 + |r.path|..])
        case None => None
        case Some(rest) => Some([r] + rest)
  }

  lemma FirstOfFrame(r: Record, rest: Bytes)
    requires Encodable(r)
    ensures |Frame(r) + rest| >= 44 + |r.path|
    ensures FirstRecord(Frame(r) + rest) == Some(r)
    ensures (Frame(r) + rest)[44 + |r.path|..] == rest
  {
    hide ToBytes, FromBytes;
    Widths();
    FromToBytes(|r.path|, 4);
    FromToBytes(r.size, 8);
    var s, n := Frame(r) + rest, |r.path|;
    assert s[..4] == ToBytes(n, 4);
    assert s[4 + n..12 + n] == ToBytes(r.size, 8);
    assert s[4..4 + n] == r.path && s[12 + n..44 + n] == r.digest;
  }

  /** Four bytes, the first one weighing most. */
  function Word(s: Bytes, at: nat): int
    requires at + 4 <= |s|
  {
    0x100_0000 * s[at] as int + 0x1_0000 * s[at + 1] as int + 0x100 * s[at + 2] as int + s[at + 3] as int
  }

  lemma FromOneMore(b: Bytes, k: nat)
    requires k < |b|
    ensures FromBytes(b[..k + 1]) == 256 * FromBytes(b[..k]) + b[k]
    ensures FromBytes(b[..0]) == 0
  {
    assert b[..k + 1][..k] == b[..k];
  }

  lemma FromEight(b: Bytes)
    requires 4 <= |b|
    ensures FromBytes(b[..4]) == Word(b, 0)
    ensures |b| == 8 ==> FromBytes(b) == 0x1_0000_0000 * Word(b, 0) + Word(b, 4)
  {
    hide FromBytes;
    FromOneMore(b, 0);
    FromOneMore(b, 1);
    FromOneMore(b, 2);
    FromOneMore(b, 3);
    if |b| == 8 {
      FromOneMore(b, 4);
      FromOneMore(b, 5);
      FromOneMore(b, 6);
      FromOneMore(b, 7);
      assert b[..8] == b;
    }
  }

  /** Four bytes of path length, the path, eight bytes of size and the digest, numbers big-endian. */
  lemma FrameLayout(r: Record)
    requires Encodable(r)
    ensures var s, n := Frame(r), |r.path|;
      && |s| == 44 + n && s[4..4 + n] == r.path && s[12 + n..] == r.digest
      && n == Word(s, 0) && r.size == 0x1_0000_0000 * Word(s, 4 + n) + Word(s, 8 + n)
  {
    hide ToBytes, FromBytes;
    var s, n := Frame(r), |r.path|;
    Widths();
    FromToBytes(n, 4);
    FromToBytes(r.size, 8);
    var length, size := ToBytes(n, 4), ToBytes(r.size, 8);
    FromEight(length);
    FromEight(size);
    assert length[..4] == length && s[..4] == length && s[4 + n..12 + n] == size;
    assert Word(length, 0) == Word(s, 0);
    assert Word(size, 0) == Word(s, 4 + n) && Word(size, 4) == Word(s, 8 + n);
  }

  lemma FrameOfFirst(s: Bytes)
    requires FirstRecord(s).Some?
    ensures var r := FirstRecord(s).value;
      Encodable(r) && s == Frame(r) + s[44 + |r.path|..]
  {
    Widths();
    var n := FromBytes(s[..4]);
    ToFromBytes(s[..4]);
    ToFromBytes(s[4 + n..12 + n]);
    var r := FirstRecord(s).value;
    assert s == (s[..4] + s[4..4 + n] + s[4 + n..12 + n] + s[12 + n..44 + n]) + s[44 + n..];
  }

  /** The stream can be parsed back to the one record list it was written from. */
  lemma {:induction false} ParseUndoesStream(rs: seq<Record>)
    requires forall i | 0 <= i < |rs| :: Encodable(rs[i])
    ensures Parse(Stream(rs)) == Some(rs)
  {
    if rs != [] {
      ParseUndoesStream(rs[1..]);
      FirstOfFrame(rs[0], Stream(rs[1..]));
      assert rs == [rs[0]] + rs[1..];
    }
  }

  /** Conversely, whatever parses is exactly the stream of what it parses to. */
  lemma {:induction false} StreamUndoesParse(s: Bytes)
    requires Parse(s).Some?
    ensures Stream(Parse(s).value) == s
    ensures forall i | 0 <= i < |Parse(s).value| :: Encodable(Parse(s).value[i])
    decreases |s|
  {
    if s != [] {
      var r := FirstRecord(s).value;
      var rest := s[44 + |r.path|..];
      StreamUndoesParse(rest);
      FrameOfFirst(s);
      assert ([r] + Parse(rest).value)[1..] == Parse(rest).value;
    }
  }

  // ---- Walking a tree ----

  datatype Kind = Regular | Folder | Symlink | Special

  /** One entry that `os.walk` reports, with what `stat` says of it. */
  datatype Found = Found(path: Path, kind: Kind, links: nat)

  /** The host: UTF-8, `str.casefold` and SHA-256 (32 bytes). */
  datatype Host = Host(utf8: string -> Bytes, casefold: string -> string, sha: Bytes -> Bytes)

  ghost predicate Sha256Host(host: Host) { forall c :: |host.sha(c)| == 32 }

  /** What walking a tree yields, in any order: distinct relative paths, and the content of
      each regular file. */
  ghost predicate Walk(walk: seq<Found>, contents: map<Path, Bytes>) {
    && (forall i, j | 0 <= i < j < |walk| :: walk[i].path != walk[j].path)
    && (forall f | f in walk :: f.path != [] && Text.Free('/', f.path))
    && (forall f | f in walk && f.kind.Regular? :: f.path in contents)
  }

  function PathsOf(walk: seq<Found>, kind: Kind): seq<Path> {
    if walk == [] then []
    else
      var last := walk[|walk| - 1];
      PathsOf(walk[..|walk| - 1], kind) + (if last.kind == kind then [last.path] else [])
  }

  lemma {:induction false} PathsComeFromWalk(walk: seq<Found>, kind: Kind)
    ensures forall p | p in PathsOf(walk, kind) :: exists f | f in walk :: f.path == p && f.kind == kind
  {
    if walk != [] {
      PathsComeFromWalk(walk[..|walk| - 1], kind);
      assert walk[|walk| - 1] in walk;
      assert forall f | f in walk[..|walk| - 1] :: f in walk;
    }
  }

  function RecordOf(host: Host, path: Path, contents: map<Path, Bytes>): Record
    requires path in contents
  {
    Record(host.utf8(Spelled(path)), |contents[path]|, host.sha(contents[path]))
  }

  function RecordsOf(host: Host, paths: seq<Path>, contents: map<Path, Bytes>): seq<Record>
    requires forall p | p in paths :: p in contents
  {
    seq(|paths|, i requires 0 <= i < |paths| => RecordOf(host, paths[i], contents))
  }

  /** The stream both implementations are meant to hash: every file once, in path order. */
  function TreeStream(host: Host, files: seq<Path>, contents: map<Path, Bytes>): Bytes
    requires forall p | p in Sort(PathLeq, files) :: p in contents
  {
    Stream(RecordsOf(host, Sort(PathLeq, files), contents))
  }

  ghost predicate Encodes(host: Host, files: seq<Path>, contents: map<Path, Bytes>) {
    forall p | p in files :: p in contents && Encodable(RecordOf(host, p, contents))
  }

  ghost predicate Plain(walk: seq<Found>) {
    forall f | f in walk :: f.kind.Regular? || f.kind.Folder?
  }

  function Spelled(p: Path): string { Text.Join('/', p) }

  function Folded(host: Host, p: Path): string { host.casefold(Spelled(p)) }

  ghost predicate Clash(host: Host, p: Path, q: Path) {
    Folded(host, p) == Folded(host, q) && Spelled(p) != Spelled(q)
  }

  /** Two entries of a walk whose spellings differ only in case. */
  ghost predicate CaseColliding(host: Host, paths: seq<Path>) {
    exists i, j | 0 <= i < j < |paths| :: Clash(host, paths[i], paths[j])
  }

  ghost predicate DeliveryAccepts(host: Host, walk: seq<Found>) {
    && Plain(walk)
    && !CaseColliding(host, Sort(PathLeq, PathsOf(walk, Regular) + PathsOf(walk, Folder)))
  }

  ghost predicate BootstrapAccepts(walk: seq<Found>) {
    && Plain(walk)
    && forall f | f in walk && f.kind.Regular? :: f.links == 1
  }

  lemma SortedMembers(paths: seq<Path>)
    ensures forall p :: p in Sort(PathLeq, paths) <==> p in paths
    ensures |Sort(PathLeq, paths)| == |paths|
  {
    PathOrder();
    SortSorts(PathLeq, paths);
    assert forall p :: p in Sort(PathLeq, paths) <==> p in multiset(Sort(PathLeq, paths));
    assert forall p :: p in paths <==> p in multiset(paths);
  }

  /** The dictionary after `paths`: it knows exactly their folded spellings, and while nothing
      has clashed it knows each spelling. */
  ghost predicate Noted(host: Host, paths: seq<Path>, casefolded: map<string, string>, found: bool) {
    && (found <==> CaseColliding(host, paths))
    && (forall k | k in casefolded :: exists p | p in paths :: Folded(host, p) == k)
    && (forall p | p in paths :: Folded(host, p) in casefolded)
    && (!found ==> forall p | p in paths :: casefolded[Folded(host, p)] == Spelled(p))
  }

  lemma ClashWithLast(host: Host, paths: seq<Path>, p: Path)
    ensures CaseColliding(host, paths + [p]) <==>
      CaseColliding(host, paths) || exists q | q in paths :: Clash(host, q, p)
  {
    var longer := paths + [p];
    assert longer[|paths|] == p && forall j | 0 <= j < |paths| :: longer[j] == paths[j];
    if q :| q in paths && Clash(host, q, p) {
      var j :| 0 <= j < |paths| && paths[j] == q;
      assert Clash(host, longer[j], longer[|paths|]);
    }
    if CaseColliding(host, paths) {
      var i, j :| 0 <= i < j < |paths| && Clash(host, paths[i], paths[j]);
      assert Clash(host, longer[i], longer[j]);
    }
  }

  lemma NotedClash(host: Host, paths: seq<Path>, casefolded: map<string, string>, p: Path)
    requires Noted(host, paths, casefolded, false)
    ensures (Folded(host, p) in casefolded && casefolded[Folded(host, p)] != Spelled(p)) <==>
      exists q | q in paths :: Clash(host, q, p)
  {
    if Folded(host, p) in casefolded {
      var q :| q in paths && Folded(host, q) == Folded(host, p);
      assert casefolded[Folded(host, p)] == Spelled(q);
      assert casefolded[Folded(host, p)] != Spelled(p) ==> Clash(host, q, p);
    }
  }

  lemma NotedOneMore(host: Host, paths: seq<Path>, casefolded: map<string, string>, found: bool, p: Path)
    requires Noted(host, paths, casefolded, found)
    ensures var clash := Folded(host, p) in casefolded && casefolded[Folded(host, p)] != Spelled(p);
      Noted(host, paths + [p], casefolded[Folded(host, p) := Spelled(p)], found || clash)
  {
    ClashWithLast(host, paths, p);
    if !found { NotedClash(host, paths, casefolded, p); }
    var known := casefolded[Folded(host, p) := Spelled(p)];
    forall k | k in known ensures exists q | q in paths + [p] :: Folded(host, q) == k {
      if k in casefolded {
        var q :| q in paths && Folded(host, q) == k;
        assert q in paths + [p];
      } else {
        assert p in paths + [p];
      }
    }
  }

  /** The dictionary and the verdict after `paths`. */
  function Notes(host: Host, paths: seq<Path>): (map<string, string>, bool) {
    if paths == [] then (map[], false)
    else
      var (casefolded, found) := Notes(host, paths[..|paths| - 1]);
      var normalized := Spelled(paths[|paths| - 1]);
      var folded := host.casefold(normalized);
      (casefolded[folded := normalized], found || (folded in casefolded && casefolded[folded] != normalized))
  }

  lemma NothingNoted(host: Host)
    ensures Noted(host, [], map[], false)
  {
  }

  lemma {:induction false} NotesFindClashes(host: Host, paths: seq<Path>)
    ensures Noted(host, paths, Notes(host, paths).0, Notes(host, paths).1)
  {
    hide Noted, Spelled;
    if paths == [] {
      NothingNoted(host);
    } else {
      var before := paths[..|paths| - 1];
      NotesFindClashes(host, before);
      NotedOneMore(host, before, Notes(host, before).0, Notes(host, before).1, paths[|paths| - 1]);
      assert paths == before + [paths[|paths| - 1]];
    }
  }

  /** The case-collision dictionary at the end of `_walk_tree`. */
  method FindCaseCollision(host: Host, paths: seq<Path>) returns (found: bool)
    ensures found <==> CaseColliding(host, paths)
  {
    var casefolded: map<string, string> := map[];
    found := false;
    var i := 0;
    while i < |paths|
      invariant 0 <= i <= |paths|
      invariant (casefolded, found) == Notes(host, paths[..i])
    {
      var normalized := Spelled(paths[i]);
      var folded := host.casefold(normalized);
      assert paths[..i + 1][..i] == paths[..i];
      if folded in casefolded && casefolded[folded] != normalized {
        found := true;
      }
      casefolded := casefolded[folded := normalized];
      i := i + 1;
    }
    assert paths[..i] == paths;
    NotesFindClashes(host, paths);
  }

  lemma NothingFed(host: Host, contents: map<Path, Bytes>)
    ensures Stream(RecordsOf(host, [], contents)) == []
  {
  }

  lemma FedOneMore(host: Host, ordered: seq<Path>, i: nat, contents: map<Path, Bytes>)
    requires i < |ordered| && forall p | p in ordered :: p in contents
    ensures Stream(RecordsOf(host, ordered[..i + 1], contents)) ==
      Stream(RecordsOf(host, ordered[..i], contents)) + Frame(RecordOf(host, ordered[i], contents))
  {
    var r := RecordOf(host, ordered[i], contents);
    assert RecordsOf(host, ordered[..i + 1], contents) == RecordsOf(host, ordered[..i], contents) + [r];
    StreamAppend(RecordsOf(host, ordered[..i], contents), r);
  }

  /** Feeds the digest one frame at a time; `to_bytes` overflows on what does not fit. */
  method FeedDigest(host: Host, ordered: seq<Path>, contents: map<Path, Bytes>) returns (r: Option<Bytes>)
    requires Sha256Host(host) && forall p | p in ordered :: p in contents
    ensures r.Some? <==> Encodes(host, ordered, contents)
    ensures r.Some? ==> r.value == Stream(RecordsOf(host, ordered, contents))
  {
    hide Stream, RecordsOf, ToBytes;
    var digest: Bytes := [];
    NothingFed(host, contents);
    var i := 0;
    while i < |ordered|
      invariant 0 <= i <= |ordered|
      invariant Encodes(host, ordered[..i], contents)
      invariant digest == Stream(RecordsOf(host, ordered[..i], contents))
    {
      assert ordered[i] in ordered;
      var r := RecordOf(host, ordered[i], contents);
      if |r.path| >= PATH_LIMIT || r.size >= SIZE_LIMIT {
        return None;
      }
      FedOneMore(host, ordered, i, contents);
      digest := digest + (ToBytes(|r.path|, 4) + r.path + ToBytes(r.size, 8) + r.digest);
      assert ordered[..i + 1] == ordered[..i] + [ordered[i]];
      i := i + 1;
    }
    assert ordered[..i] == ordered;
    r := Some(digest);
  }

  lemma {:induction false} StreamAppend(rs: seq<Record>, r: Record)
    ensures Stream(rs + [r]) == Stream(rs) + Frame(r)
  {
    if rs == [] {
      assert [] + [r] == [r] && [r][1..] == [];
    } else {
      assert (rs + [r])[1..] == rs[1..] + [r];
      StreamAppend(rs[1..], r);
    }
  }

  /** The walk of `_walk_tree`: files and directories, and whether nothing else was met. */
  method WalkTree(walk: seq<Found>) returns (safe: bool, files: seq<Path>, dirs: seq<Path>)
    ensures safe <==> Plain(walk)
    ensures files == PathsOf(walk, Regular) && dirs == PathsOf(walk, Folder)
  {
    safe, files, dirs := true, [], [];
    var i := 0;
    while i < |walk|
      invariant 0 <= i <= |walk|
      invariant safe <==> Plain(walk[..i])
      invariant files == PathsOf(walk[..i], Regular) && dirs == PathsOf(walk[..i], Folder)
    {
      var f := walk[i];
      assert walk[..i + 1][..i] == walk[..i] && walk[..i + 1] == walk[..i] + [f];
      match f.kind {
        case Regular => files := files + [f.path];
        case Folder => dirs := dirs + [f.path];
        case Symlink => safe := false;
        case Special => safe := false;
      }
      i := i + 1;
    }
    assert walk[..i] == walk;
  }

  /** `_walk_tree` and `_tree_digest` of the delivery script. */
  method DeliveryTreeStream(host: Host, walk: seq<Found>, contents: map<Path, Bytes>) returns (r: Option<Bytes>)
    requires Sha256Host(host) && Walk(walk, contents)
    ensures r.Some? <==> DeliveryAccepts(host, walk) && Encodes(host, PathsOf(walk, Regular), contents)
    ensures r.Some? ==> forall p | p in Sort(PathLeq, PathsOf(walk, Regular)) :: p in contents
    ensures r.Some? ==> r.value == TreeStream(host, PathsOf(walk, Regular), contents)
  {
    var safe, files, dirs := WalkTree(walk);
    var collides := FindCaseCollision(host, Sort(PathLeq, files + dirs));
    if !safe || collides { return None; }
    PathsComeFromWalk(walk, Regular);
    SortedMembers(files);
    r := FeedDigest(host, Sort(PathLeq, files), contents);
  }

  function UnderRoot(root: Path, paths: seq<Path>): seq<Path> {
    seq(|paths|, i requires 0 <= i < |paths| => root + paths[i])
  }

  /** `_safe_tree`: the absolute paths of the regular files, unless something unsafe is met. */
  lemma NothingUnder(root: Path)
    ensures UnderRoot(root, PathsOf([], Regular)) == []
  {
  }

  lemma UnderOneMore(root: Path, paths: seq<Path>, p: Path)
    ensures UnderRoot(root, paths + [p]) == UnderRoot(root, paths) + [root + p]
    ensures UnderRoot(root, paths + []) == UnderRoot(root, paths)
  {
    assert paths + [] == paths;
  }

  method SafeTree(root: Path, walk: seq<Found>) returns (r: Option<seq<Path>>)
    ensures r.Some? <==> BootstrapAccepts(walk)
    ensures r.Some? ==> r.value == UnderRoot(root, PathsOf(walk, Regular))
  {
    hide PathsOf, UnderRoot;
    var absolute: seq<Path> := [];
    NothingUnder(root);
    var i := 0;
    while i < |walk|
      invariant 0 <= i <= |walk|
      invariant BootstrapAccepts(walk[..i])
      invariant absolute == UnderRoot(root, PathsOf(walk[..i], Regular))
    {
      var f := walk[i];
      assert f in walk;
      assert walk[..i + 1][..i] == walk[..i] && walk[..i + 1] == walk[..i] + [f];
      PathsOfUnfolds(walk[..i + 1], Regular);
      UnderOneMore(root, PathsOf(walk[..i], Regular), f.path);
      match f.kind {
        case Folder =>
        case Regular =>
          if f.links != 1 { return None; }
          absolute := absolute + [root + f.path];
        case Symlink => return None;
        case Special => return None;
      }
      i := i + 1;
    }
    assert walk[..i] == walk;
    r := Some(absolute);
  }

  /** `_tree_digest` of the bootstrap script: absolute paths are sorted, and made relative again
      as each is fed. */
  method BootstrapTreeStream(host: Host, root: Path, walk: seq<Found>, contents: map<Path, Bytes>)
    returns (r: Option<Bytes>)
    requires Sha256Host(host) && Walk(walk, contents)
    ensures r.Some? <==> BootstrapAccepts(walk) && Encodes(host, PathsOf(walk, Regular), contents)
    ensures r.Some? ==> forall p | p in Sort(PathLeq, PathsOf(walk, Regular)) :: p in contents
    ensures r.Some? ==> r.value == TreeStream(host, PathsOf(walk, Regular), contents)
  {
    var absolute := SafeTree(root, walk);
    if absolute.None? { return None; }
    ghost var files := PathsOf(walk, Regular);
    SortUnderRoot(root, files);
    var relative := Relative(root, Sort(PathLeq, absolute.value), Sort(PathLeq, files));
    PathsComeFromWalk(walk, Regular);
    SortedMembers(files);
    r := FeedDigest(host, relative, contents);
  }

  /** `path.relative_to(root)` for each path. */
  method Relative(root: Path, absolute: seq<Path>, ghost paths: seq<Path>) returns (relative: seq<Path>)
    requires absolute == UnderRoot(root, paths)
    ensures relative == paths
  {
    relative := [];
    var i := 0;
    while i < |absolute|
      invariant 0 <= i <= |absolute|
      invariant relative == paths[..i]
    {
      assert absolute[i] == root + paths[i];
      relative := relative + [absolute[i][|root|..]];
      i := i + 1;
    }
  }

  lemma {:induction false} RootKeepsOrder(root: Path, a: Path, b: Path)
    ensures PathLeq(root + a, root + b) <==> PathLeq(a, b)
  {
    if root != [] {
      assert (root + a)[1..] == root[1..] + a && (root + b)[1..] == root[1..] + b;
      RootKeepsOrder(root[1..], a, b);
    } else {
      assert root + a == a && root + b == b;
    }
  }

  lemma {:induction false} InsertUnderRoot(root: Path, p: Path, paths: seq<Path>)
    ensures Insert(PathLeq, root + p, UnderRoot(root, paths)) == UnderRoot(root, Insert(PathLeq, p, paths))
  {
    hide PathLeq;
    var lifted := UnderRoot(root, paths);
    if paths != [] {
      RootKeepsOrder(root, p, paths[0]);
      assert lifted[1..] == UnderRoot(root, paths[1..]);
      if PathLeq(p, paths[0]) {
        assert UnderRoot(root, [p] + paths) == [root + p] + lifted;
      } else {
        InsertUnderRoot(root, p, paths[1..]);
        var rest := Insert(PathLeq, p, paths[1..]);
        assert UnderRoot(root, [paths[0]] + rest) == [lifted[0]] + UnderRoot(root, rest);
      }
    }
  }

  /** Sorting absolute paths is sorting relative ones under the same root. */
  lemma {:induction false} SortUnderRoot(root: Path, paths: seq<Path>)
    ensures Sort(PathLeq, UnderRoot(root, paths)) == UnderRoot(root, Sort(PathLeq, paths))
  {
    if paths != [] {
      SortUnderRoot(root, paths[1..]);
      assert UnderRoot(root, paths)[1..] == UnderRoot(root, paths[1..]);
      InsertUnderRoot(root, paths[0], Sort(PathLeq, paths[1..]));
    }
  }

  lemma PathsOfUnfolds(walk: seq<Found>, kind: Kind)
    requires walk != []
    ensures var last := walk[|walk| - 1];
      PathsOf(walk, kind) == PathsOf(walk[..|walk| - 1], kind) + (if last.kind == kind then [last.path] else [])
  {
  }

  lemma {:induction false} PathsOfConcat(a: seq<Found>, b: seq<Found>, kind: Kind)
    ensures PathsOf(a + b, kind) == PathsOf(a, kind) + PathsOf(b, kind)
  {
    if b == [] {
      assert a + b == a;
    } else {
      hide PathsOf;
      PathsOfConcat(a, b[..|b| - 1], kind);
      PathsOfUnfolds(b, kind);
      PathsOfUnfolds(a + b, kind);
      assert (a + b)[..|a + b| - 1] == a + b[..|b| - 1];
    }
  }

  lemma {:induction false} PathsOfBag(a: seq<Found>, b: seq<Found>, kind: Kind)
    requires multiset(a) == multiset(b)
    ensures multiset(PathsOf(a, kind)) == multiset(PathsOf(b, kind))
  {
    if a == [] {
      assert |multiset(b)| == 0;
    } else {
      var x, rest := a[|a| - 1], a[..|a| - 1];
      var l, r := Without(a, b);
      PathsOfBag(rest, l + r, kind);
      PathsOfConcat(l, r, kind);
      PathsOfConcat(l, [x] + r, kind);
      PathsOfConcat([x], r, kind);
      assert [x][..0] == [];
    }
  }

  /** Neither the two scripts' walk orders nor the root directory show in the stream: whatever
      order each walks one tree in, both feed the same bytes to the digest. */
  lemma WalkOrderIsInvisible(host: Host, a: seq<Found>, b: seq<Found>, contents: map<Path, Bytes>)
    requires multiset(a) == multiset(b)
    requires forall p | p in PathsOf(a, Regular) :: p in contents
    ensures Sort(PathLeq, PathsOf(a, Regular)) == Sort(PathLeq, PathsOf(b, Regular))
    ensures forall p | p in Sort(PathLeq, PathsOf(a, Regular)) :: p in contents
    ensures TreeStream(host, PathsOf(a, Regular), contents) == TreeStream(host, PathsOf(b, Regular), contents)
  {
    PathOrder();
    PathsOfBag(a, b, Regular);
    SortIsCanonical(PathLeq, PathsOf(a, Regular), PathsOf(b, Regular));
    SortedMembers(PathsOf(a, Regular));
  }

  /** Streams, and so ideal digests, determine the tree: two trees with one stream have the same
      files in the same order, with the same sizes and the same content digests. */
  lemma StreamDeterminesTree(host: Host, xs: seq<Path>, cs: map<Path, Bytes>, ys: seq<Path>, ds: map<Path, Bytes>)
    requires Sha256Host(host) && Encodes(host, xs, cs) && Encodes(host, ys, ds)
    requires forall p | p in Sort(PathLeq, xs) :: p in cs
    requires forall p | p in Sort(PathLeq, ys) :: p in ds
    requires TreeStream(host, xs, cs) == TreeStream(host, ys, ds)
    ensures RecordsOf(host, Sort(PathLeq, xs), cs) == RecordsOf(host, Sort(PathLeq, ys), ds)
  {
    SortedMembers(xs);
    SortedMembers(ys);
    ParseUndoesStream(RecordsOf(host, Sort(PathLeq, xs), cs));
    ParseUndoesStream(RecordsOf(host, Sort(PathLeq, ys), ds));
  }
}
