/** Building a release manifest, and what it has to do with validation
    (scripts/docs_search_release.py). */
module ReleaseBuild {
  import opened ReleaseManifest
  import opened Hashing
  import opened Orders
  import opened Text
  import opened Wrappers

  type Dir = map<string, Bytes>

  /** `pathlib` order of relative paths. */
  predicate PosixLeq(a: string, b: string) { PathLeq(Split('/', a), Split('/', b)) }

  lemma PosixOrder()
    ensures TotalPreorder(PosixLeq)
  {
    hide PathLeq;
    PathOrder();
  }

  /** The regular files that a walk of the directory meets, each once. */
  ghost predicate Walks(walk: seq<string>, dir: Dir) {
    NoRepeats(walk) && forall p :: p in walk <==> p in dir
  }

  /** `_file_entry`; nothing stands for the error of a JSON file that does not decode. */
  function FileEntry<P(!new)>(host: Host<P>, path: string, data: Bytes): Option<Entry> {
    if !host.isJson(path) then
      Some(Entry(path, |data|, OctetStream, Sha256(data), host.role(path), Number(0)))
    else
      match host.read(data)
      case None => None
      case Some(payload) =>
        Some(Entry(path, |data|, ApplicationJson, Sha256(data), host.role(path),
          Number(host.count(payload, host.role(path)))))
  }

  /** The files in ascending order of their paths, compared component by component. */
  ghost predicate Listing(files: seq<Item>) {
    && (forall i | 0 <= i < |files| :: files[i].File?)
    && (forall i, j | 0 <= i < j < |files| ::
      Precedes(Split('/', files[i].entry.path), Split('/', files[j].entry.path)))
  }

  lemma SortedPathsPrecede(walk: seq<string>)
    requires NoRepeats(walk)
    ensures var paths := Sort(PosixLeq, walk);
      forall i, j | 0 <= i < j < |paths| :: Precedes(Split('/', paths[i]), Split('/', paths[j]))
  {
    hide PathLeq, Precedes, Split, Sort;
    PosixOrder();
    SortSorts(PosixLeq, walk);
    SortKeepsNoRepeats(PosixLeq, walk);
    var paths := Sort(PosixLeq, walk);
    forall i, j | 0 <= i < j < |paths| ensures Precedes(Split('/', paths[i]), Split('/', paths[j])) {
      assert PosixLeq(paths[i], paths[j]);
      PathLeqMeans(Split('/', paths[i]), Split('/', paths[j]));
      JoinUndoesSplit('/', paths[i]);
      JoinUndoesSplit('/', paths[j]);
    }
  }

  /** `build_release_manifest`. */
  method BuildReleaseManifest<P(!new)>(host: Host<P>, dir: Dir, walk: seq<string>, snapshotAt: int, source: Source,
      generator: Generator)
    returns (built: Option<Manifest>)
    requires Walks(walk, dir)
    ensures built.None? <==> MANIFEST_FILE in dir || exists p :: p in dir && FileEntry(host, p, dir[p]).None?
    ensures built.Some? ==> Describes(host, dir, Sort(PosixLeq, walk), built.value)
    ensures built.Some? ==> built.value.body.snapshotAt == Canonical(snapshotAt)
    ensures built.Some? ==> built.value.body.source == source && built.value.body.generator == generator
    ensures built.Some? ==> Listing(built.value.body.files)
  {
    hide FileEntry, PosixLeq, Sort, Precedes, Split, Listing;
    if MANIFEST_FILE in dir { return None; }
    var paths := Sort(PosixLeq, walk);
    SortedWalk(walk, dir);
    SortedPathsPrecede(walk);
    var files: seq<Item>, total := [], 0;
    for i := 0 to |paths|
      invariant |files| == i && forall j | 0 <= j < i :: EntryAt(host, dir, paths, files, j)
      invariant total == TotalBytes(files, dir)
    {
      var path := paths[i];
      assert path in paths;
      var entry := FileEntry(host, path, dir[path]);
      if entry.None? { return None; }
      FileEntryIs(host, path, dir[path]);
      assert (files + [File(entry.value)])[..i] == files;
      files := files + [File(entry.value)];
      total := total + |dir[path]|;
      assert EntryAt(host, dir, paths, files, i);
      assert forall j | 0 <= j < i :: EntryAt(host, dir, paths, files[..i], j) ==> EntryAt(host, dir, paths, files, j);
    }
    assert forall p | p in dir :: FileEntry(host, p, dir[p]).Some? by {
      forall p | p in dir ensures FileEntry(host, p, dir[p]).Some? {
        var j :| 0 <= j < |paths| && paths[j] == p;
        assert EntryAt(host, dir, paths, files, j);
      }
    }
    var body := Body(RELEASE_SCHEMA_VERSION, Canonical(snapshotAt), source, generator, |files|, total, files);
    ListedInOrder(host, dir, paths, files);
    built := Some(Manifest(body, BodySha256(body), RootDigest("sha256", BodySha256(body))));
  }

  ghost predicate EntryAt<P(!new)>(host: Host<P>, dir: Dir, paths: seq<string>, files: seq<Item>, j: nat) {
    && j < |paths| && j < |files| && files[j].File? && paths[j] in dir
    && files[j].entry.path == paths[j] && FileEntry(host, paths[j], dir[paths[j]]) == Some(files[j].entry)
  }

  lemma ListedInOrder<P(!new)>(host: Host<P>, dir: Dir, paths: seq<string>, files: seq<Item>)
    requires |files| == |paths| && forall j | 0 <= j < |paths| :: EntryAt(host, dir, paths, files, j)
    requires forall i, j | 0 <= i < j < |paths| :: Precedes(Split('/', paths[i]), Split('/', paths[j]))
    ensures Listing(files)
  {
    hide FileEntry, Precedes, Split;
    forall j | 0 <= j < |files| ensures files[j].File? && files[j].entry.path == paths[j] {
      assert EntryAt(host, dir, paths, files, j);
    }
  }

  lemma FileEntryIs<P(!new)>(host: Host<P>, path: string, data: Bytes)
    ensures FileEntry(host, path, data).Some? ==>
      && FileEntry(host, path, data).value.path == path
      && (EntryOk(host, FileEntry(host, path, data).value, data) <==> PayloadOk(host, path, data))
  {
  }

  lemma SortedWalk(walk: seq<string>, dir: Dir)
    requires Walks(walk, dir)
    ensures Walks(Sort(PosixLeq, walk), dir)
  {
    hide PosixLeq, Sort, NoRepeats;
    PosixOrder();
    SortKeepsNoRepeats(PosixLeq, walk);
  }

  /** A manifest that lists exactly the payload, in a given order. */
  ghost predicate Describes<P(!new)>(host: Host<P>, dir: Dir, paths: seq<string>, m: Manifest) {
    && MANIFEST_FILE !in dir && Walks(paths, dir)
    && m.body.schemaVersion == RELEASE_SCHEMA_VERSION && m.body.snapshotAt.Canonical?
    && |m.body.files| == |paths| && (forall j | 0 <= j < |paths| :: EntryAt(host, dir, paths, m.body.files, j))
    && m.body.fileCount == |m.body.files| && m.body.totalBytes == TotalBytes(m.body.files, dir)
    && m.releaseId == BodySha256(m.body) && m.rootDigest == RootDigest("sha256", m.releaseId)
  }

  /** What a payload must satisfy to be published: safe and case-distinct paths, and JSON without
      anything private. */
  ghost predicate PayloadPublishable<P(!new)>(host: Host<P>, dir: Dir) {
    && (forall p | p in dir :: SafePath(p) && PayloadOk(host, p, dir[p]))
    && (forall p, q | p in dir && q in dir && Lower(p) == Lower(q) :: p == q)
  }

  /** `write_release_manifest`. */
  function WithManifest<P(!new)>(host: Host<P>, dir: Dir, m: Manifest): Dir { dir[MANIFEST_FILE := host.encode(m)] }

  ghost predicate Names(files: seq<Item>, paths: seq<string>) {
    |files| == |paths| && forall i | 0 <= i < |files| :: files[i].File? && files[i].entry.path == paths[i]
  }

  lemma NamedListing(files: seq<Item>, paths: seq<string>, dir: Dir)
    requires Names(files, paths) && Walks(paths, dir) && MANIFEST_FILE !in dir
    requires forall p | p in dir :: SafePath(p)
    requires forall p, q | p in dir && q in dir && Lower(p) == Lower(q) :: p == q
    ensures ListingOk(files)
  {
    hide SafePath, Lower;
    forall i | 0 <= i < |files| ensures paths[i] in dir { assert paths[i] in paths; }
  }

  lemma ListingNamed(files: seq<Item>, paths: seq<string>, dir: Dir)
    requires Names(files, paths) && Walks(paths, dir) && ListingOk(files)
    ensures (forall p | p in dir :: SafePath(p)) && forall p, q | p in dir && q in dir && Lower(p) == Lower(q) :: p == q
  {
    hide SafePath, Lower, NoRepeats;
    forall p | p in dir ensures SafePath(p) {
      var i :| 0 <= i < |paths| && paths[i] == p;
      assert ItemOk(files[i]);
    }
    forall p, q | p in dir && q in dir && Lower(p) == Lower(q) ensures p == q {
      var i :| 0 <= i < |paths| && paths[i] == p;
      var j :| 0 <= j < |paths| && paths[j] == q;
      assert ItemOk(files[i]) && ItemOk(files[j]);
    }
  }

  lemma NamedPaths(files: seq<Item>, paths: seq<string>, dir: Dir)
    requires Names(files, paths) && Walks(paths, dir)
    ensures Listed(files) == dir.Keys
  {
    hide NoRepeats;
    forall p | p in dir ensures p in Listed(files) {
      var i :| 0 <= i < |paths| && paths[i] == p;
      assert files[i].entry.path == p;
    }
    forall p | p in Listed(files) ensures p in dir {
      var i :| 0 <= i < |files| && files[i].File? && files[i].entry.path == p;
      assert paths[i] in paths;
    }
  }

  lemma DescribedListing<P(!new)>(host: Host<P>, dir: Dir, paths: seq<string>, m: Manifest)
    requires Describes(host, dir, paths, m)
    ensures Listed(m.body.files) == dir.Keys
    ensures ListingOk(m.body.files)
      <==> (forall p | p in dir :: SafePath(p)) && forall p, q | p in dir && q in dir && Lower(p) == Lower(q) :: p == q
  {
    hide SafePath, Lower, FileEntry, TotalBytes, NoRepeats, Listed, ListingOk;
    var files := m.body.files;
    forall i | 0 <= i < |files|
      ensures files[i].File? && files[i].entry.path == paths[i]
    {
      assert EntryAt(host, dir, paths, files, i);
    }
    NamedPaths(files, paths, dir);
    if ListingOk(files) { ListingNamed(files, paths, dir); }
    if (forall p | p in dir :: SafePath(p)) && forall p, q | p in dir && q in dir && Lower(p) == Lower(q) :: p == q {
      NamedListing(files, paths, dir);
    }
  }

  lemma DescribedEntries<P(!new)>(host: Host<P>, dir: Dir, paths: seq<string>, m: Manifest)
    requires Describes(host, dir, paths, m)
    ensures forall i | 0 <= i < |m.body.files| :: m.body.files[i].File? && m.body.files[i].entry.path in dir
    ensures (forall i | 0 <= i < |m.body.files| ::
      EntryOk(host, m.body.files[i].entry, dir[m.body.files[i].entry.path]))
      <==> forall p | p in dir :: PayloadOk(host, p, dir[p])
  {
    hide FileEntry, EntryOk, PayloadOk;
    var files := m.body.files;
    forall i | 0 <= i < |files|
      ensures files[i].File? && files[i].entry.path == paths[i] && paths[i] in dir
      ensures EntryOk(host, files[i].entry, dir[paths[i]]) <==> PayloadOk(host, paths[i], dir[paths[i]])
    {
      assert EntryAt(host, dir, paths, files, i);
      FileEntryIs(host, paths[i], dir[paths[i]]);
    }
    if forall i | 0 <= i < |files| :: EntryOk(host, files[i].entry, dir[files[i].entry.path]) {
      forall p | p in dir ensures PayloadOk(host, p, dir[p]) {
        var i :| 0 <= i < |paths| && paths[i] == p;
        assert EntryOk(host, files[i].entry, dir[files[i].entry.path]);
      }
    }
  }

  lemma {:induction false} TotalIgnoresManifest(files: seq<Item>, dir: Dir, bytes: Bytes)
    requires forall i | 0 <= i < |files| :: files[i].File? && files[i].entry.path != MANIFEST_FILE
    ensures TotalBytes(files, dir[MANIFEST_FILE := bytes]) == TotalBytes(files, dir)
  {
    if files != [] { TotalIgnoresManifest(files[..|files| - 1], dir, bytes); }
  }

  lemma DescribedClosed<P(!new)>(host: Host<P>, dir: Dir, paths: seq<string>, m: Manifest)
    requires Describes(host, dir, paths, m)
    ensures Closed(host, WithManifest(host, dir, m), m) <==> PayloadPublishable(host, dir)
  {
    hide SafePath, Lower, FileEntry, EntryOk, PayloadOk, ListingOk, TotalBytes, Listed;
    DescribedListing(host, dir, paths, m);
    DescribedEntries(host, dir, paths, m);
    forall i | 0 <= i < |m.body.files| ensures m.body.files[i].entry.path != MANIFEST_FILE {
      assert m.body.files[i].entry.path in dir;
    }
    TotalIgnoresManifest(m.body.files, dir, host.encode(m));
  }

  /** A manifest built from a payload and written beside it validates exactly when the payload is
      publishable, the provenance is well formed, the sizes fit and the snapshot is recent enough. */
  lemma BuiltManifestValidates<P(!new)>(host: Host<P>, dir: Dir, paths: seq<string>, m: Manifest, policy: Policy,
      now: int, named: bool)
    requires Codec(host, m) && Describes(host, dir, paths, m)
    ensures Accepts(host, WithManifest(host, dir, m), m, if named then Some(m.releaseId) else None, policy, now) <==>
      && PayloadPublishable(host, dir)
      && SourceOk(m.body.source) && GeneratorOk(m.body.generator)
      && Sized(WithManifest(host, dir, m), policy)
      && Fresh(m.body.snapshotAt, policy.maxSnapshotAge, now)
  {
    hide Closed, PayloadPublishable, SourceOk, GeneratorOk, Sized, Fresh, FileEntry, TotalBytes;
    DescribedClosed(host, dir, paths, m);
  }

  // ---- A release id determines content ----

  lemma ListedPathIsListed(files: seq<Item>, p: string)
    requires ListingOk(files) && p in Listed(files)
    ensures exists i :: 0 <= i < |files| && files[i].File? && files[i].entry.path == p
  {
  }

  /** Two directories that both validate under one release id hold the same paths and bytes. */
  lemma ReleaseIdDeterminesContent<P(!new)>(host: Host<P>, a: Dir, b: Dir, m: Manifest, n: Manifest,
      homeA: Option<ReleaseId>, homeB: Option<ReleaseId>, policyA: Policy, policyB: Policy, nowA: int, nowB: int)
    requires Accepts(host, a, m, homeA, policyA, nowA) && Accepts(host, b, n, homeB, policyB, nowB)
    requires m.releaseId == n.releaseId
    ensures a == b && m == n
  {
    hide Sized, Fresh, SourceOk, GeneratorOk, TotalBytes, ListingOk, PayloadOk, Listed;
    var files := m.body.files;
    assert m.body == n.body;
    assert a.Keys == b.Keys;
    forall p | p in a ensures a[p] == b[p] {
      if p != MANIFEST_FILE {
        ListedPathIsListed(files, p);
        var i :| 0 <= i < |files| && files[i].File? && files[i].entry.path == p;
        assert EntryOk(host, files[i].entry, a[p]) && EntryOk(host, files[i].entry, b[p]);
      }
    }
  }
}
