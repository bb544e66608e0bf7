/** The manifest of a release directory: what it records and what validation checks
    (scripts/docs_search_release.py).

    A directory is a map from relative POSIX paths to bytes.  The JSON codecs, and what is read off a
    payload file, are functions of the host. */
module ReleaseManifest {
  import opened Hashing
  import opened Text
  import opened Wrappers

  const MANIFEST_FILE: string := "manifest.json"
  const RELEASE_SCHEMA_VERSION: int := 7
  const MAX_RELEASE_FILES: nat := 18_000
  const MAX_RELEASE_FILE_BYTES: nat := 24 * 1024 * 1024
  const MAX_PORTABLE_PATH_BYTES: nat := 1024

  type Bytes = seq<int>

  datatype MediaType = ApplicationJson | OctetStream | OtherType(text: string)

  /** The count of a file that is not JSON is never read back, so it may be anything. */
  datatype Count = Number(n: int) | OtherCount(text: string)

  datatype Entry = Entry(path: string, size: int, mediaType: MediaType, sha256: Digest<Bytes>, role: string,
      count: Count)

  /** An element of the `files` array; `NotAnEntry` is not an object, or has no text as its path. */
  datatype Item = File(entry: Entry) | NotAnEntry

  datatype Timestamp = Canonical(micros: int) | Odd(text: string)

  datatype Source = Source(kind: string, path: string, size: int, sha256: Digest<Bytes>)
  datatype Component = Component(path: string, sha256: Digest<Bytes>)
  datatype Generator = Generator(name: string, entrypoint: string, payloadSchemaVersion: int,
      components: seq<Component>)

  datatype Body = Body(schemaVersion: int, snapshotAt: Timestamp, source: Source, generator: Generator, fileCount: int,
    totalBytes: int, files: seq<Item>)

  /** SHA-256 of the canonical body, idealised. */
  datatype ReleaseId = BodySha256(body: Body)

  datatype RootDigest = RootDigest(algorithm: string, value: ReleaseId)

  datatype Manifest = Manifest(body: Body, releaseId: ReleaseId, rootDigest: RootDigest)

  /** What strict decoding makes of the manifest file. */
  datatype Document = Undecodable | NotAnObject | WrongShape | Whole(manifest: Manifest)

  /** `read` decodes a payload file strictly; `leaks` finds private fields or secrets in it. */
  datatype Host<!P(!new)> = Host(
    isJson: string -> bool,
    role: string -> string,
    read: Bytes -> Option<P>,
    count: (P, string) -> int,
    leaks: P -> bool,
    encode: Manifest -> Bytes,
    decode: Bytes -> Document)

  /** Decoding undoes encoding on this manifest. */
  predicate Codec<P(!new)>(host: Host<P>, m: Manifest) { host.decode(host.encode(m)) == Whole(m) }

  datatype Policy = Policy(maxSnapshotAge: Option<int>, maxFiles: nat, maxFileBytes: nat)

  // ---- Paths ----

  /** `_safe_relative_path_error` finds nothing: every segment is portable ASCII, so that `casefold`
      lowers letters. */
  predicate SafePath(path: string) {
    |path| <= MAX_PORTABLE_PATH_BYTES && forall i | 0 <= i < |Split('/', path)| :: PortablePart(Split('/', path)[i])
  }

  // ---- Validation, declared ----

  predicate SourceOk(s: Source) { s.kind == "sqlite" && SafePath(s.path) && s.size >= 0 }

  ghost predicate GeneratorOk(g: Generator) {
    && SafePath(g.entrypoint) && g.components != []
    && (forall i | 0 <= i < |g.components| :: SafePath(g.components[i].path))
    && (forall i, j | 0 <= i < j < |g.components| :: g.components[i].path != g.components[j].path)
  }

  ghost predicate ShapeOk(m: Manifest) {
    && m.body.schemaVersion == RELEASE_SCHEMA_VERSION
    && m.rootDigest.algorithm == "sha256"
    && SourceOk(m.body.source) && GeneratorOk(m.body.generator)
  }

  predicate ItemOk(item: Item) { item.File? && SafePath(item.entry.path) && item.entry.path != MANIFEST_FILE }

  /** Every item names a safe path, and no two differ in case only. */
  ghost predicate ListingOk(files: seq<Item>) {
    && (forall i | 0 <= i < |files| :: ItemOk(files[i]))
    && (forall i, j | 0 <= i < j < |files| :: ItemOk(files[i]) && ItemOk(files[j]) ==>
      Lower(files[i].entry.path) != Lower(files[j].entry.path))
  }

  function Listed(files: seq<Item>): set<string> { set i | 0 <= i < |files| && files[i].File? :: files[i].entry.path }

  /** A JSON payload file decodes strictly and holds nothing private. */
  predicate PayloadOk<P(!new)>(host: Host<P>, path: string, data: Bytes) {
    host.isJson(path) ==> host.read(data).Some? && !host.leaks(host.read(data).value)
  }

  predicate EntryOk<P(!new)>(host: Host<P>, e: Entry, data: Bytes) {
    && e.size == |data| && e.sha256 == Sha256(data) && e.role == host.role(e.path)
    && e.mediaType == (if host.isJson(e.path) then ApplicationJson else OctetStream)
    && PayloadOk(host, e.path, data)
    && (host.isJson(e.path) ==> e.count == Number(host.count(host.read(data).value, host.role(e.path))))
  }

  /** The sizes on disk of the listed files. */
  function TotalBytes(files: seq<Item>, dir: map<string, Bytes>): nat {
    if files == [] then 0
    else
      var last := files[|files| - 1];
      TotalBytes(files[..|files| - 1], dir) + if last.File? && last.entry.path in dir then |dir[last.entry.path]| else 0
  }

  predicate Fresh(snapshotAt: Timestamp, maxAge: Option<int>, now: int) {
    snapshotAt.Canonical? && (maxAge.Some? ==> now - snapshotAt.micros <= maxAge.value)
  }

  /** The directory closes over exactly what the manifest lists. */
  ghost predicate Closed<P(!new)>(host: Host<P>, dir: map<string, Bytes>, m: Manifest) {
    && ListingOk(m.body.files)
    && dir.Keys == Listed(m.body.files) + {MANIFEST_FILE}
    && (forall i | 0 <= i < |m.body.files| :: EntryOk(host, m.body.files[i].entry, dir[m.body.files[i].entry.path]))
    && m.body.fileCount == |m.body.files| && m.body.totalBytes == TotalBytes(m.body.files, dir)
  }

  predicate Sized(dir: map<string, Bytes>, policy: Policy) {
    |dir| <= policy.maxFiles && forall p | p in dir :: |dir[p]| < policy.maxFileBytes
  }

  predicate SelfNamed(m: Manifest, home: Option<ReleaseId>) {
    && m.releaseId == BodySha256(m.body) && m.rootDigest.value == BodySha256(m.body)
    && (home.Some? ==> home.value == m.releaseId)
  }

  /** `home` is the directory's own name, when it stands under `releases`. */
  ghost predicate Accepts<P(!new)>(host: Host<P>, dir: map<string, Bytes>, m: Manifest, home: Option<ReleaseId>,
      policy: Policy, now: int)
  {
    && MANIFEST_FILE in dir && host.decode(dir[MANIFEST_FILE]) == Whole(m) && host.encode(m) == dir[MANIFEST_FILE]
    && ShapeOk(m) && Sized(dir, policy) && Closed(host, dir, m)
    && Fresh(m.body.snapshotAt, policy.maxSnapshotAge, now) && SelfNamed(m, home)
  }

  /** A directory that is valid without an age limit is valid under one up to the microsecond at which its
      snapshot reaches that age, and never after. */
  lemma AgeDecides<P(!new)>(host: Host<P>, dir: map<string, Bytes>, m: Manifest, home: Option<ReleaseId>,
      policy: Policy, age: int, now: int)
    requires Accepts(host, dir, m, home, policy.(maxSnapshotAge := None), now)
    ensures m.body.snapshotAt.Canonical?
    ensures Accepts(host, dir, m, home, policy.(maxSnapshotAge := Some(age)), now)
      <==> now <= m.body.snapshotAt.micros + age
  {
    hide ShapeOk, Closed, SelfNamed;
  }

  // ---- Validation, step by step ----

  datatype Problem =
    | NoManifest | BadJson | NotObject | NotCanonical | BadShape | TooManyFiles | FileTooLarge | BadItem | UnsafePath
    | ListsItself | Duplicate | CaseCollision | Missing | Extra | WrongSize | WrongDigest | WrongMediaType | WrongRole
    | BadPayload | WrongCount | Private | WrongFileCount | WrongTotal | Stale | BadGraph | WrongRoot | WrongDirectory

  /** The first loop of `validate_release`: the listed entries, in order. */
  method CheckListing(files: seq<Item>) returns (entries: seq<Entry>, errors: seq<Problem>)
    ensures errors == [] <==> ListingOk(files)
    ensures errors == [] ==> entries == Entries(files)
  {
    hide SafePath, Lower;
    entries, errors := [], [];
    var seen: set<string> := {};
    var folded: set<string> := {};
    for i := 0 to |files|
      invariant errors == [] <==> ListingOk(files[..i])
      invariant errors == [] ==> entries == Entries(files[..i])
      invariant errors == [] ==> forall f :: f in folded <==> exists j :: 0 <= j < i && Lower(files[j].entry.path) == f
      invariant errors == [] ==> forall p :: p in seen <==> exists j :: 0 <= j < i && files[j].entry.path == p
    {
      var item := files[i];
      ListingGrows(files, i);
      if item.NotAnEntry? {
        errors := errors + [BadItem];
      } else {
        var path := item.entry.path;
        if !SafePath(path) {
          errors := errors + [UnsafePath];
        } else if path == MANIFEST_FILE {
          errors := errors + [ListsItself];
        } else if path in seen {
          errors := errors + [Duplicate];
        } else if Lower(path) in folded {
          errors := errors + [CaseCollision];
        } else {
          seen := seen + {path};
          folded := folded + {Lower(path)};
          entries := entries + [item.entry];
        }
      }
    }
    assert files[..|files|] == files;
  }

  ghost predicate CollidesBefore(files: seq<Item>, i: nat)
    requires i < |files|
  {
    exists j :: 0 <= j < i && files[j].File? && files[i].File?
      && Lower(files[j].entry.path) == Lower(files[i].entry.path)
  }

  lemma ListingGrows(files: seq<Item>, i: nat)
    requires i < |files|
    ensures ListingOk(files[..i + 1]) <==> ListingOk(files[..i]) && ItemOk(files[i]) && !CollidesBefore(files, i)
    ensures ListingOk(files[..i])
      ==> Entries(files[..i]) + (if files[i].File? then [files[i].entry] else []) == Entries(files[..i + 1])
  {
    hide SafePath, Lower;
    assert files[..i + 1][..i] == files[..i];
  }

  function Entries(files: seq<Item>): seq<Entry> {
    if files == [] then []
    else Entries(files[..|files| - 1]) + if files[|files| - 1].File? then [files[|files| - 1].entry] else []
  }

  lemma {:induction false} EntriesOfListing(files: seq<Item>)
    requires forall i | 0 <= i < |files| :: files[i].File?
    ensures |Entries(files)| == |files|
    ensures forall i | 0 <= i < |files| :: Entries(files)[i] == files[i].entry
  {
    if files != [] { EntriesOfListing(files[..|files| - 1]); }
  }

  function SizeOnDisk(e: Entry, dir: map<string, Bytes>): nat { if e.path in dir then |dir[e.path]| else 0 }

  function TotalOf(entries: seq<Entry>, dir: map<string, Bytes>): nat {
    if entries == [] then 0 else TotalOf(entries[..|entries| - 1], dir) + SizeOnDisk(entries[|entries| - 1], dir)
  }

  lemma {:induction false} TotalOfEntries(files: seq<Item>, dir: map<string, Bytes>)
    requires forall i | 0 <= i < |files| :: files[i].File?
    ensures TotalOf(Entries(files), dir) == TotalBytes(files, dir)
  {
    if files != [] {
      var last := |files| - 1;
      TotalOfEntries(files[..last], dir);
      assert Entries(files)[..|Entries(files)| - 1] == Entries(files[..last]);
    }
  }

  /** One entry against its file. */
  method CheckFile<P(!new)>(host: Host<P>, e: Entry, data: Bytes) returns (errors: seq<Problem>)
    ensures errors == [] <==> EntryOk(host, e, data)
  {
    errors := [];
    if e.size != |data| { errors := errors + [WrongSize]; }
    if e.sha256 != Sha256(data) { errors := errors + [WrongDigest]; }
    if e.mediaType != (if host.isJson(e.path) then ApplicationJson else OctetStream) {
      errors := errors + [WrongMediaType];
    }
    if e.role != host.role(e.path) { errors := errors + [WrongRole]; }
    if host.isJson(e.path) {
      var payload := host.read(data);
      if payload.None? { return errors + [BadPayload]; }
      if e.count != Number(host.count(payload.value, host.role(e.path))) { errors := errors + [WrongCount]; }
      if host.leaks(payload.value) { errors := errors + [Private]; }
    }
  }

  /** The second loop of `validate_release`: entries whose file is missing are passed over. */
  method CheckFiles<P(!new)>(host: Host<P>, entries: seq<Entry>, dir: map<string, Bytes>)
    returns (total: nat, errors: seq<Problem>)
    ensures total == TotalOf(entries, dir)
    ensures errors == [] <==> AllMatch(host, entries, dir)
  {
    hide EntryOk;
    total, errors := 0, [];
    for i := 0 to |entries|
      invariant total == TotalOf(entries[..i], dir)
      invariant errors == []
        <==> forall j | 0 <= j < i :: entries[j].path in dir ==> EntryOk(host, entries[j], dir[entries[j].path])
    {
      assert entries[..i + 1][..i] == entries[..i];
      var e := entries[i];
      if e.path in dir {
        total := total + |dir[e.path]|;
        var found := CheckFile(host, e, dir[e.path]);
        errors := errors + found;
      }
    }
    assert entries[..|entries|] == entries;
  }

  method CheckGenerator(g: Generator) returns (ok: bool)
    ensures ok <==> GeneratorOk(g)
  {
    hide SafePath;
    if !SafePath(g.entrypoint) || g.components == [] { return false; }
    var paths: set<string> := {};
    for i := 0 to |g.components|
      invariant forall p :: p in paths <==> exists j :: 0 <= j < i && g.components[j].path == p
      invariant forall j | 0 <= j < i :: SafePath(g.components[j].path)
      invariant forall j, k | 0 <= j < k < i :: g.components[j].path != g.components[k].path
    {
      var path := g.components[i].path;
      if !SafePath(path) || path in paths { return false; }
      paths := paths + {path};
    }
    ok := true;
  }

  method CheckShape(m: Manifest) returns (errors: seq<Problem>)
    ensures errors == [] <==> ShapeOk(m)
  {
    hide SourceOk, GeneratorOk;
    var generator := CheckGenerator(m.body.generator);
    var ok := m.body.schemaVersion == RELEASE_SCHEMA_VERSION && m.rootDigest.algorithm == "sha256"
      && SourceOk(m.body.source) && generator;
    errors := if ok then [] else [BadShape];
  }

  /** The files on disk against the expected ones, both ways. */
  method CompareFileSets(expected: set<string>, dir: map<string, Bytes>) returns (errors: seq<Problem>)
    ensures errors == [] <==> dir.Keys == expected
  {
    errors := [];
    if exists p :: p in expected && p !in dir { errors := errors + [Missing]; }
    if exists p :: p in dir && p !in expected { errors := errors + [Extra]; }
  }

  function PathsOf(entries: seq<Entry>): set<string> { set i | 0 <= i < |entries| :: entries[i].path }

  ghost predicate AllMatch<P(!new)>(host: Host<P>, entries: seq<Entry>, dir: map<string, Bytes>) {
    forall i | 0 <= i < |entries| :: entries[i].path in dir ==> EntryOk(host, entries[i], dir[entries[i].path])
  }

  lemma ListingClosed<P(!new)>(host: Host<P>, dir: map<string, Bytes>, m: Manifest)
    requires ListingOk(m.body.files)
    ensures Closed(host, dir, m) <==>
      && dir.Keys == PathsOf(Entries(m.body.files)) + {MANIFEST_FILE}
      && AllMatch(host, Entries(m.body.files), dir)
      && m.body.fileCount == |m.body.files| && m.body.totalBytes == TotalOf(Entries(m.body.files), dir)
  {
    hide ItemOk, EntryOk, Lower, TotalOf, TotalBytes, Entries, ListingOk;
    var files := m.body.files;
    ListingIsFiles(files);
    EntriesOfListing(files);
    TotalOfEntries(files, dir);
    ListedPaths(files);
    FilesOnDisk(host, dir, files, Entries(files));
  }

  lemma ListedPaths(files: seq<Item>)
    requires forall i | 0 <= i < |files| :: files[i].File?
    ensures PathsOf(Entries(files)) == Listed(files)
  {
    hide Entries;
    EntriesOfListing(files);
    forall p | p in Listed(files) ensures p in PathsOf(Entries(files)) {
      var i :| 0 <= i < |files| && files[i].File? && files[i].entry.path == p;
      assert Entries(files)[i].path == p;
    }
    forall p | p in PathsOf(Entries(files)) ensures p in Listed(files) {
      var i :| 0 <= i < |Entries(files)| && Entries(files)[i].path == p;
      assert files[i].entry.path == p;
    }
  }

  /** Content closure: the listing, the file set, every file, the counts and the total. */
  method CheckContent<P(!new)>(host: Host<P>, dir: map<string, Bytes>, m: Manifest) returns (errors: seq<Problem>)
    ensures errors == [] <==> Closed(host, dir, m)
  {
    hide EntryOk, ListingOk, Closed, Entries, TotalOf, PathsOf;
    var entries, listing := CheckListing(m.body.files);
    var sets := CompareFileSets(PathsOf(entries) + {MANIFEST_FILE}, dir);
    var total, files := CheckFiles(host, entries, dir);
    errors := listing + sets + files;
    if m.body.fileCount != |m.body.files| { errors := errors + [WrongFileCount]; }
    if m.body.totalBytes != total { errors := errors + [WrongTotal]; }
    if listing == [] {
      ListingClosed(host, dir, m);
    } else {
      ClosedIsListed(host, dir, m);
    }
  }

  lemma ClosedIsListed<P(!new)>(host: Host<P>, dir: map<string, Bytes>, m: Manifest)
    ensures Closed(host, dir, m) ==> ListingOk(m.body.files)
  {
  }

  lemma ListingIsFiles(files: seq<Item>)
    requires ListingOk(files)
    ensures forall i | 0 <= i < |files| :: files[i].File?
  {
    hide SafePath, Lower;
    forall i | 0 <= i < |files| ensures files[i].File? { assert ItemOk(files[i]); }
  }

  lemma FilesOnDisk<P(!new)>(host: Host<P>, dir: map<string, Bytes>, files: seq<Item>, entries: seq<Entry>)
    requires |entries| == |files| && forall i | 0 <= i < |files| :: files[i].File? && entries[i] == files[i].entry
    ensures dir.Keys == Listed(files) + {MANIFEST_FILE} ==>
      && (forall i | 0 <= i < |files| :: files[i].entry.path in dir)
      && (AllMatch(host, entries, dir)
        <==> forall i | 0 <= i < |files| :: EntryOk(host, files[i].entry, dir[files[i].entry.path]))
  {
    hide EntryOk;
    if dir.Keys == Listed(files) + {MANIFEST_FILE} {
      forall i | 0 <= i < |files| ensures files[i].entry.path in dir {
        assert files[i].entry.path in Listed(files);
      }
    }
  }

  function Read<P(!new)>(host: Host<P>, dir: map<string, Bytes>): Document {
    if MANIFEST_FILE in dir then host.decode(dir[MANIFEST_FILE]) else Undecodable
  }

  /** Validation without an age limit finds nothing. */
  ghost predicate Unlimited<P(!new)>(host: Host<P>, graph: map<string, Bytes> -> bool, requireGraph: bool,
      dir: map<string, Bytes>, home: Option<ReleaseId>, policy: Policy, now: int)
  {
    && Read(host, dir).Whole? && (requireGraph ==> graph(dir))
    && Accepts(host, dir, Read(host, dir).manifest, home, policy.(maxSnapshotAge := None), now)
  }

  /** `validate_release`; the graph of search manifest and rights policy is checked when required. */
  method ValidateRelease<P(!new)>(host: Host<P>, graph: map<string, Bytes> -> bool, requireGraph: bool,
      dir: map<string, Bytes>, home: Option<ReleaseId>, policy: Policy, now: int)
    returns (errors: seq<Problem>)
    ensures errors == [] <==>
      && Read(host, dir).Whole? && Accepts(host, dir, Read(host, dir).manifest, home, policy, now)
      && (requireGraph ==> graph(dir))
    ensures errors == [] && policy.maxSnapshotAge.Some? ==>
      && Read(host, dir).Whole? && Read(host, dir).manifest.body.snapshotAt.Canonical?
      && now <= Read(host, dir).manifest.body.snapshotAt.micros + policy.maxSnapshotAge.value
    ensures Unlimited(host, graph, requireGraph, dir, home, policy, now) ==>
      && Read(host, dir).manifest.body.snapshotAt.Canonical?
      && (errors == [] <==>
          || policy.maxSnapshotAge.None?
          || now <= Read(host, dir).manifest.body.snapshotAt.micros + policy.maxSnapshotAge.value)
  {
    hide ShapeOk, Closed;
    if MANIFEST_FILE !in dir { return [NoManifest]; }
    var document := host.decode(dir[MANIFEST_FILE]);
    if document.Undecodable? { return [BadJson]; }
    if document.NotAnObject? { return [NotObject]; }
    if document.WrongShape? { return [BadShape]; }
    var m := document.manifest;
    errors := if host.encode(m) != dir[MANIFEST_FILE] then [NotCanonical] else [];
    var shape := CheckShape(m);
    errors := errors + shape;
    if |dir| > policy.maxFiles { errors := errors + [TooManyFiles]; }
    if exists p :: p in dir && |dir[p]| >= policy.maxFileBytes { errors := errors + [FileTooLarge]; }
    var content := CheckContent(host, dir, m);
    errors := errors + content;
    if !Fresh(m.body.snapshotAt, policy.maxSnapshotAge, now) { errors := errors + [Stale]; }
    if requireGraph && !graph(dir) { errors := errors + [BadGraph]; }
    if m.releaseId != BodySha256(m.body) || m.rootDigest.value != BodySha256(m.body) { errors := errors + [WrongRoot]; }
    if home.Some? && home.value != m.releaseId { errors := errors + [WrongDirectory]; }
  }
}
