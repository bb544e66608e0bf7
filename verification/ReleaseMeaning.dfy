/** What a valid release is, in plain terms (scripts/docs_search_release.py, `validate_release`). */
module ReleaseMeaning {
  import opened Hashing
  import opened ReleaseManifest
  import opened Text
  import opened Wrappers

  predicate PathChar(c: char) {
    'a' <= c <= 'z' || 'A' <= c <= 'Z' || '0' <= c <= '9' || c == '.' || c == '_' || c == '-' || c == '/'
  }

  /** A portable path of at most 1024 characters that leads straight to its file. */
  ghost predicate Tame(path: string) {
    |path| <= 1024 && Straight(Split('/', path)) && forall i | 0 <= i < |path| :: PathChar(path[i])
  }

  ghost predicate CharsPortable(s: string) { forall i | 0 <= i < |s| :: PathChar(s[i]) }

  ghost predicate PartPortable(s: string) { forall i | 0 <= i < |s| :: PortableChar(s[i]) }

  ghost predicate AllPortable(parts: seq<string>) { forall i | 0 <= i < |parts| :: PartPortable(parts[i]) }

  lemma CharsHead(s: string)
    requires s != []
    ensures CharsPortable(s) <==> PathChar(s[0]) && CharsPortable(s[1..])
  {
    if PathChar(s[0]) && CharsPortable(s[1..]) {
      forall i | 0 <= i < |s| ensures PathChar(s[i]) { if i > 0 { assert PathChar(s[1..][i - 1]); } }
    }
  }

  lemma PartHead(c: char, s: string)
    ensures PartPortable([c] + s) <==> PortableChar(c) && PartPortable(s)
  {
    var t := [c] + s;
    if PartPortable(t) {
      forall i | 0 <= i < |s| ensures PortableChar(s[i]) { assert PortableChar(t[i + 1]); }
      assert PortableChar(t[0]);
    }
  }

  lemma AllHead(part: string, rest: seq<string>)
    ensures AllPortable([part] + rest) <==> PartPortable(part) && AllPortable(rest)
  {
    hide PartPortable;
    var parts := [part] + rest;
    if AllPortable(parts) {
      forall i | 0 <= i < |rest| ensures PartPortable(rest[i]) { assert PartPortable(parts[i + 1]); }
      assert PartPortable(parts[0]);
    }
  }

  lemma {:induction false} CharsOfParts(s: string)
    ensures CharsPortable(s) <==> AllPortable(Split('/', s))
  {
    if s != [] {
      hide CharsPortable, PartPortable, AllPortable;
      var rest := Split('/', s[1..]);
      CharsOfParts(s[1..]);
      CharsHead(s);
      NothingPortable();
      AllHead("", rest);
      PartHead(s[0], rest[0]);
      AllHead([s[0]] + rest[0], rest[1..]);
      AllHead(rest[0], rest[1..]);
      assert [rest[0]] + rest[1..] == rest;
    }
  }

  lemma NothingPortable()
    ensures PartPortable("")
  {
  }

  lemma SafePathMeans(path: string)
    ensures SafePath(path) <==> Tame(path)
  {
    hide Split, Straight, PathChar, PortableChar;
    var parts := Split('/', path);
    CharsOfParts(path);
    StraightIsPlain(parts);
    forall i | 0 <= i < |parts| ensures PortablePart(parts[i]) <==> Plain(parts[i]) && PartPortable(parts[i]) {}
  }

  /** The bytes of the listed files that are there, from the front of the list. */
  function Volume(files: seq<Item>, dir: map<string, Bytes>): nat {
    if files == [] then 0
    else (match files[0]
          case File(e) => if e.path in dir then |dir[e.path]| else 0
          case NotAnEntry => 0) + Volume(files[1..], dir)
  }

  lemma {:induction false} VolumeLast(files: seq<Item>, dir: map<string, Bytes>)
    requires files != []
    ensures var last := files[|files| - 1];
      Volume(files, dir) == Volume(files[..|files| - 1], dir)
        + if last.File? && last.entry.path in dir then |dir[last.entry.path]| else 0
  {
    if |files| > 1 {
      VolumeLast(files[1..], dir);
      assert files[1..][..|files| - 2] == files[..|files| - 1][1..];
    }
  }

  lemma {:induction false} TotalIsVolume(files: seq<Item>, dir: map<string, Bytes>)
    ensures TotalBytes(files, dir) == Volume(files, dir)
  {
    if files != [] {
      TotalIsVolume(files[..|files| - 1], dir);
      VolumeLast(files, dir);
    }
  }

  /** The entry says of its file what the file is: its length, its digest, its media type, its role, and,
      of JSON that decodes and leaks nothing, its count. */
  ghost predicate Truthful<P(!new)>(host: Host<P>, e: Entry, data: Bytes) {
    && e.size == |data| && e.sha256.preimage == data && e.role == host.role(e.path)
    && if host.isJson(e.path) then
         && e.mediaType.ApplicationJson? && host.read(data).Some? && !host.leaks(host.read(data).value)
         && e.count.Number? && e.count.n == host.count(host.read(data).value, e.role)
       else e.mediaType.OctetStream?
  }

  lemma EntryMeans<P(!new)>(host: Host<P>, e: Entry, data: Bytes)
    ensures EntryOk(host, e, data) <==> Truthful(host, e, data)
  {
  }

  /** The manifest file is the canonical text of `m`; schema 7 and SHA-256; an SQLite source and a
      generator at tame paths, with components that all differ. */
  ghost predicate WellFormed(m: Manifest) {
    && m.body.schemaVersion == 7 && m.rootDigest.algorithm == "sha256"
    && m.body.source.kind == "sqlite" && m.body.source.size >= 0 && Tame(m.body.source.path)
    && Tame(m.body.generator.entrypoint) && |m.body.generator.components| >= 1
    && (forall c | c in m.body.generator.components :: Tame(c.path))
    && (forall i, j | 0 <= i < j < |m.body.generator.components| ::
      m.body.generator.components[i].path != m.body.generator.components[j].path)
  }

  lemma ShapeMeans(m: Manifest)
    ensures ShapeOk(m) <==> WellFormed(m)
  {
    hide SafePath, Tame;
    SafePathMeans(m.body.source.path);
    SafePathMeans(m.body.generator.entrypoint);
    var cs := m.body.generator.components;
    forall i | 0 <= i < |cs| ensures SafePath(cs[i].path) <==> Tame(cs[i].path) { SafePathMeans(cs[i].path); }
    if forall c | c in cs :: Tame(c.path) {
      forall i | 0 <= i < |cs| ensures SafePath(cs[i].path) { assert cs[i] in cs; }
    }
  }

  /** Every file but the manifest is listed once, truthfully and under a tame name that no other name
      repeats in any case, and nothing else is listed; number and volume are as said. */
  ghost predicate Complete<P(!new)>(host: Host<P>, dir: map<string, Bytes>, m: Manifest) {
    var files := m.body.files;
    && (forall i | 0 <= i < |files| ::
      && files[i].File? && Tame(files[i].entry.path) && files[i].entry.path != "manifest.json"
      && files[i].entry.path in dir && Truthful(host, files[i].entry, dir[files[i].entry.path]))
    && (forall i, j | 0 <= i < j < |files| && files[i].File? && files[j].File? ::
      !SameLetters(files[i].entry.path, files[j].entry.path))
    && (forall p | p in dir && p != "manifest.json" ::
      exists i :: 0 <= i < |files| && files[i].File? && files[i].entry.path == p)
    && m.body.fileCount == |files| && m.body.totalBytes == Volume(files, dir)
  }

  lemma ListingMeans(files: seq<Item>)
    ensures ListingOk(files) <==>
      && (forall i | 0 <= i < |files| ::
        files[i].File? && Tame(files[i].entry.path) && files[i].entry.path != "manifest.json")
      && (forall i, j | 0 <= i < j < |files| && files[i].File? && files[j].File? ::
        !SameLetters(files[i].entry.path, files[j].entry.path))
  {
    hide SafePath, Tame, Lower, SameLetters;
    forall i | 0 <= i < |files| && files[i].File?
      ensures SafePath(files[i].entry.path) <==> Tame(files[i].entry.path)
    {
      SafePathMeans(files[i].entry.path);
    }
    forall i, j | 0 <= i < j < |files| && files[i].File? && files[j].File?
      ensures Lower(files[i].entry.path) != Lower(files[j].entry.path)
        <==> !SameLetters(files[i].entry.path, files[j].entry.path)
    {
      LowerMeans(files[i].entry.path, files[j].entry.path);
    }
  }

  lemma ClosedMeans<P(!new)>(host: Host<P>, dir: map<string, Bytes>, m: Manifest)
    requires "manifest.json" in dir
    ensures Closed(host, dir, m) <==> Complete(host, dir, m)
  {
    hide Tame, ListingOk, SameLetters, EntryOk, Truthful;
    var files := m.body.files;
    ListingMeans(files);
    TotalIsVolume(files, dir);
    forall i | 0 <= i < |files| && files[i].File? && files[i].entry.path in dir
      ensures EntryOk(host, files[i].entry, dir[files[i].entry.path])
        <==> Truthful(host, files[i].entry, dir[files[i].entry.path])
    {
      EntryMeans(host, files[i].entry, dir[files[i].entry.path]);
    }
    if Complete(host, dir, m) { CompleteKeys(host, dir, m); }
    if Closed(host, dir, m) {
      forall i | 0 <= i < |files| ensures files[i].entry.path in dir { assert files[i].entry.path in Listed(files); }
      forall p | p in dir && p != "manifest.json"
        ensures exists i :: 0 <= i < |files| && files[i].File? && files[i].entry.path == p
      {
        assert p in Listed(files);
      }
    }
  }

  lemma CompleteKeys<P(!new)>(host: Host<P>, dir: map<string, Bytes>, m: Manifest)
    requires "manifest.json" in dir && Complete(host, dir, m)
    ensures dir.Keys == Listed(m.body.files) + {MANIFEST_FILE}
  {
    hide Tame, SameLetters, Truthful;
    var files := m.body.files;
    forall p | p in dir ensures p in Listed(files) + {MANIFEST_FILE} {
      if p != "manifest.json" {
        var i :| 0 <= i < |files| && files[i].File? && files[i].entry.path == p;
      }
    }
  }

  /** A release is valid exactly when its manifest is canonical, well formed, complete and true, its own
      digest is its id, its root and the name of its directory, its files are not too many or too
      large, and its snapshot is not older than the policy allows. */
  lemma AcceptsMeans<P(!new)>(host: Host<P>, dir: map<string, Bytes>, m: Manifest, home: Option<ReleaseId>,
      policy: Policy, now: int)
    ensures Accepts(host, dir, m, home, policy, now) <==>
      && "manifest.json" in dir
      && host.decode(dir["manifest.json"]) == Whole(m) && dir["manifest.json"] == host.encode(m)
      && WellFormed(m) && Complete(host, dir, m)
      && |dir| <= policy.maxFiles && (forall p | p in dir :: |dir[p]| < policy.maxFileBytes)
      && m.releaseId.body == m.body && m.rootDigest.value.body == m.body
      && (home.Some? ==> m.releaseId == home.value)
      && m.body.snapshotAt.Canonical?
      && (policy.maxSnapshotAge.Some? ==> now <= m.body.snapshotAt.micros + policy.maxSnapshotAge.value)
  {
    hide ShapeOk, WellFormed, Closed, Complete;
    ShapeMeans(m);
    if "manifest.json" in dir { ClosedMeans(host, dir, m); }
  }
}
