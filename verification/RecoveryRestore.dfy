/** What an accepted recovery archive promises, and what restoring one leaves on disk
    (scripts/docs_search_delivery.py, semantics, extraction and restore). */
module RecoveryRestore {
  import opened Orders
  import opened Wrappers
  import opened RecoveryArchive
  import Text

  // ---- The bundle manifest closes over the asset members ----

  predicate LineOk(l: FileLine) {
    IsAsset(l.path) && l.bytes >= 0 && HexDigits(l.sha256, 64)
  }

  ghost predicate LinesOk(files: seq<FileLine>) {
    && (forall l | l in files :: LineOk(l))
    && (forall i, j | 0 <= i < j < |files| :: StrictlyBefore(files[i].path, files[j].path))
  }

  function LinesMap(files: seq<FileLine>): map<string, (int, string)> {
    if files == [] then map[]
    else
      var l := files[|files| - 1];
      LinesMap(files[..|files| - 1])[l.path := (l.bytes, l.sha256)]
  }

  function TotalBytes(files: seq<FileLine>): int {
    if files == [] then 0 else TotalBytes(files[..|files| - 1]) + files[|files| - 1].bytes
  }

  function AssetsOf(scan: Scan): map<string, (int, string)> {
    map name | name in scan.digests && name in scan.sizes && IsAsset(name) :: (scan.sizes[name], scan.digests[name])
  }

  lemma LinesOneMore(before: seq<FileLine>, l: FileLine)
    ensures LinesOk(before + [l]) <==>
      LinesOk(before) && LineOk(l) && (before != [] ==> StrictlyBefore(before[|before| - 1].path, l.path))
  {
    var more := before + [l];
    StringOrder();
    assert l in more && more[|before|] == l;
    assert forall i | 0 <= i < |before| :: more[i] == before[i];
    assert forall o | o in before :: o in more;
    if LinesOk(before) && before != [] && StrictlyBefore(before[|before| - 1].path, l.path) {
      forall i | 0 <= i < |before| ensures StrictlyBefore(before[i].path, l.path) {
        if i < |before| - 1 { assert StrictlyBefore(before[i].path, before[|before| - 1].path); }
      }
    }
    if LinesOk(more) && before != [] { assert StrictlyBefore(more[|before| - 1].path, more[|before|].path); }
  }

  lemma LinesPrefixOk(files: seq<FileLine>, i: nat)
    requires i <= |files|
    ensures LinesOk(files) ==> LinesOk(files[..i])
  {
    assert forall l | l in files[..i] :: l in files;
  }

  lemma NoLines()
    ensures LinesOk([]) && LinesMap([]) == map[]
  {
  }

  lemma LinesStep(files: seq<FileLine>, i: nat)
    requires i < |files|
    ensures LinesOk(files[..i + 1]) <==>
      LinesOk(files[..i]) && LineOk(files[i]) && (i > 0 ==> StrictlyBefore(files[i - 1].path, files[i].path))
    ensures LinesMap(files[..i + 1]) == LinesMap(files[..i])[files[i].path := (files[i].bytes, files[i].sha256)]
  {
    hide LinesOk, LineOk, StrictlyBefore;
    assert files[..i + 1] == files[..i] + [files[i]];
    assert files[..i + 1][..i] == files[..i];
    LinesOneMore(files[..i], files[i]);
  }

  /** The loop over `files` in `_validate_archive_semantics`. */
  method ReadLines(files: seq<FileLine>) returns (r: Option<map<string, (int, string)>>)
    ensures r.Some? <==> LinesOk(files)
    ensures r.Some? ==> r.value == LinesMap(files)
  {
    NoLines();
    hide LineOk, StrictlyBefore, LinesOk, LinesMap;
    var manifestFiles: map<string, (int, string)> := map[];
    var previous: Option<string> := None;
    var i := 0;
    assert files[..0] == [];
    while i < |files|
      invariant 0 <= i <= |files|
      invariant LinesOk(files[..i]) && manifestFiles == LinesMap(files[..i])
      invariant previous == if i == 0 then None else Some(files[i - 1].path)
    {
      var l := files[i];
      LinesStep(files, i);
      LinesPrefixOk(files, i + 1);
      if !LineOk(l) || (previous.Some? && !StrictlyBefore(previous.value, l.path)) {
        return None;
      }
      manifestFiles := manifestFiles[l.path := (l.bytes, l.sha256)];
      previous := Some(l.path);
      i := i + 1;
    }
    assert files[..i] == files;
    return Some(manifestFiles);
  }

  ghost predicate Maps(m: map<string, (int, string)>, files: seq<FileLine>) {
    && m.Keys == (set l | l in files :: l.path)
    && forall l | l in files :: l.path in m && m[l.path] == (l.bytes, l.sha256)
  }

  lemma MapsOneMore(m: map<string, (int, string)>, before: seq<FileLine>, last: FileLine)
    requires Maps(m, before) && forall l | l in before :: l.path != last.path
    ensures Maps(m[last.path := (last.bytes, last.sha256)], before + [last])
  {
  }

  lemma LastPathIsNew(before: seq<FileLine>, last: FileLine)
    requires LinesOk(before + [last])
    ensures forall l | l in before :: l.path != last.path
  {
    var files := before + [last];
    forall l | l in before ensures l.path != last.path {
      var i :| 0 <= i < |before| && before[i] == l;
      assert StrictlyBefore(files[i].path, files[|before|].path);
    }
  }

  lemma {:induction false} LinesMapLists(files: seq<FileLine>)
    requires LinesOk(files)
    ensures Maps(LinesMap(files), files)
  {
    if files != [] {
      var before, last := files[..|files| - 1], files[|files| - 1];
      assert files == before + [last];
      LinesOneMore(before, last);
      LinesMapLists(before);
      LastPathIsNew(before, last);
      MapsOneMore(LinesMap(before), before, last);
    }
  }

  predicate ManifestHeaderOk(m: BundleManifest) {
    && m.schemaVersion == DELIVERY_SCHEMA_VERSION
    && HexDigits(m.currentReleaseId, 64) && HexDigits(m.previousReleaseId, 64)
    && m.currentReleaseId != m.previousReleaseId
    && HexDigits(m.stageRootDigest, 64)
  }

  ghost predicate ManifestOk(m: BundleManifest, scan: Scan) {
    && ManifestHeaderOk(m)
    && LinesOk(m.files) && LinesMap(m.files) == AssetsOf(scan)
    && m.fileCount == |m.files| && m.totalBytes == TotalBytes(m.files)
  }

  predicate ProvenanceOk(h: Host, p: Provenance, m: BundleManifest, scan: Scan) {
    && p.schemaVersion == DELIVERY_SCHEMA_VERSION
    && p.createdAtIsCanonical
    && HexDigits(p.sourceRevision, 40)
    && p.currentReleaseId == m.currentReleaseId && p.previousReleaseId == m.previousReleaseId
    && p.stageRootDigest == m.stageRootDigest && p.wranglerVersion == h.wranglerVersion
    && p.materials.Keys == TOOLS + {ChannelPointer, Headers}
    && (forall name | name in p.materials :: HexDigits(p.materials[name], 64))
    && CHANNEL_MEMBER in scan.digests && p.materials[ChannelPointer] == scan.digests[CHANNEL_MEMBER]
    && HEADERS_MEMBER in scan.digests && p.materials[Headers] == scan.digests[HEADERS_MEMBER]
    && (forall name | name in h.tools :: name in p.materials && p.materials[name] == h.tools[name])
  }

  /** The SPDX document describes the manifest's list, item by item. */
  ghost predicate SbomOk(s: Sbom, m: BundleManifest) {
    && s.stageRootDigest == m.stageRootDigest
    && |s.files| == |m.files|
    && forall i | 0 <= i < |s.files| :: s.files[i] == SbomFile(i + 1, m.files[i].path, m.files[i].sha256)
  }

  /** `_validate_archive_sbom`. */
  method CheckSbom(s: Sbom, m: BundleManifest) returns (ok: bool)
    ensures ok <==> SbomOk(s, m)
  {
    if s.stageRootDigest != m.stageRootDigest || |s.files| != |m.files| { return false; }
    var index := 0;
    while index < |s.files|
      invariant 0 <= index <= |s.files|
      invariant forall i | 0 <= i < index :: s.files[i] == SbomFile(i + 1, m.files[i].path, m.files[i].sha256)
    {
      if s.files[index] != SbomFile(index + 1, m.files[index].path, m.files[index].sha256) { return false; }
      index := index + 1;
    }
    return true;
  }

  datatype Identity = Identity(sourceRevision: string, currentReleaseId: string, previousReleaseId: string,
      stageRootDigest: string)

  ghost predicate Documented(h: Host, scan: Scan) {
    && METADATA_NAMES <= scan.retained.Keys
    && h.text(scan.retained[SUMS]).Some?
    && h.manifest(scan.retained[MANIFEST]).Some?
    && h.provenance(scan.retained[PROVENANCE]).Some?
    && h.sbom(scan.retained[SBOM]).Some?
  }

  /** Everything the inspector demands of the members of an archive. */
  ghost predicate Accepted(h: Host, ms: seq<Member>) {
    var scan := ScanOf(h, ms);
    && StreamOk(h, ms)
    && Documented(h, scan)
    && SumsClose(SplitLines("", h.text(scan.retained[SUMS]).value), scan)
    && var m := h.manifest(scan.retained[MANIFEST]).value;
    && ManifestOk(m, scan)
    && ProvenanceOk(h, h.provenance(scan.retained[PROVENANCE]).value, m, scan)
    && SbomOk(h.sbom(scan.retained[SBOM]).value, m)
  }

  ghost function ManifestOf(h: Host, ms: seq<Member>): BundleManifest
    requires Documented(h, ScanOf(h, ms))
  {
    h.manifest(ScanOf(h, ms).retained[MANIFEST]).value
  }

  ghost function IdentityOf(h: Host, ms: seq<Member>): Identity
    requires Documented(h, ScanOf(h, ms))
  {
    var m := ManifestOf(h, ms);
    Identity(h.provenance(ScanOf(h, ms).retained[PROVENANCE]).value.sourceRevision,
             m.currentReleaseId, m.previousReleaseId, m.stageRootDigest)
  }

  /** `_inspect_recovery_archive_handle`. */
  method InspectArchive(h: Host, ms: seq<Member>, fileName: string, archiveSha256: string) returns (r: Option<Identity>)
    ensures r.Some? <==> Accepted(h, ms) && fileName == "openopps-data-" + archiveSha256 + ".tar.gz"
    ensures r.Some? ==> r.value == IdentityOf(h, ms)
  {
    var streamed := InspectStream(h, ms);
    if streamed.None? { return None; }
    var scan := streamed.value;
    if !(METADATA_NAMES <= scan.retained.Keys) { return None; }
    var text := h.text(scan.retained[SUMS]);
    if text.None? { return None; }
    var closes := CheckSums(SplitLines("", text.value), scan);
    if !closes { return None; }
    var manifest := h.manifest(scan.retained[MANIFEST]);
    if manifest.None? || !ManifestHeaderOk(manifest.value) { return None; }
    var m := manifest.value;
    var lines := ReadLines(m.files);
    if lines.None? || lines.value != AssetsOf(scan) { return None; }
    if m.fileCount != |m.files| || m.totalBytes != TotalBytes(m.files) { return None; }
    var provenance := h.provenance(scan.retained[PROVENANCE]);
    if provenance.None? || !ProvenanceOk(h, provenance.value, m, scan) { return None; }
    var sbom := h.sbom(scan.retained[SBOM]);
    if sbom.None? { return None; }
    var described := CheckSbom(sbom.value, m);
    if !described || fileName != "openopps-data-" + archiveSha256 + ".tar.gz" { return None; }
    return Some(Identity(provenance.value.sourceRevision, m.currentReleaseId, m.previousReleaseId, m.stageRootDigest));
  }

  // ---- Extraction ----

  function Relative(m: Member): Path { Parts(m.name)[1..] }

  /** The tree extraction writes: every asset member at its name without `assets/`. */
  function AssetTree(ms: seq<Member>): map<Path, Bytes> {
    if ms == [] then map[]
    else
      var m := ms[|ms| - 1];
      var before := AssetTree(ms[..|ms| - 1]);
      if IsAsset(m.name) then before[Relative(m) := m.content] else before
  }

  /** No asset sits below a path that another asset uses as a file. */
  ghost predicate Nestable(ms: seq<Member>) {
    forall a, b | a in ms && b in ms && IsAsset(a.name) && IsAsset(b.name) :: !(Relative(a) < Relative(b))
  }

  /** Whether `mkdir(parents=True)` then an exclusive open succeeds in a tree of files. */
  predicate Free(tree: map<Path, Bytes>, path: Path) {
    forall p | p in tree :: p != path && !(p < path) && !(path < p)
  }

  lemma {:induction false} TreeHolds(ms: seq<Member>)
    ensures AssetTree(ms).Keys == set m | m in ms && IsAsset(m.name) :: Relative(m)
  {
    if ms != [] {
      var before, last := ms[..|ms| - 1], ms[|ms| - 1];
      assert ms == before + [last];
      TreeHolds(before);
    }
  }

  lemma AssetParts(h: Host, m: Member)
    requires MemberOk(h, m) && IsAsset(m.name)
    ensures |Parts(m.name)| >= 2 && Parts(m.name)[0] == "assets" && Relative(m) != []
  {
    Text.SplitAtSeparator('/', "assets", m.name[7..]);
    assert m.name == "assets" + ['/'] + m.name[7..];
  }

  lemma SameRelativeSameName(h: Host, a: Member, b: Member)
    requires MemberOk(h, a) && MemberOk(h, b) && IsAsset(a.name) && IsAsset(b.name)
    requires Relative(a) == Relative(b)
    ensures a.name == b.name
  {
    AssetParts(h, a);
    AssetParts(h, b);
    assert Parts(a.name) == ["assets"] + Relative(a) && Parts(b.name) == ["assets"] + Relative(b);
    Text.JoinUndoesSplit('/', a.name);
    Text.JoinUndoesSplit('/', b.name);
  }

  lemma NewAsset(h: Host, before: seq<Member>, m: Member, o: Member)
    requires EachMemberOk(h, before + [m]) && Ordered(before + [m])
    requires o in before && IsAsset(o.name) && IsAsset(m.name)
    ensures Relative(o) != Relative(m)
  {
    var more := before + [m];
    var j :| 0 <= j < |before| && before[j] == o;
    assert StrictlyBefore(more[j].name, more[|before|].name);
    EachOneMore(h, before, m);
    if Relative(o) == Relative(m) { SameRelativeSameName(h, o, m); }
  }

  lemma NestableOneMore(h: Host, before: seq<Member>, m: Member)
    requires EachMemberOk(h, before + [m]) && Ordered(before + [m])
    ensures !IsAsset(m.name) ==> (Nestable(before + [m]) <==> Nestable(before))
    ensures IsAsset(m.name) ==>
      (Nestable(before + [m]) <==> Nestable(before) && Free(AssetTree(before), Relative(m)))
  {
    TreeHolds(before);
    assert m in before + [m];
    assert forall o | o in before :: o in before + [m];
    if IsAsset(m.name) {
      forall o | o in before && IsAsset(o.name) ensures Relative(o) != Relative(m) {
        NewAsset(h, before, m, o);
      }
      NestableApart(before, m);
    }
  }

  lemma NestableApart(before: seq<Member>, m: Member)
    requires IsAsset(m.name)
    requires forall o | o in before && IsAsset(o.name) :: Relative(o) != Relative(m)
    ensures Nestable(before + [m]) <==> Nestable(before) && Free(AssetTree(before), Relative(m))
  {
    TreeHolds(before);
    var more := before + [m];
    assert m in more && forall o | o in before :: o in more;
    if Nestable(before) && Free(AssetTree(before), Relative(m)) {
      forall a, b | a in more && b in more && IsAsset(a.name) && IsAsset(b.name) ensures !(Relative(a) < Relative(b)) {
        if a in before { assert Relative(a) in AssetTree(before); }
        if b in before { assert Relative(b) in AssetTree(before); }
      }
    }
    if Nestable(more) {
      forall p | p in AssetTree(before) ensures p != Relative(m) && !(p < Relative(m)) && !(Relative(m) < p) {
        var o :| o in before && IsAsset(o.name) && Relative(o) == p;
      }
    }
  }

  /** The variables of the extraction loop. */
  datatype Extraction = Extraction(candidate: map<Path, Bytes>, seen: set<string>, total: int)

  /** One iteration; None when it raises. */
  function ExtractStep(h: Host, st: Extraction, m: Member, number: nat): Option<Extraction> {
    var folded := h.casefold(m.name);
    if number > MAX_ARCHIVE_MEMBERS || !MemberOk(h, m) || folded in st.seen then None
    else if st.total + m.size > MAX_ARCHIVE_UNCOMPRESSED_BYTES then None
    else if !IsAsset(m.name) then Some(Extraction(st.candidate, st.seen + {folded}, st.total + m.size))
    else if !Free(st.candidate, Relative(m)) || |m.content| != m.size then None
    else Some(Extraction(st.candidate[Relative(m) := m.content], st.seen + {folded}, st.total + m.size))
  }

  function ExtractRun(h: Host, ms: seq<Member>): Option<Extraction> {
    if ms == [] then Some(Extraction(map[], {}, 0))
    else
      match ExtractRun(h, ms[..|ms| - 1])
      case None => None
      case Some(st) => ExtractStep(h, st, ms[|ms| - 1], |ms|)
  }

  ghost function Extracted(h: Host, ms: seq<Member>): Extraction {
    Extraction(AssetTree(ms), FoldedNames(h, ms), TotalSize(ms))
  }

  lemma ExtractStepDecides(h: Host, before: seq<Member>, m: Member, number: nat)
    requires number <= MAX_ARCHIVE_MEMBERS && MemberOk(h, m) && |m.content| == m.size
    requires h.casefold(m.name) !in FoldedNames(h, before)
    requires TotalSize(before) + m.size <= MAX_ARCHIVE_UNCOMPRESSED_BYTES
    ensures var next := ExtractStep(h, Extracted(h, before), m, number);
      (next.Some? <==> !IsAsset(m.name) || Free(AssetTree(before), Relative(m))) &&
      (next.Some? ==> next.value == Extracted(h, before + [m]))
  {
    hide MemberOk, IsAsset, Relative, Free, FoldedNames;
    var more := before + [m];
    assert more[..|more| - 1] == before && more[|more| - 1] == m;
    FoldedOneMore(h, before, m);
  }

  lemma StreamStep(h: Host, before: seq<Member>, m: Member)
    requires StreamOk(h, before + [m])
    ensures |before| + 1 <= MAX_ARCHIVE_MEMBERS && MemberOk(h, m) && |m.content| == m.size
    ensures h.casefold(m.name) !in FoldedNames(h, before)
    ensures TotalSize(before) + m.size <= MAX_ARCHIVE_UNCOMPRESSED_BYTES
  {
    hide MemberOk;
    EachOneMore(h, before, m);
    CaseOneMore(h, before, m);
    assert (before + [m])[..|before|] == before;
  }

  /** On a stream the inspector passed, extraction fails only on nested files, and otherwise writes
      exactly the asset tree. */
  lemma {:induction false} ExtractDecides(h: Host, ms: seq<Member>)
    ensures StreamOk(h, ms) ==> (ExtractRun(h, ms).Some? <==> Nestable(ms))
    ensures StreamOk(h, ms) && Nestable(ms) ==> ExtractRun(h, ms) == Some(Extracted(h, ms))
  {
    hide MemberOk, IsAsset;
    assert FoldedNames(h, []) == {};
    if ms != [] && StreamOk(h, ms) {
      var before, m := ms[..|ms| - 1], ms[|ms| - 1];
      assert ms == before + [m];
      PrefixOk(h, before, m);
      ExtractDecides(h, before);
      NestableOneMore(h, before, m);
      StreamStep(h, before, m);
      ExtractStepDecides(h, before, m, |before| + 1);
    }
  }

  lemma {:induction false} ExtractStaysRaised(h: Host, ms: seq<Member>, i: nat)
    requires i <= |ms| && ExtractRun(h, ms[..i]).None?
    ensures ExtractRun(h, ms).None?
  {
    if i == |ms| {
      assert ms[..i] == ms;
    } else {
      assert ms[..|ms| - 1][..i] == ms[..i];
      ExtractStaysRaised(h, ms[..|ms| - 1], i);
    }
  }

  /** `_extract_archive_assets`. */
  method ExtractAssets(h: Host, ms: seq<Member>) returns (r: Option<map<Path, Bytes>>)
    ensures StreamOk(h, ms) ==> (r.Some? <==> Nestable(ms))
    ensures StreamOk(h, ms) && r.Some? ==> r.value == AssetTree(ms)
  {
    hide MemberOk, IsAsset, StreamOk;
    var state := Extraction(map[], {}, 0);
    var i := 0;
    while i < |ms|
      invariant 0 <= i <= |ms|
      invariant ExtractRun(h, ms[..i]) == Some(state)
    {
      assert ms[..i + 1][..i] == ms[..i];
      var next := ExtractStep(h, state, ms[i], i + 1);
      i := i + 1;
      if next.None? {
        ExtractStaysRaised(h, ms, i);
        ExtractDecides(h, ms);
        return None;
      }
      state := next.value;
    }
    assert ms[..i] == ms;
    ExtractDecides(h, ms);
    return Some(state.candidate);
  }

  // ---- What the restored directory holds ----

  lemma LastNameIsNew(before: seq<Member>, m: Member)
    requires Ordered(before + [m])
    ensures forall o | o in before :: o.name != m.name
  {
    var more := before + [m];
    forall o | o in before ensures o.name != m.name {
      var i :| 0 <= i < |before| && before[i] == o;
      assert StrictlyBefore(more[i].name, more[|before|].name);
    }
  }

  ghost predicate Lists(h: Host, scan: Scan, ms: seq<Member>) {
    && scan.digests.Keys == scan.sizes.Keys == scan.retained.Keys
    && scan.digests.Keys == (set m | m in ms :: m.name)
    && forall m | m in ms ::
         m.name in scan.digests && scan.digests[m.name] == h.sha(m.content) && scan.sizes[m.name] == m.size &&
         (IsMetadata(m.name) ==> scan.retained[m.name] == m.content)
  }

  lemma ListsNothing(h: Host)
    ensures Lists(h, ScanOf(h, []), [])
  {
  }

  lemma ListsOneMore(h: Host, scan: Scan, before: seq<Member>, m: Member)
    requires Lists(h, scan, before) && forall o | o in before :: o.name != m.name
    ensures Lists(h, Scan(scan.retained[m.name := if IsMetadata(m.name) then m.content else []],
                          scan.digests[m.name := h.sha(m.content)], scan.sizes[m.name := m.size]), before + [m])
  {
    hide IsMetadata;
  }

  lemma {:induction false} ScanLists(h: Host, ms: seq<Member>)
    requires Ordered(ms)
    ensures Lists(h, ScanOf(h, ms), ms)
  {
    hide StrictlyBefore, IsMetadata, Lists;
    if ms != [] {
      var before, m := ms[..|ms| - 1], ms[|ms| - 1];
      assert ms == before + [m];
      OrderedOneMore(before, m);
      LastNameIsNew(before, m);
      ScanLists(h, before);
      ListsOneMore(h, ScanOf(h, before), before, m);
    } else {
      ListsNothing(h);
    }
  }

  lemma {:induction false} TreeContents(h: Host, ms: seq<Member>)
    requires EachMemberOk(h, ms) && Ordered(ms)
    ensures forall m | m in ms && IsAsset(m.name) ::
      Relative(m) in AssetTree(ms) && AssetTree(ms)[Relative(m)] == m.content
  {
    hide MemberOk, IsAsset, StrictlyBefore, Relative;
    if ms != [] {
      var before, m := ms[..|ms| - 1], ms[|ms| - 1];
      assert ms == before + [m];
      OrderedOneMore(before, m);
      EachOneMore(h, before, m);
      TreeContents(h, before);
      if IsAsset(m.name) {
        forall o | o in before && IsAsset(o.name) ensures Relative(o) != Relative(m) {
          NewAsset(h, before, m, o);
        }
      }
    }
  }

  /** A directory holds exactly the files of the manifest, with those sizes and digests. */
  ghost predicate HoldsExactly(h: Host, tree: map<Path, Bytes>, files: seq<FileLine>) {
    && tree.Keys == (set l | l in files :: Parts(l.path)[1..])
    && forall l | l in files :: |tree[Parts(l.path)[1..]]| == l.bytes && h.sha(tree[Parts(l.path)[1..]]) == l.sha256
  }

  lemma MemberOfLine(h: Host, ms: seq<Member>, l: FileLine) returns (m: Member)
    requires Ordered(ms) && EachMemberOk(h, ms)
    requires l.path in AssetsOf(ScanOf(h, ms)) && AssetsOf(ScanOf(h, ms))[l.path] == (l.bytes, l.sha256)
    ensures m in ms && IsAsset(m.name) && m.name == l.path && |m.content| == l.bytes && h.sha(m.content) == l.sha256
  {
    ScanLists(h, ms);
    m :| m in ms && m.name == l.path;
    var i :| 0 <= i < |ms| && ms[i] == m;
    assert MemberOk(h, ms[i]) && |ms[i].content| == ms[i].size;
  }

  /** The manifest of an accepted archive lists exactly what extraction writes. */
  lemma ManifestListsTree(h: Host, ms: seq<Member>, files: seq<FileLine>)
    requires EachMemberOk(h, ms) && Ordered(ms)
    requires LinesOk(files) && LinesMap(files) == AssetsOf(ScanOf(h, ms))
    ensures HoldsExactly(h, AssetTree(ms), files)
  {
    hide MemberOk, IsAsset, StrictlyBefore, LineOk;
    TreeHolds(ms);
    TreeContents(h, ms);
    ScanLists(h, ms);
    LinesMapLists(files);
    forall l | l in files
      ensures Parts(l.path)[1..] in AssetTree(ms)
      ensures var c := AssetTree(ms)[Parts(l.path)[1..]]; |c| == l.bytes && h.sha(c) == l.sha256
    {
      var m := MemberOfLine(h, ms, l);
      assert Relative(m) == Parts(l.path)[1..];
    }
    forall p | p in AssetTree(ms) ensures exists l | l in files :: Parts(l.path)[1..] == p {
      var m :| m in ms && IsAsset(m.name) && Relative(m) == p;
      assert m.name in AssetsOf(ScanOf(h, ms));
      assert m.name in LinesMap(files);
      var l :| l in files && l.path == m.name;
    }
  }

  /** Every path of the tree leads from the new directory to itself, and so to nothing outside. */
  lemma TreeStaysInside(h: Host, ms: seq<Member>)
    requires EachMemberOk(h, ms)
    ensures forall p | p in AssetTree(ms) :: p != [] && Text.Straight(p)
  {
    hide MemberOk, IsAsset, Text.Straight;
    TreeHolds(ms);
    forall p | p in AssetTree(ms) ensures p != [] && Text.Straight(p) {
      var m :| m in ms && IsAsset(m.name) && Relative(m) == p;
      var i :| 0 <= i < |ms| && ms[i] == m;
      assert MemberOk(h, ms[i]);
      AssetIsStraight(h, m);
    }
  }

  lemma AssetIsStraight(h: Host, m: Member)
    requires MemberOk(h, m) && IsAsset(m.name)
    ensures Relative(m) != [] && Text.Straight(Relative(m))
  {
    hide Text.Straight;
    var parts := Parts(m.name);
    AssetParts(h, m);
    PartsMean(h, parts);
    assert forall i | 0 <= i < |parts[1..]| :: parts[1..][i] == parts[i + 1];
    Text.StraightIsPlain(parts[1..]);
  }

  datatype Expected = Expected(archiveSha256: string, identity: Identity)

  predicate ExpectedOk(e: Expected) {
    && HexDigits(e.archiveSha256, 64) && HexDigits(e.identity.stageRootDigest, 64)
    && HexDigits(e.identity.sourceRevision, 40)
    && HexDigits(e.identity.currentReleaseId, 64) && HexDigits(e.identity.previousReleaseId, 64)
    && e.identity.currentReleaseId != e.identity.previousReleaseId
  }

  predicate StageMatches(h: Host, tree: map<Path, Bytes>, identity: Identity) {
    && !h.stageErrors(tree)
    && h.stageDigest(tree) == identity.stageRootDigest
    && h.stageReleases(tree) == (identity.currentReleaseId, identity.previousReleaseId)
  }

  /** `restore_recovery_archive`: returns the content of the new directory, or raises (None) and
      leaves no directory.  `archiveSha256` is the digest of the archive's own bytes. */
  method RestoreRecoveryArchive(h: Host, ms: seq<Member>, fileName: string, archiveSha256: string, e: Expected)
    returns (r: Option<map<Path, Bytes>>)
    ensures r.Some? <==>
      && ExpectedOk(e) && archiveSha256 == e.archiveSha256
      && Accepted(h, ms) && fileName == "openopps-data-" + archiveSha256 + ".tar.gz"
      && IdentityOf(h, ms) == e.identity
      && Nestable(ms) && StageMatches(h, AssetTree(ms), e.identity)
    ensures r.Some? ==> r.value == AssetTree(ms)
    ensures r.Some? ==> forall p | p in r.value :: p != [] && Text.Straight(p)
    ensures r.Some? ==>
      && !h.stageErrors(r.value) && h.stageDigest(r.value) == e.identity.stageRootDigest
      && h.stageReleases(r.value) == (e.identity.currentReleaseId, e.identity.previousReleaseId)
    ensures r.Some? ==> HoldsExactly(h, r.value, ManifestOf(h, ms).files)
    ensures r.Some? ==> Ordered(ms) && CaseDistinct(h, ms)
    ensures r.Some? ==> SbomOk(h.sbom(ScanOf(h, ms).retained[SBOM]).value, ManifestOf(h, ms))
    ensures r.Some? ==> SumsClose(SplitLines("", h.text(ScanOf(h, ms).retained[SUMS]).value), ScanOf(h, ms))
  {
    hide MemberOk, IsAsset, StrictlyBefore, LineOk, HexDigits, SumsClose, ProvenanceOk, SbomOk;
    if !ExpectedOk(e) || archiveSha256 != e.archiveSha256 { return None; }
    var identity := InspectArchive(h, ms, fileName, archiveSha256);
    if identity.None? || identity.value != e.identity { return None; }
    var candidate := ExtractAssets(h, ms);
    if candidate.None? || !StageMatches(h, candidate.value, e.identity) { return None; }
    ManifestListsTree(h, ms, ManifestOf(h, ms).files);
    TreeStaysInside(h, ms);
    return candidate;
  }
}
