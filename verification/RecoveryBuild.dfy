/** Building a recovery archive, and when the inspector takes it back
    (scripts/docs_search_delivery.py, `build_recovery_archive`). */
module RecoveryBuild {
  import opened Orders
  import opened Wrappers
  import opened RecoveryArchive
  import opened RecoveryRestore
  import PathOrders
  import Text

  /** The host's writers. */
  datatype Encoder = Encoder(text: string -> Bytes, manifest: BundleManifest -> Bytes,
    provenance: Provenance -> Bytes, sbom: Sbom -> Bytes)

  /** A stage: its files, listed once each in any order. */
  datatype Stage = Stage(files: seq<Path>, content: map<Path, Bytes>)

  predicate StageListed(s: Stage) {
    && (forall p | p in s.files :: p in s.content)
    && (forall p | p in s.content :: p in s.files)
    && (forall i, j | 0 <= i < j < |s.files| :: s.files[i] != s.files[j])
  }

  function AssetName(p: Path): string { "assets/" + PathOrders.Name(p) }

  function SortedFiles(s: Stage): seq<Path> { Sort(PathLeq, s.files) }

  function LineOf(h: Host, s: Stage, p: Path): FileLine {
    if p in s.content then FileLine(AssetName(p), |s.content[p]|, h.sha(s.content[p])) else FileLine("", 0, "")
  }

  /** The manifest's file list, in `sorted(files)` order: component by component. */
  function ManifestLines(h: Host, s: Stage): seq<FileLine> {
    var sorted := SortedFiles(s);
    seq(|sorted|, i requires 0 <= i < |sorted| => LineOf(h, s, sorted[i]))
  }

  function ManifestFor(h: Host, s: Stage): BundleManifest {
    var lines := ManifestLines(h, s);
    var (current, previous) := h.stageReleases(s.content);
    BundleManifest(DELIVERY_SCHEMA_VERSION, current, previous, h.stageDigest(s.content), |lines|, TotalBytes(lines),
      lines)
  }

  function SbomFor(h: Host, s: Stage): Sbom {
    var lines := ManifestLines(h, s);
    Sbom(h.stageDigest(s.content),
      seq(|lines|, i requires 0 <= i < |lines| => SbomFile(i + 1, lines[i].path, lines[i].sha256)))
  }

  const CHANNEL_PATH: Path := ["channels", "production.json"]
  const HEADERS_PATH: Path := ["_headers"]

  function ProvenanceFor(h: Host, s: Stage, revision: string): Provenance
    requires CHANNEL_PATH in s.content && HEADERS_PATH in s.content
  {
    var (current, previous) := h.stageReleases(s.content);
    Provenance(DELIVERY_SCHEMA_VERSION, true, revision, current, previous, h.stageDigest(s.content), h.wranglerVersion,
      map[ChannelPointer := h.sha(s.content[CHANNEL_PATH]), Headers := h.sha(s.content[HEADERS_PATH])] + h.tools)
  }

  predicate Buildable(s: Stage) {
    StageListed(s) && CHANNEL_PATH in s.content && HEADERS_PATH in s.content
  }

  function AssetNames(s: Stage): seq<string> {
    seq(|s.files|, i requires 0 <= i < |s.files| => AssetName(s.files[i]))
  }

  function SummedNames(s: Stage): seq<string> { AssetNames(s) + [MANIFEST, SBOM, PROVENANCE] }

  function MemberNames(s: Stage): seq<string> { SummedNames(s) + [SUMS] }

  /** The bytes of each member except SHA256SUMS. */
  function Content(h: Host, enc: Encoder, s: Stage, revision: string, name: string): Bytes
    requires Buildable(s)
  {
    if name == MANIFEST then enc.manifest(ManifestFor(h, s))
    else if name == SBOM then enc.sbom(SbomFor(h, s))
    else if name == PROVENANCE then enc.provenance(ProvenanceFor(h, s, revision))
    else if Parts(name)[1..] in s.content then s.content[Parts(name)[1..]]
    else []
  }

  function SumLine(h: Host, enc: Encoder, s: Stage, revision: string, name: string): string
    requires Buildable(s)
  {
    h.sha(Content(h, enc, s, revision, name)) + "  " + name
  }

  /** One line per member, in name order. */
  function SumLines(h: Host, enc: Encoder, s: Stage, revision: string): seq<string>
    requires Buildable(s)
  {
    var names := Sort(StringLeq, SummedNames(s));
    seq(|names|, i requires 0 <= i < |names| => SumLine(h, enc, s, revision, names[i]))
  }

  function SumsText(h: Host, enc: Encoder, s: Stage, revision: string): string
    requires Buildable(s)
  {
    Text.Join('\n', SumLines(h, enc, s, revision)) + "\n"
  }

  /** The inspector's strict decoders undo the writers on the documents of this stage. */
  predicate RoundTrips(h: Host, enc: Encoder, s: Stage, revision: string)
    requires Buildable(s)
  {
    && h.text(enc.text(SumsText(h, enc, s, revision))) == Some(SumsText(h, enc, s, revision))
    && h.manifest(enc.manifest(ManifestFor(h, s))) == Some(ManifestFor(h, s))
    && h.provenance(enc.provenance(ProvenanceFor(h, s, revision))) == Some(ProvenanceFor(h, s, revision))
    && h.sbom(enc.sbom(SbomFor(h, s))) == Some(SbomFor(h, s))
  }

  function MemberFor(h: Host, enc: Encoder, s: Stage, revision: string, name: string): Member
    requires Buildable(s)
  {
    var content := if name == SUMS then enc.text(SumsText(h, enc, s, revision)) else Content(h, enc, s, revision, name);
    Member(name, true, true, |content|, content)
  }

  /** The archive's members, in name order: by string. */
  function Built(h: Host, enc: Encoder, s: Stage, revision: string): seq<Member>
    requires Buildable(s)
  {
    var names := Sort(StringLeq, MemberNames(s));
    seq(|names|, i requires 0 <= i < |names| => MemberFor(h, enc, s, revision, names[i]))
  }

  /** `build_recovery_archive`, up to compression and the content-addressed rename. */
  method BuildRecoveryArchive(h: Host, enc: Encoder, s: Stage, createdAtIsCanonical: bool, revision: string)
    returns (r: Option<seq<Member>>)
    requires StageListed(s)
    requires !h.stageErrors(s.content) ==> CHANNEL_PATH in s.content && HEADERS_PATH in s.content
    ensures r.Some? <==>
      && !h.stageErrors(s.content) && HexDigits(revision, 40) && createdAtIsCanonical
      && HexDigits(h.stageReleases(s.content).0, 64) && HexDigits(h.stageReleases(s.content).1, 64)
      && |enc.sbom(SbomFor(h, s))| <= MAX_ATTESTATION_PREDICATE_BYTES
      && |enc.manifest(ManifestFor(h, s))| <= MAX_ARCHIVE_METADATA_BYTES
      && |enc.provenance(ProvenanceFor(h, s, revision))| <= MAX_ARCHIVE_METADATA_BYTES
    ensures r.Some? ==> r.value == Built(h, enc, s, revision)
  {
    hide HexDigits, SbomFor, ManifestFor, ProvenanceFor, MemberFor, MemberNames, StageListed;
    if h.stageErrors(s.content) || !HexDigits(revision, 40) || !createdAtIsCanonical { return None; }
    var (current, previous) := h.stageReleases(s.content);
    if !HexDigits(current, 64) || !HexDigits(previous, 64) { return None; }
    if |enc.sbom(SbomFor(h, s))| > MAX_ATTESTATION_PREDICATE_BYTES { return None; }
    if |enc.manifest(ManifestFor(h, s))| > MAX_ARCHIVE_METADATA_BYTES ||
       |enc.provenance(ProvenanceFor(h, s, revision))| > MAX_ARCHIVE_METADATA_BYTES { return None; }
    var names := Sort(StringLeq, MemberNames(s));
    var archive: seq<Member> := [];
    var i := 0;
    while i < |names|
      invariant 0 <= i <= |names|
      invariant archive == Built(h, enc, s, revision)[..i]
    {
      archive := archive + [MemberFor(h, enc, s, revision, names[i])];
      i := i + 1;
    }
    return Some(archive);
  }

  // ---- Valid stages ----

  predicate PortablePath(p: Path) {
    p != [] && forall i | 0 <= i < |p| :: Text.PortablePart(p[i])
  }

  predicate Ascii(s: string) { forall i | 0 <= i < |s| :: s[i] < '\U{80}' }

  /** What is used of the host: ASCII text folds and encodes as itself, digests are 64 hex digits,
      and the tool digests are those of the five pinned materials. */
  ghost predicate Ordinary(h: Host) {
    && (forall s | Ascii(s) :: h.casefold(s) == Text.Lower(s) && h.utf8Length(s) == |s|)
    && (forall b :: HexDigits(h.sha(b), 64))
    && h.tools.Keys == TOOLS
    && (forall name | name in h.tools :: HexDigits(h.tools[name], 64))
  }

  /** A stage `verify_stage` passes: portable names, none a folder of another, none equal to another
      up to case, the control files present, and two distinct release identities. */
  ghost predicate ValidStage(h: Host, s: Stage) {
    && Buildable(s)
    && (forall p | p in s.files :: PortablePath(p))
    && (forall p, q | p in s.files && q in s.files :: !(p < q))
    && (forall p, q | p in s.files && q in s.files ::
      Text.Lower(PathOrders.Name(p)) == Text.Lower(PathOrders.Name(q)) ==> p == q)
    && HexDigits(h.stageReleases(s.content).0, 64) && HexDigits(h.stageReleases(s.content).1, 64)
    && h.stageReleases(s.content).0 != h.stageReleases(s.content).1
    && HexDigits(h.stageDigest(s.content), 64)
  }

  /** The inspector's budgets on what is built. */
  ghost predicate WithinBudgets(h: Host, enc: Encoder, s: Stage, revision: string)
    requires Buildable(s)
  {
    var ms := Built(h, enc, s, revision);
    && |ms| <= MAX_ARCHIVE_MEMBERS
    && TotalSize(ms) <= MAX_ARCHIVE_UNCOMPRESSED_BYTES
    && (forall i | 0 <= i < |ms| :: ms[i].size <= SizeLimit(ms[i].name) && |ms[i].name| <= 4096)
    && (forall p, k | p in s.files && 0 <= k < |p| :: |p[k]| <= 255)
  }

  // ---- Names ----

  lemma PortableIsWellFormed(p: Path)
    requires PortablePath(p)
    ensures PathOrders.WellFormed(p)
  {
  }

  lemma AssetNameParts(p: Path)
    requires PortablePath(p)
    ensures Parts(AssetName(p)) == ["assets"] + p && IsAsset(AssetName(p))
  {
    PortableIsWellFormed(p);
    Text.SplitUndoesJoin('/', p);
    assert AssetName(p) == "assets" + ['/'] + PathOrders.Name(p);
    Text.SplitAtSeparator('/', "assets", PathOrders.Name(p));
  }

  lemma MetadataIsNoAsset(name: string)
    requires IsMetadata(name)
    ensures !IsAsset(name) && name != "" && name[0] != 'a'
    ensures Parts(name) == [name]
  {
    assert SUMS[0] == 'S' && MANIFEST[0] == 'b' && SBOM[0] == 's' && PROVENANCE[0] == 'p';
    assert "assets/"[0] == 'a';
    assert '/' !in SUMS && '/' !in MANIFEST && '/' !in SBOM && '/' !in PROVENANCE;
    Text.SplitWithoutSeparator('/', name);
  }

  lemma AssetNamesDiffer(p: Path, q: Path)
    requires PortablePath(p) && PortablePath(q) && AssetName(p) == AssetName(q)
    ensures p == q
  {
    AssetNameParts(p);
    AssetNameParts(q);
    assert p == (["assets"] + p)[1..] && q == (["assets"] + q)[1..];
  }

  lemma NamesInSorted(names: seq<string>)
    ensures Ascending(StringLeq, Sort(StringLeq, names))
    ensures |Sort(StringLeq, names)| == |names|
    ensures forall n :: n in Sort(StringLeq, names) <==> n in names
  {
    StringOrder();
    SortSorts(StringLeq, names);
    assert forall n :: n in Sort(StringLeq, names) <==> n in multiset(Sort(StringLeq, names));
    assert forall n :: n in names <==> n in multiset(names);
  }

  lemma MetadataNamesDiffer()
    ensures MANIFEST != SBOM && MANIFEST != PROVENANCE && MANIFEST != SUMS
    ensures SBOM != PROVENANCE && SBOM != SUMS && PROVENANCE != SUMS
  {
    assert |MANIFEST| == 20 && |SBOM| == 14 && |PROVENANCE| == 15 && |SUMS| == 10;
  }

  lemma AssetDiffers(h: Host, s: Stage, i: nat, j: nat)
    requires ValidStage(h, s) && i < |s.files| && i < j < |MemberNames(s)|
    ensures MemberNames(s)[i] != MemberNames(s)[j]
  {
    hide HexDigits, AssetName, PortablePath;
    var names := MemberNames(s);
    assert names[i] == AssetName(s.files[i]) && s.files[i] in s.files;
    AssetNameParts(s.files[i]);
    if j < |s.files| {
      assert names[j] == AssetName(s.files[j]) && s.files[j] in s.files;
      if names[i] == names[j] { AssetNamesDiffer(s.files[i], s.files[j]); }
    } else {
      MetadataIsNoAsset(names[j]);
    }
  }

  lemma MemberNamesDiffer(h: Host, s: Stage)
    requires ValidStage(h, s)
    ensures NoRepeats(MemberNames(s)) && NoRepeats(SummedNames(s))
  {
    hide ValidStage, AssetName, MANIFEST, SBOM, PROVENANCE, SUMS;
    var names := MemberNames(s);
    MetadataNamesDiffer();
    forall i, j | 0 <= i < j < |names| ensures names[i] != names[j] {
      if i < |s.files| { AssetDiffers(h, s, i, j); }
    }
    assert SummedNames(s) == names[..|names| - 1];
  }

  // ---- The built stream ----

  lemma AsciiText(h: Host, s: string)
    requires Ordinary(h) && Ascii(s)
    ensures h.casefold(s) == Text.Lower(s) && h.utf8Length(s) == |s|
  {
  }

  ghost predicate PortableParts(p: Path) {
    forall i | 0 <= i < |p| :: Text.PortablePart(p[i]) && |p[i]| <= 255
  }

  lemma {:induction false} PartsAreOk(h: Host, p: Path)
    requires Ordinary(h) && PortableParts(p)
    ensures PartsOk(h, p)
  {
    hide Ordinary;
    if p != [] {
      PartIsOk(h, p[0]);
      assert forall i | 0 <= i < |p[1..]| :: p[1..][i] == p[i + 1];
      PartsAreOk(h, p[1..]);
    }
  }

  lemma PartIsOk(h: Host, part: string)
    requires Ordinary(h) && Text.PortablePart(part) && |part| <= 255
    ensures part !in {"", ".", ".."} && h.utf8Length(part) <= 255
  {
    hide Ordinary;
    AsciiText(h, part);
  }

  lemma {:induction false} PortableNameIsAscii(p: Path)
    requires forall i | 0 <= i < |p| :: Text.PortablePart(p[i])
    ensures Ascii(PathOrders.Name(p))
    ensures forall i | 0 <= i < |PathOrders.Name(p)| ::
      Text.PortableChar(PathOrders.Name(p)[i]) || PathOrders.Name(p)[i] == '/'
  {
    if |p| > 1 {
      assert forall i | 0 <= i < |p[1..]| :: p[1..][i] == p[i + 1];
      PortableNameIsAscii(p[1..]);
    }
  }

  predicate Plain(s: string) { forall i | 0 <= i < |s| :: Text.PortableChar(s[i]) || s[i] == '/' }

  lemma PlainIsAscii(s: string)
    requires Plain(s)
    ensures Ascii(s)
  {
  }

  lemma AssetNameIsPlain(p: Path)
    requires PortablePath(p)
    ensures Plain(AssetName(p))
  {
    PortableNameIsAscii(p);
    assert Plain("assets/");
  }

  lemma AssetNameIsAscii(p: Path)
    requires PortablePath(p)
    ensures Ascii(AssetName(p))
  {
    hide PortablePath, AssetName;
    AssetNameIsPlain(p);
    PlainIsAscii(AssetName(p));
  }

  lemma SumsIsPlain()
    ensures Plain(SUMS) && |SUMS| <= 255
  {
  }

  lemma ManifestIsPlain()
    ensures Plain(MANIFEST) && |MANIFEST| <= 255
  {
  }

  lemma SbomIsPlain()
    ensures Plain(SBOM) && |SBOM| <= 255
  {
  }

  lemma ProvenanceIsPlain()
    ensures Plain(PROVENANCE) && |PROVENANCE| <= 255
  {
  }

  lemma MetadataIsPlain(name: string)
    requires IsMetadata(name)
    ensures Plain(name) && |name| <= 255
  {
    hide Plain, SUMS, MANIFEST, SBOM, PROVENANCE;
    SumsIsPlain();
    ManifestIsPlain();
    SbomIsPlain();
    ProvenanceIsPlain();
  }

  lemma MetadataIsAscii(name: string)
    requires IsMetadata(name)
    ensures Ascii(name) && |name| <= 255
  {
    hide Plain, IsMetadata, Ascii;
    MetadataIsPlain(name);
    PlainIsAscii(name);
  }

  lemma AssetsPrefixPortable(p: Path)
    requires PortablePath(p) && (forall k | 0 <= k < |p| :: |p[k]| <= 255)
    ensures PortableParts(["assets"] + p)
  {
    assert Text.PortablePart("assets");
    var parts := ["assets"] + p;
    forall i | 0 <= i < |parts| ensures Text.PortablePart(parts[i]) && |parts[i]| <= 255 {
      if i > 0 { assert parts[i] == p[i - 1]; }
    }
  }

  lemma AssetMemberOk(h: Host, p: Path, m: Member)
    requires p != [] && Ordinary(h) && PortablePath(p) && (forall k | 0 <= k < |p| :: |p[k]| <= 255)
    requires m.name == AssetName(p) && m.regular && m.canonicalOwner
    requires |m.name| <= 4096 && 0 <= m.size <= SizeLimit(m.name)
    ensures MemberOk(h, m)
  {
    hide Ordinary, AssetName, SizeLimit, PartsOk, IsMetadata, PortablePath, Parts, PortableParts, Ascii, MemberOk;
    AssetNameParts(p);
    AssetNameIsAscii(p);
    AssetsPrefixPortable(p);
    AsciiText(h, m.name);
    PartsAreOk(h, ["assets"] + p);
    NamespacedMemberOk(h, p, m);
  }

  lemma NamespacedMemberOk(h: Host, p: Path, m: Member)
    requires Parts(m.name) == ["assets"] + p && PartsOk(h, Parts(m.name)) && p != []
    requires h.utf8Length(m.name) <= 4096 && m.regular && m.canonicalOwner && 0 <= m.size <= SizeLimit(m.name)
    ensures MemberOk(h, m)
  {
    hide Parts, PartsOk, SizeLimit, IsMetadata;
  }

  lemma MetadataMemberOk(h: Host, m: Member)
    requires Ordinary(h) && IsMetadata(m.name) && m.regular && m.canonicalOwner && 0 <= m.size <= SizeLimit(m.name)
    ensures MemberOk(h, m)
  {
    hide Ordinary, SizeLimit;
    MetadataIsNoAsset(m.name);
    MetadataIsAscii(m.name);
    AsciiText(h, m.name);
    MetadataPart(h, m.name);
  }

  lemma MetadataPart(h: Host, name: string)
    requires Ordinary(h) && IsMetadata(name)
    ensures PartsOk(h, [name])
  {
    hide Ordinary, Text.PortablePart, PartsOk;
    MetadataPortable(name);
    PartsAreOk(h, [name]);
  }

  lemma SumsPortable()
    ensures Text.PortablePart(SUMS) && |SUMS| <= 255
  {
  }

  lemma ManifestPortable()
    ensures Text.PortablePart(MANIFEST) && |MANIFEST| <= 255
  {
  }

  lemma SbomPortable()
    ensures Text.PortablePart(SBOM) && |SBOM| <= 255
  {
  }

  lemma ProvenancePortable()
    ensures Text.PortablePart(PROVENANCE) && |PROVENANCE| <= 255
  {
  }

  lemma MetadataPortable(name: string)
    requires IsMetadata(name)
    ensures Text.PortablePart(name) && |name| <= 255
  {
    hide Text.PortablePart, SUMS, MANIFEST, SBOM, PROVENANCE;
    SumsPortable();
    ManifestPortable();
    SbomPortable();
    ProvenancePortable();
  }

  lemma PortableIsSome(p: Path)
    requires PortablePath(p)
    ensures p != []
  {
  }

  lemma NameIsAssetOrMetadata(h: Host, s: Stage, name: string) returns (p: Path)
    requires ValidStage(h, s) && name in MemberNames(s)
    ensures IsMetadata(name) || (p != [] && p in s.files && PortablePath(p) && name == AssetName(p))
  {
    hide HexDigits, AssetName, PortablePath, MANIFEST, SBOM, PROVENANCE, SUMS, Text.Lower, PathOrders.Name;
    var i :| 0 <= i < |MemberNames(s)| && MemberNames(s)[i] == name;
    p := [];
    if i < |s.files| {
      p := s.files[i];
      assert p in s.files;
      PortableIsSome(p);
    }
  }

  lemma BudgetAt(h: Host, enc: Encoder, s: Stage, revision: string, i: nat)
    requires Buildable(s) && WithinBudgets(h, enc, s, revision) && i < |Built(h, enc, s, revision)|
    ensures var m := Built(h, enc, s, revision)[i];
      && m.regular && m.canonicalOwner && m.size == |m.content| && m.size <= SizeLimit(m.name) && |m.name| <= 4096
      && m.name in MemberNames(s)
    ensures forall p, k | p in s.files && 0 <= k < |p| :: |p[k]| <= 255
  {
    hide SizeLimit, Content;
    NamesInSorted(MemberNames(s));
    var names := Sort(StringLeq, MemberNames(s));
    assert names[i] in names;
  }

  lemma BuiltMembersOk(h: Host, enc: Encoder, s: Stage, revision: string, i: nat)
    requires Ordinary(h) && ValidStage(h, s) && WithinBudgets(h, enc, s, revision)
    requires i < |Built(h, enc, s, revision)|
    ensures var m := Built(h, enc, s, revision)[i]; MemberOk(h, m) && |m.content| == m.size
  {
    hide Ordinary, IsMetadata, SizeLimit, MemberOk, PortablePath, AssetName, WithinBudgets, Built, MemberNames,
      HexDigits;
    BudgetAt(h, enc, s, revision, i);
    var m := Built(h, enc, s, revision)[i];
    var p := NameIsAssetOrMetadata(h, s, m.name);
    if IsMetadata(m.name) {
      MetadataMemberOk(h, m);
    } else {
      AssetMemberOk(h, p, m);
    }
  }

  lemma LowerConcat(a: string, b: string)
    ensures Text.Lower(a + b) == Text.Lower(a) + Text.Lower(b)
  {
  }

  lemma AssetsFoldApart(p: Path, q: Path)
    requires PortablePath(p) && PortablePath(q) && Text.Lower(PathOrders.Name(p)) != Text.Lower(PathOrders.Name(q))
    ensures Text.Lower(AssetName(p)) != Text.Lower(AssetName(q))
  {
    LowerConcat("assets/", PathOrders.Name(p));
    LowerConcat("assets/", PathOrders.Name(q));
    var pre, x, y := Text.Lower("assets/"), Text.Lower(PathOrders.Name(p)), Text.Lower(PathOrders.Name(q));
    assert (pre + x)[|pre|..] == x && (pre + y)[|pre|..] == y;
  }

  lemma MetadataFoldsApart(a: string, b: string)
    requires IsMetadata(a) && IsMetadata(b) && a != b
    ensures Text.Lower(a) != Text.Lower(b)
  {
    assert Text.Lower(SUMS)[1] == 'h' && Text.Lower(MANIFEST)[1] == 'u' && Text.Lower(SBOM)[1] == 'b'
      && Text.Lower(PROVENANCE)[1] == 'r';
  }

  lemma FirstLetters(name: string, p: Path)
    requires IsMetadata(name) || (PortablePath(p) && name == AssetName(p))
    ensures Ascii(name) && name != "" && (Text.Lower(name)[0] == 'a' <==> !IsMetadata(name))
  {
    if IsMetadata(name) {
      MetadataIsNoAsset(name);
      MetadataIsAscii(name);
    } else {
      AssetNameIsAscii(p);
      assert "assets/"[0] == 'a';
    }
  }

  lemma FoldsApart(h: Host, s: Stage, a: string, b: string)
    requires Ordinary(h) && ValidStage(h, s) && a in MemberNames(s) && b in MemberNames(s) && a != b
    ensures h.casefold(a) != h.casefold(b)
  {
    hide Ordinary, IsMetadata, AssetName, PortablePath, MemberNames, HexDigits;
    var p := NameIsAssetOrMetadata(h, s, a);
    var q := NameIsAssetOrMetadata(h, s, b);
    FirstLetters(a, p);
    FirstLetters(b, q);
    AsciiText(h, a);
    AsciiText(h, b);
    if !IsMetadata(a) && !IsMetadata(b) {
      AssetsFoldApart(p, q);
    } else if IsMetadata(a) && IsMetadata(b) {
      MetadataFoldsApart(a, b);
    }
  }

  lemma BuiltNames(h: Host, enc: Encoder, s: Stage, revision: string)
    requires ValidStage(h, s)
    ensures var names, ms := Sort(StringLeq, MemberNames(s)), Built(h, enc, s, revision);
      && |ms| == |names| && NoRepeats(names) && Ascending(StringLeq, names)
      && forall i | 0 <= i < |ms| :: ms[i] == MemberFor(h, enc, s, revision, names[i]) && names[i] in MemberNames(s)
  {
    hide MemberNames, MemberFor;
    MemberNamesDiffer(h, s);
    StringOrder();
    SortKeepsNoRepeats(StringLeq, MemberNames(s));
    NamesInSorted(MemberNames(s));
    forall i | 0 <= i < |Sort(StringLeq, MemberNames(s))|
      ensures Sort(StringLeq, MemberNames(s))[i] in MemberNames(s) {}
  }

  lemma BuiltOrdered(h: Host, enc: Encoder, s: Stage, revision: string)
    requires Buildable(s) && Ordinary(h) && ValidStage(h, s)
    ensures Ordered(Built(h, enc, s, revision)) && CaseDistinct(h, Built(h, enc, s, revision))
  {
    hide Ordinary, MemberNames, Built, ValidStage, Content;
    var names, ms := Sort(StringLeq, MemberNames(s)), Built(h, enc, s, revision);
    BuiltNames(h, enc, s, revision);
    forall i, j | 0 <= i < j < |ms|
      ensures StrictlyBefore(ms[i].name, ms[j].name) && h.casefold(ms[i].name) != h.casefold(ms[j].name)
    {
      assert ms[i].name == names[i] && ms[j].name == names[j];
      FoldsApart(h, s, names[i], names[j]);
    }
  }

  /** Whatever is built from a valid stage within the budgets streams past the inspector. */
  lemma BuiltStreams(h: Host, enc: Encoder, s: Stage, revision: string)
    requires Buildable(s) && Ordinary(h) && ValidStage(h, s) && WithinBudgets(h, enc, s, revision)
    ensures StreamOk(h, Built(h, enc, s, revision))
  {
    hide MemberOk, Built, Ordinary, ValidStage, Ordered, CaseDistinct;
    BuiltOrdered(h, enc, s, revision);
    forall i | 0 <= i < |Built(h, enc, s, revision)|
      ensures var m := Built(h, enc, s, revision)[i]; MemberOk(h, m) && |m.content| == m.size
    {
      BuiltMembersOk(h, enc, s, revision, i);
    }
  }
}
