/** Inspecting and restoring a recovery archive (scripts/docs_search_delivery.py).

    An archive is the sequence of its tar members.  JSON documents are what a strict decoder
    makes of a member's bytes; the decoders, SHA-256, case folding and the stage verifier are
    functions of the host, and nothing is assumed of them here. */
module RecoveryArchive {
  import opened Orders
  import opened Wrappers
  import Text

  type Bytes = seq<bv8>
  type Path = seq<string>

  const MAX_ARCHIVE_MEMBERS: nat := 20_004
  const MAX_ARCHIVE_UNCOMPRESSED_BYTES: nat := 4 * 1024 * 1024 * 1024
  const MAX_ARCHIVE_METADATA_BYTES: nat := 64 * 1024 * 1024
  const MAX_ATTESTATION_PREDICATE_BYTES: nat := 16 * 1024 * 1024
  const MAX_WORKER_FILE_BYTES: nat := 24 * 1024 * 1024
  const SUMS := "SHA256SUMS"
  const MANIFEST := "bundle-manifest.json"
  const SBOM := "sbom.spdx.json"
  const PROVENANCE := "provenance.json"
  const METADATA_NAMES: set<string> := {SUMS, MANIFEST, SBOM, PROVENANCE}
  const CHANNEL_MEMBER := "assets/channels/production.json"
  const HEADERS_MEMBER := "assets/_headers"
  const DELIVERY_SCHEMA_VERSION := 1

  datatype Member = Member(name: string, regular: bool, canonicalOwner: bool, size: int, content: Bytes)

  datatype FileLine = FileLine(path: string, bytes: int, sha256: string)

  datatype BundleManifest = BundleManifest(schemaVersion: int, currentReleaseId: string, previousReleaseId: string,
    stageRootDigest: string, fileCount: int, totalBytes: int, files: seq<FileLine>)

  /** The keys of the provenance's `materials`. */
  datatype Material =
    ChannelPointer | DeliveryScript | Headers | ProductionConfig | StagingConfig | WebLock | WebPackage

  const TOOLS: set<Material> := {DeliveryScript, ProductionConfig, StagingConfig, WebLock, WebPackage}

  datatype Provenance = Provenance(schemaVersion: int, createdAtIsCanonical: bool, sourceRevision: string,
    currentReleaseId: string, previousReleaseId: string, stageRootDigest: string, wranglerVersion: string,
    materials: map<Material, string>)

  /** One SPDX file entry: its number, name and checksum. */
  datatype SbomFile = SbomFile(index: nat, name: string, checksum: string)

  /** An SPDX document whose fixed fields are as the builder writes them. */
  datatype Sbom = Sbom(stageRootDigest: string, files: seq<SbomFile>)

  datatype Host = Host(
    sha: Bytes -> string,
    casefold: string -> string,
    utf8Length: string -> nat,
    text: Bytes -> Option<string>,
    manifest: Bytes -> Option<BundleManifest>,
    provenance: Bytes -> Option<Provenance>,
    sbom: Bytes -> Option<Sbom>,
    tools: map<Material, string>,
    wranglerVersion: string,
    stageErrors: map<Path, Bytes> -> bool,
    stageDigest: map<Path, Bytes> -> string,
    stageReleases: map<Path, Bytes> -> (string, string))

  predicate HexDigits(s: string, n: nat) {
    |s| == n && forall i | 0 <= i < |s| :: '0' <= s[i] <= '9' || 'a' <= s[i] <= 'f'
  }

  predicate StrictlyBefore(a: string, b: string) { StringLeq(a, b) && a != b }

  // ---- Members ----

  function Parts(name: string): Path { Text.Split('/', name) }

  function SizeLimit(name: string): nat {
    if name == SBOM then MAX_ATTESTATION_PREDICATE_BYTES
    else if IsMetadata(name) then MAX_ARCHIVE_METADATA_BYTES
    else MAX_WORKER_FILE_BYTES - 1
  }

  predicate IsMetadata(name: string) { name in METADATA_NAMES }

  predicate IsAsset(name: string) { "assets/" <= name }

  predicate PartsOk(h: Host, parts: Path) {
    parts == [] || (parts[0] !in {"", ".", ".."} && h.utf8Length(parts[0]) <= 255 && PartsOk(h, parts[1..]))
  }

  /** `_validate_archive_member`. */
  predicate MemberOk(h: Host, m: Member) {
    var parts := Parts(m.name);
    && m.regular
    && PartsOk(h, parts)
    && h.utf8Length(m.name) <= 4096
    && (IsMetadata(m.name) || (|parts| >= 2 && parts[0] == "assets"))
    && m.canonicalOwner
    && 0 <= m.size <= SizeLimit(m.name)
  }

  function TotalSize(ms: seq<Member>): int {
    if ms == [] then 0 else TotalSize(ms[..|ms| - 1]) + ms[|ms| - 1].size
  }

  ghost predicate Ordered(ms: seq<Member>) {
    forall i, j | 0 <= i < j < |ms| :: StrictlyBefore(ms[i].name, ms[j].name)
  }

  ghost predicate CaseDistinct(h: Host, ms: seq<Member>) {
    forall i, j | 0 <= i < j < |ms| :: h.casefold(ms[i].name) != h.casefold(ms[j].name)
  }

  ghost predicate EachMemberOk(h: Host, ms: seq<Member>) {
    forall i | 0 <= i < |ms| :: MemberOk(h, ms[i]) && |ms[i].content| == ms[i].size
  }

  ghost predicate StreamOk(h: Host, ms: seq<Member>) {
    && |ms| <= MAX_ARCHIVE_MEMBERS
    && EachMemberOk(h, ms)
    && Ordered(ms)
    && CaseDistinct(h, ms)
    && TotalSize(ms) <= MAX_ARCHIVE_UNCOMPRESSED_BYTES
  }

  /** What one pass over the members retains. */
  datatype Scan = Scan(retained: map<string, Bytes>, digests: map<string, string>, sizes: map<string, int>)

  function ScanOf(h: Host, ms: seq<Member>): Scan {
    if ms == [] then Scan(map[], map[], map[])
    else
      var m := ms[|ms| - 1];
      var s := ScanOf(h, ms[..|ms| - 1]);
      Scan(s.retained[m.name := if IsMetadata(m.name) then m.content else []],
           s.digests[m.name := h.sha(m.content)],
           s.sizes[m.name := m.size])
  }

  lemma EachOneMore(h: Host, ms: seq<Member>, m: Member)
    ensures EachMemberOk(h, ms + [m]) <==> EachMemberOk(h, ms) && MemberOk(h, m) && |m.content| == m.size
  {
    var more := ms + [m];
    assert more[|ms|] == m && forall i | 0 <= i < |ms| :: more[i] == ms[i];
  }

  lemma OrderedOneMore(ms: seq<Member>, m: Member)
    ensures Ordered(ms + [m]) <==> Ordered(ms) && (ms != [] ==> StrictlyBefore(ms[|ms| - 1].name, m.name))
  {
    var more := ms + [m];
    StringOrder();
    assert more[|ms|] == m && forall i | 0 <= i < |ms| :: more[i] == ms[i];
    if Ordered(ms) && ms != [] && StrictlyBefore(ms[|ms| - 1].name, m.name) {
      forall i | 0 <= i < |ms| ensures StrictlyBefore(ms[i].name, m.name) {
        if i < |ms| - 1 { assert StrictlyBefore(ms[i].name, ms[|ms| - 1].name); }
      }
    }
    if Ordered(more) && ms != [] { assert StrictlyBefore(more[|ms| - 1].name, more[|ms|].name); }
  }

  lemma CaseOneMore(h: Host, ms: seq<Member>, m: Member)
    ensures CaseDistinct(h, ms + [m]) <==>
      CaseDistinct(h, ms) && forall o | o in ms :: h.casefold(o.name) != h.casefold(m.name)
  {
    var more := ms + [m];
    assert more[|ms|] == m && forall i | 0 <= i < |ms| :: more[i] == ms[i];
    if CaseDistinct(h, more) {
      forall o | o in ms ensures h.casefold(o.name) != h.casefold(m.name) {
        var i :| 0 <= i < |ms| && ms[i] == o;
        assert h.casefold(more[i].name) != h.casefold(more[|ms|].name);
      }
    }
  }

  /** The variables of the streaming loop. */
  datatype Pass = Pass(scan: Scan, casefolded: set<string>, previous: Option<string>, total: int)

  /** One iteration; None when it raises. */
  function Step(h: Host, st: Pass, m: Member, number: nat): Option<Pass> {
    var folded := h.casefold(m.name);
    if number > MAX_ARCHIVE_MEMBERS || !MemberOk(h, m) then None
    else if st.previous.Some? && !StrictlyBefore(st.previous.value, m.name) then None
    else if folded in st.casefolded then None
    else if st.total + m.size > MAX_ARCHIVE_UNCOMPRESSED_BYTES || |m.content| != m.size then None
    else
      var retained := if IsMetadata(m.name) then m.content else [];
      Some(Pass(Scan(st.scan.retained[m.name := retained], st.scan.digests[m.name := h.sha(m.content)],
                     st.scan.sizes[m.name := m.size]),
                st.casefolded + {folded}, Some(m.name), st.total + m.size))
  }

  function Run(h: Host, ms: seq<Member>): Option<Pass> {
    if ms == [] then Some(Pass(Scan(map[], map[], map[]), {}, None, 0))
    else
      match Run(h, ms[..|ms| - 1])
      case None => None
      case Some(st) => Step(h, st, ms[|ms| - 1], |ms|)
  }

  ghost function LastName(ms: seq<Member>): Option<string> {
    if ms == [] then None else Some(ms[|ms| - 1].name)
  }

  ghost function FoldedNames(h: Host, ms: seq<Member>): set<string> {
    set m | m in ms :: h.casefold(m.name)
  }

  ghost function Declared(h: Host, ms: seq<Member>): Pass {
    Pass(ScanOf(h, ms), FoldedNames(h, ms), LastName(ms), TotalSize(ms))
  }

  lemma FoldedOneMore(h: Host, ms: seq<Member>, m: Member)
    ensures FoldedNames(h, ms + [m]) == FoldedNames(h, ms) + {h.casefold(m.name)}
    ensures h.casefold(m.name) in FoldedNames(h, ms) <==> exists o | o in ms :: h.casefold(o.name) == h.casefold(m.name)
  {
  }

  lemma StepDecides(h: Host, before: seq<Member>, m: Member)
    requires StreamOk(h, before)
    ensures var next := Step(h, Declared(h, before), m, |before| + 1);
      (next.Some? <==> StreamOk(h, before + [m])) && (next.Some? ==> next.value == Declared(h, before + [m]))
  {
    hide MemberOk, EachMemberOk, Ordered, CaseDistinct, StrictlyBefore, IsMetadata, FoldedNames;
    var more := before + [m];
    EachOneMore(h, before, m);
    OrderedOneMore(before, m);
    CaseOneMore(h, before, m);
    assert more[..|more| - 1] == before && more[|more| - 1] == m;
    FoldedOneMore(h, before, m);
  }

  /** The pass decides the declarative condition, and computes the declared scan. */
  lemma {:induction false} RunDecides(h: Host, ms: seq<Member>)
    ensures Run(h, ms).Some? <==> StreamOk(h, ms)
    ensures Run(h, ms).Some? ==> Run(h, ms).value == Declared(h, ms)
  {
    if ms != [] {
      var before, m := ms[..|ms| - 1], ms[|ms| - 1];
      assert ms == before + [m];
      RunDecides(h, before);
      if StreamOk(h, before) {
        StepDecides(h, before, m);
      } else if StreamOk(h, before + [m]) {
        PrefixOk(h, before, m);
      }
    }
  }

  lemma PrefixOk(h: Host, before: seq<Member>, m: Member)
    requires StreamOk(h, before + [m])
    ensures StreamOk(h, before)
  {
    EachOneMore(h, before, m);
    OrderedOneMore(before, m);
    CaseOneMore(h, before, m);
    assert (before + [m])[..|before|] == before;
  }

  lemma {:induction false} RaisedStaysRaised(h: Host, ms: seq<Member>, i: nat)
    requires i <= |ms| && Run(h, ms[..i]).None?
    ensures Run(h, ms).None?
  {
    if i == |ms| {
      assert ms[..i] == ms;
    } else {
      assert ms[..|ms| - 1][..i] == ms[..i];
      RaisedStaysRaised(h, ms[..|ms| - 1], i);
    }
  }

  /** The streaming pass of `_inspect_recovery_archive_handle`. */
  method InspectStream(h: Host, ms: seq<Member>) returns (r: Option<Scan>)
    ensures r.Some? <==> StreamOk(h, ms)
    ensures r.Some? ==> r.value == ScanOf(h, ms)
  {
    hide MemberOk;
    var state := Pass(Scan(map[], map[], map[]), {}, None, 0);
    var i := 0;
    while i < |ms|
      invariant 0 <= i <= |ms|
      invariant Run(h, ms[..i]) == Some(state)
    {
      assert ms[..i + 1][..i] == ms[..i];
      var next := Step(h, state, ms[i], i + 1);
      i := i + 1;
      if next.None? {
        RaisedStaysRaised(h, ms, i);
        RunDecides(h, ms);
        return None;
      }
      state := next.value;
    }
    assert ms[..i] == ms;
    RunDecides(h, ms);
    return Some(state.scan);
  }

  // ---- What the pass accepts, in plain terms ----

  lemma {:induction false} PartsMean(h: Host, parts: Path)
    ensures PartsOk(h, parts)
      <==> Text.AllPlain(parts) && forall i | 0 <= i < |parts| :: h.utf8Length(parts[i]) <= 255
  {
    if parts != [] {
      PartsMean(h, parts[1..]);
      assert forall i | 0 < i < |parts| :: parts[i] == parts[1..][i - 1];
      assert forall i | 0 <= i < |parts[1..]| :: parts[1..][i] == parts[i + 1];
    }
  }

  /** The members themselves: regular files with canonical metadata, one of the four documents or a
      file below `assets/`, at a path that leads nowhere else, and of a bounded size. */
  ghost predicate Sober(h: Host, m: Member) {
    && m.regular && m.canonicalOwner
    && Text.Straight(Text.Split('/', m.name))
    && (forall i | 0 <= i < |Text.Split('/', m.name)| :: h.utf8Length(Text.Split('/', m.name)[i]) <= 255)
    && h.utf8Length(m.name) <= 4096
    && (m.name in {"SHA256SUMS", "bundle-manifest.json", "sbom.spdx.json", "provenance.json"} || "assets/" < m.name)
    && 0 <= m.size == |m.content|
    && m.size <= (if m.name == "sbom.spdx.json" then 16_777_216
      else if "assets/" < m.name then 25_165_823 else 67_108_864)
  }

  lemma AssetsMean(name: string)
    requires Text.AllPlain(Parts(name))
    ensures |Parts(name)| >= 2 && Parts(name)[0] == "assets" <==> "assets/" < name
  {
    var parts := Parts(name);
    Text.JoinUndoesSplit('/', name);
    Text.SplitIsFree('/', name);
    if |parts| >= 2 && parts[0] == "assets" {
      assert name == "assets" + ['/'] + Text.Join('/', parts[1..]);
      assert parts[1] != "";
    }
    if "assets/" < name {
      assert name == "assets" + ['/'] + name[7..];
      Text.SplitAtSeparator('/', "assets", name[7..]);
    }
  }

  lemma MetadataIsNotBelowAssets(name: string)
    requires name in METADATA_NAMES
    ensures !("assets/" < name) && (name == SBOM <==> name == "sbom.spdx.json")
  {
    assert "SHA256SUMS"[0] != 'a' && "bundle-manifest.json"[0] != 'a' && "sbom.spdx.json"[0] != 'a'
      && "provenance.json"[0] != 'a';
  }

  lemma MemberMeans(h: Host, m: Member)
    ensures MemberOk(h, m) && |m.content| == m.size <==> Sober(h, m)
  {
    hide PartsOk, Text.AllPlain, Text.Straight, Text.Split;
    var parts := Parts(m.name);
    PartsMean(h, parts);
    Text.StraightIsPlain(parts);
    if Text.AllPlain(parts) { AssetsMean(m.name); }
    if IsMetadata(m.name) { MetadataIsNotBelowAssets(m.name); }
  }

  /** The sum of the sizes, from the front. */
  function Volume(ms: seq<Member>): int { if ms == [] then 0 else ms[0].size + Volume(ms[1..]) }

  lemma {:induction false} VolumeLast(ms: seq<Member>)
    requires ms != []
    ensures Volume(ms) == Volume(ms[..|ms| - 1]) + ms[|ms| - 1].size
  {
    if |ms| > 1 {
      VolumeLast(ms[1..]);
      assert ms[1..][..|ms| - 2] == ms[..|ms| - 1][1..];
    }
  }

  lemma {:induction false} TotalIsVolume(ms: seq<Member>)
    ensures TotalSize(ms) == Volume(ms)
  {
    if ms != [] {
      TotalIsVolume(ms[..|ms| - 1]);
      VolumeLast(ms);
    }
  }

  /** The streaming pass accepts exactly the sober members in strictly ascending order of names, at most
      20004 of them and four gibibytes, no two of which fold to one name. */
  lemma StreamMeans(h: Host, ms: seq<Member>)
    ensures StreamOk(h, ms) <==>
      && |ms| <= 20_004 && Volume(ms) <= 4_294_967_296
      && (forall i | 0 <= i < |ms| :: Sober(h, ms[i]))
      && (forall i, j | 0 <= i < j < |ms| :: Before(ms[i].name, ms[j].name))
      && (forall i, j | 0 <= i < j < |ms| :: h.casefold(ms[i].name) != h.casefold(ms[j].name))
  {
    hide MemberOk, Sober, Before, StringLeq;
    TotalIsVolume(ms);
    forall i | 0 <= i < |ms| ensures MemberOk(h, ms[i]) && |ms[i].content| == ms[i].size <==> Sober(h, ms[i]) {
      MemberMeans(h, ms[i]);
    }
    forall i, j | 0 <= i < j < |ms|
      ensures StrictlyBefore(ms[i].name, ms[j].name) <==> Before(ms[i].name, ms[j].name)
    {
      StringLeqMeans(ms[i].name, ms[j].name);
      NotBeforeItself(ms[i].name);
    }
  }

  /** Whatever the host, no archive with a member that climbs out is accepted. */
  lemma ClimbingIsRefused(h: Host, ms: seq<Member>, i: nat)
    requires i < |ms| && ms[i].name == "assets/../x"
    ensures !StreamOk(h, ms)
  {
    hide Sober;
    StreamMeans(h, ms);
    ClimbingIsNotStraight();
    assert !Sober(h, ms[i]) by { SoberIsStraight(h, ms[i]); }
  }

  lemma SoberIsStraight(h: Host, m: Member)
    ensures Sober(h, m) ==> Text.Straight(Text.Split('/', m.name))
  {
  }

  lemma ClimbingIsNotStraight()
    ensures !Text.Straight(Text.Split('/', "assets/../x"))
  {
    hide Text.Split;
    Text.SplitAtSeparator('/', "assets", "../x");
    Text.SplitAtSeparator('/', "..", "x");
    Text.SplitWithoutSeparator('/', "x");
    assert "assets" + ['/'] + "../x" == "assets/../x" && ".." + ['/'] + "x" == "../x";
    var parts := Text.Split('/', "assets/../x");
    assert parts == ["assets", "..", "x"];
    Text.StraightIsPlain(parts);
    assert !Text.Plain(parts[1]);
  }

  // ---- SHA256SUMS ----

  predicate LineBreak(c: char) {
    c in {'\n', '\r', '\U{0B}', '\U{0C}', '\U{1C}', '\U{1D}', '\U{1E}', '\U{85}', '\U{2028}', '\U{2029}'}
  }

  /** `str.splitlines()`, with the characters of the current line in `line`. */
  function SplitLines(line: string, s: string): seq<string>
    decreases |s|
  {
    if s == [] then (if line == [] then [] else [line])
    else if |s| >= 2 && s[0] == '\r' && s[1] == '\n' then [line] + SplitLines("", s[2..])
    else if LineBreak(s[0]) then [line] + SplitLines("", s[1..])
    else SplitLines(line + [s[0]], s[1..])
  }

  datatype Sum = Sum(digest: string, name: string)

  /** `line.partition("  ")`. */
  function Partition(line: string): Option<Sum> {
    if |line| < 2 then None
    else if line[0] == ' ' && line[1] == ' ' then Some(Sum("", line[2..]))
    else
      match Partition(line[1..])
      case None => None
      case Some(s) => Some(Sum([line[0]] + s.digest, s.name))
  }

  predicate SumOk(line: string) {
    match Partition(line)
    case None => false
    case Some(s) => HexDigits(s.digest, 64) && s.name != SUMS
  }

  function SumName(line: string): string {
    match Partition(line) case None => "" case Some(s) => s.name
  }

  function SumDigest(line: string): string {
    match Partition(line) case None => "" case Some(s) => s.digest
  }

  ghost predicate SumsOk(lines: seq<string>) {
    && (forall line | line in lines :: SumOk(line))
    && (forall i, j | 0 <= i < j < |lines| :: SumName(lines[i]) != SumName(lines[j]))
  }

  function SumsMap(lines: seq<string>): map<string, string> {
    if lines == [] then map[]
    else SumsMap(lines[..|lines| - 1])[SumName(lines[|lines| - 1]) := SumDigest(lines[|lines| - 1])]
  }

  lemma SumsOneMore(before: seq<string>, last: string)
    requires SumsOk(before + [last])
    ensures SumsOk(before) && SumOk(last)
    ensures forall line | line in before :: SumName(line) != SumName(last)
  {
    var lines := before + [last];
    assert last in lines && lines[|before|] == last;
    assert forall i | 0 <= i < |before| :: lines[i] == before[i];
    assert forall line | line in before :: line in lines;
    forall line | line in before ensures SumName(line) != SumName(last) {
      var i :| 0 <= i < |before| && before[i] == line;
      assert SumName(lines[i]) != SumName(lines[|before|]);
    }
  }

  ghost predicate MapLists(sums: map<string, string>, lines: seq<string>) {
    && sums.Keys == (set line | line in lines :: SumName(line))
    && forall line | line in lines :: SumName(line) in sums && sums[SumName(line)] == SumDigest(line)
  }

  lemma MapListsOneMore(sums: map<string, string>, before: seq<string>, last: string)
    requires MapLists(sums, before)
    requires forall line | line in before :: SumName(line) != SumName(last)
    ensures MapLists(sums[SumName(last) := SumDigest(last)], before + [last])
  {
  }

  lemma {:induction false} SumsMapLists(lines: seq<string>)
    requires SumsOk(lines)
    ensures MapLists(SumsMap(lines), lines)
  {
    if lines != [] {
      var before, last := lines[..|lines| - 1], lines[|lines| - 1];
      assert lines == before + [last];
      SumsOneMore(before, last);
      SumsMapLists(before);
      MapListsOneMore(SumsMap(before), before, last);
    }
  }

  method ParseSums(lines: seq<string>) returns (r: Option<map<string, string>>)
    ensures r.Some? <==> SumsOk(lines)
    ensures r.Some? ==> r.value == SumsMap(lines)
  {
    var checksums: map<string, string> := map[];
    var i := 0;
    while i < |lines|
      invariant 0 <= i <= |lines|
      invariant SumsOk(lines[..i]) && checksums == SumsMap(lines[..i])
    {
      SumsMapLists(lines[..i]);
      assert lines[..i + 1][..i] == lines[..i] && lines[i] in lines;
      var parsed := Partition(lines[i]);
      if parsed.None? || !HexDigits(parsed.value.digest, 64) || parsed.value.name == SUMS {
        return None;
      }
      if parsed.value.name in checksums {
        ListedTwice(lines, i);
        return None;
      }
      ListedOnce(lines, i);
      checksums := checksums[parsed.value.name := parsed.value.digest];
      i := i + 1;
    }
    assert lines[..i] == lines;
    return Some(checksums);
  }

  lemma ListedTwice(lines: seq<string>, i: nat)
    requires i < |lines| && exists line | line in lines[..i] :: SumName(line) == SumName(lines[i])
    ensures !SumsOk(lines)
  {
    var line :| line in lines[..i] && SumName(line) == SumName(lines[i]);
    var j :| 0 <= j < i && lines[..i][j] == line;
    assert lines[j] == line;
  }

  lemma ListedOnce(lines: seq<string>, i: nat)
    requires i < |lines| && SumsOk(lines[..i]) && SumOk(lines[i])
    requires forall line | line in lines[..i] :: SumName(line) != SumName(lines[i])
    ensures SumsOk(lines[..i + 1])
  {
    var more := lines[..i + 1];
    assert more == lines[..i] + [lines[i]];
    forall a, b | 0 <= a < b < |more| ensures SumName(more[a]) != SumName(more[b]) {
      assert lines[..i][a] in lines[..i];
    }
  }

  /** SHA256SUMS lists every other member exactly once, with the digest of its bytes. */
  ghost predicate SumsClose(lines: seq<string>, scan: Scan) {
    && SumsOk(lines)
    && (set line | line in lines :: SumName(line)) == scan.digests.Keys - {SUMS}
    && forall line | line in lines :: SumName(line) in scan.digests && scan.digests[SumName(line)] == SumDigest(line)
  }

  method CheckSums(lines: seq<string>, scan: Scan) returns (ok: bool)
    ensures ok <==> SumsClose(lines, scan)
  {
    var parsed := ParseSums(lines);
    if parsed.None? { return false; }
    SumsMapLists(lines);
    var checksums := parsed.value;
    if checksums.Keys != scan.digests.Keys - {SUMS} { return false; }
    ok := forall name | name in checksums :: scan.digests[name] == checksums[name];
    if !ok {
      var name :| name in checksums && scan.digests[name] != checksums[name];
      var line :| line in lines && SumName(line) == name;
    }
  }
}
