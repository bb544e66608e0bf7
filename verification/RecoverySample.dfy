/** Two small stages that meet every condition of the recovery round trip: one comes back, and one,
    which holds a release, is refused (scripts/docs_search_delivery.py). */
module RecoverySample {
  import opened Orders
  import opened Wrappers
  import opened RecoveryArchive
  import opened RecoveryBuild
  import opened RecoveryRoundTrip
  import PathOrders
  import Text

  function Zeros(n: nat): (s: string)
    ensures HexDigits(s, n)
  {
    if n == 0 then "" else ['0'] + Zeros(n - 1)
  }

  /** A stage of empty files. */
  function SampleStage(files: seq<Path>): Stage { Stage(files, map p | p in files :: []) }

  /** Portable, short, distinct and not nested paths, the control files among them. */
  ghost predicate SampleFiles(files: seq<Path>) {
    && |files| <= 10 && NoRepeats(files) && CHANNEL_PATH in files && HEADERS_PATH in files
    && (forall p | p in files :: PortablePath(p) && ShortPath(p))
    && (forall p, q | p in files && q in files :: !(p < q))
    && (forall p, q | p in files && q in files && FoldedName(p) == FoldedName(q) :: p == q)
  }

  function FoldedName(p: Path): string { Text.Lower(PathOrders.Name(p)) }

  predicate ShortPath(p: Path) { |PathOrders.Name(p)| <= 1000 && forall k | 0 <= k < |p| :: |p[k]| <= 255 }

  function SampleEncoder(): Encoder { Encoder(x => [], x => [], x => [], x => []) }

  function SampleTools(): map<Material, string> { map name: Material | name in TOOLS :: Zeros(64) }

  /** Everything of the host but its decoders. */
  function Undecided(): Host {
    Host(b => Zeros(64), s => Text.Lower(s), s => |s|, b => None, b => None, b => None, b => None,
      SampleTools(), "4.0.0", c => false, c => Zeros(64), c => (Zeros(64), ['1'] + Zeros(63)))
  }

  function SampleRevision(): string { Zeros(40) }

  function SampleHost(s: Stage): Host
    requires Buildable(s)
  {
    Undecided().(
      text := b => Some(SumsText(Undecided(), SampleEncoder(), s, SampleRevision())),
      manifest := b => Some(ManifestFor(Undecided(), s)),
      provenance := b => Some(ProvenanceFor(Undecided(), s, SampleRevision())),
      sbom := b => Some(SbomFor(Undecided(), s)))
  }

  lemma SampleIsBuildable(files: seq<Path>)
    requires SampleFiles(files)
    ensures Buildable(SampleStage(files))
  {
  }

  /** The documents do not depend on the decoders. */
  lemma SameDocuments(s: Stage)
    requires Buildable(s)
    ensures ManifestFor(SampleHost(s), s) == ManifestFor(Undecided(), s)
    ensures SbomFor(SampleHost(s), s) == SbomFor(Undecided(), s)
    ensures ProvenanceFor(SampleHost(s), s, SampleRevision()) == ProvenanceFor(Undecided(), s, SampleRevision())
    ensures SumsText(SampleHost(s), SampleEncoder(), s, SampleRevision())
      == SumsText(Undecided(), SampleEncoder(), s, SampleRevision())
  {
    hide Sort, Zeros, HEADERS_PATH, CHANNEL_PATH, StageListed;
    var h, u, enc, r := SampleHost(s), Undecided(), SampleEncoder(), SampleRevision();
    assert ManifestLines(h, s) == ManifestLines(u, s);
    assert SbomFor(h, s) == SbomFor(u, s);
    assert SumLines(h, enc, s, r) == SumLines(u, enc, s, r);
  }

  lemma SampleRoundTrips(s: Stage)
    requires Buildable(s)
    ensures RoundTrips(SampleHost(s), SampleEncoder(), s, SampleRevision())
  {
    hide ManifestFor, SbomFor, ProvenanceFor, SumsText, Zeros;
    SameDocuments(s);
  }

  lemma SampleIsOrdinary(s: Stage)
    requires Buildable(s)
    ensures Ordinary(SampleHost(s))
  {
    hide Zeros, HexDigits, ManifestFor, SbomFor, ProvenanceFor, SumsText, StageListed;
  }

  lemma SampleIsValid(files: seq<Path>)
    requires SampleFiles(files) && Buildable(SampleStage(files))
    ensures ValidStage(SampleHost(SampleStage(files)), SampleStage(files))
  {
    hide HexDigits, PortablePath, ShortPath, Text.Lower, PathOrders.Name, Zeros;
    hide ManifestFor, SbomFor, ProvenanceFor, SumsText, StageListed, NoRepeats;
    HexHead();
    forall p, q | p in files && q in files && Text.Lower(PathOrders.Name(p)) == Text.Lower(PathOrders.Name(q))
      ensures p == q
    {
      assert FoldedName(p) == FoldedName(q);
    }
  }

  lemma HexHead()
    ensures HexDigits(['1'] + Zeros(63), 64) && ['1'] + Zeros(63) != Zeros(64)
  {
    hide Zeros;
    ZeroHead();
    assert (['1'] + Zeros(63))[0] == '1';
  }

  lemma ZeroHead()
    ensures Zeros(64)[0] == '0'
  {
  }

  lemma {:induction false} NothingTotalsNothing(ms: seq<Member>)
    requires forall i | 0 <= i < |ms| :: ms[i].size == 0
    ensures TotalSize(ms) == 0
  {
    if ms != [] { NothingTotalsNothing(ms[..|ms| - 1]); }
  }

  /** Every member is empty, its name short. */
  lemma SampleMember(files: seq<Path>, name: string)
    requires SampleFiles(files) && Buildable(SampleStage(files)) && name in MemberNames(SampleStage(files))
    ensures var m := MemberFor(SampleHost(SampleStage(files)), SampleEncoder(), SampleStage(files), SampleRevision(),
      name);
      m.name == name && m.size == 0 && |name| <= 4096
  {
    hide ManifestFor, SbomFor, ProvenanceFor, SumsText, Zeros, METADATA_NAMES, PortablePath, Text.Lower, StageListed;
    hide NoRepeats, PathOrders.Name;
    ShortNames();
    var names := MemberNames(SampleStage(files));
    var i :| 0 <= i < |names| && names[i] == name;
    if i < |files| {
      assert names[i] == AssetName(files[i]);
      assert ShortPath(files[i]);
    }
  }

  lemma ShortNames()
    ensures |MANIFEST| <= 100 && |SBOM| <= 100 && |PROVENANCE| <= 100 && |SUMS| <= 100
  {
  }

  lemma SampleIsWithinBudgets(files: seq<Path>)
    requires SampleFiles(files) && Buildable(SampleStage(files))
    ensures WithinBudgets(SampleHost(SampleStage(files)), SampleEncoder(), SampleStage(files), SampleRevision())
  {
    hide ManifestFor, SbomFor, ProvenanceFor, SumsText, Zeros, MemberFor, Sort, StringLeq, Buildable, SampleHost;
    hide PathOrders.Name, PortablePath, NoRepeats, Text.Lower;
    var s := SampleStage(files);
    var names := MemberNames(s);
    var ms := Built(SampleHost(s), SampleEncoder(), s, SampleRevision());
    NamesInSorted(names);
    forall i | 0 <= i < |ms| ensures ms[i].size == 0 && |ms[i].name| <= 4096 {
      assert Sort(StringLeq, names)[i] in names;
      SampleMember(files, Sort(StringLeq, names)[i]);
    }
    NothingTotalsNothing(ms);
    forall p, k | p in s.files && 0 <= k < |p| ensures |p[k]| <= 255 { assert ShortPath(p); }
  }

  /** Building and restoring a sample. */
  method RestoreSample(files: seq<Path>) returns (r: Option<map<Path, Bytes>>)
    requires SampleFiles(files)
    ensures r == if PathOrders.Agree(files) then Some(SampleStage(files).content) else None
  {
    hide ManifestFor, SbomFor, ProvenanceFor, SumsText, Zeros, MemberFor, Ordinary, ValidStage, WithinBudgets;
    hide RoundTrips, PathOrders.Agree, SampleFiles, Buildable;
    SampleIsBuildable(files);
    var s := SampleStage(files);
    SampleIsOrdinary(s);
    SampleRoundTrips(s);
    SampleIsValid(files);
    SampleIsWithinBudgets(files);
    r := BuildThenRestore(SampleHost(s), SampleEncoder(), s, SampleRevision(), Zeros(64));
  }

  // ---- The two stages ----

  const CONTROL_FILES: seq<Path> := [HEADERS_PATH, CHANNEL_PATH]

  const RELEASE: Path := ["releases", "r"]

  /** The control files and the two job files that every release holds. */
  const RELEASE_FILES: seq<Path> :=
    [HEADERS_PATH, CHANNEL_PATH, RELEASE + PathOrders.LATEST_JOBS, RELEASE + PathOrders.DETAIL_IDS]

  lemma HeadersPath()
    ensures PortablePath(HEADERS_PATH) && ShortPath(HEADERS_PATH) && |PathOrders.Name(HEADERS_PATH)| == 8
    ensures HEADERS_PATH[0][0] == '_'
  {
  }

  lemma ChannelPath()
    ensures PortablePath(CHANNEL_PATH) && ShortPath(CHANNEL_PATH) && |PathOrders.Name(CHANNEL_PATH)| == 24
    ensures CHANNEL_PATH[0][0] == 'c'
  {
    assert CHANNEL_PATH[1..] == ["production.json"];
  }

  /** A portable path of short parts whose name has `n` characters. */
  predicate Measures(p: Path, n: nat) {
    PortablePath(p) && |PathOrders.Name(p)| == n && forall k | 0 <= k < |p| :: |p[k]| <= 255
  }

  lemma Below(folder: string, p: Path, n: nat)
    requires Text.PortablePart(folder) && |folder| <= 255 && Measures(p, n)
    ensures Measures([folder] + p, |folder| + 1 + n)
  {
    hide Text.PortablePart;
    assert ([folder] + p)[1..] == p;
  }

  lemma Alone(file: string)
    requires Text.PortablePart(file) && |file| <= 255
    ensures Measures([file], |file|)
  {
    hide Text.PortablePart;
  }

  lemma ReleaseParts()
    ensures Text.PortablePart("releases") && Text.PortablePart("r") && Text.PortablePart("jobs")
    ensures "releases"[0] == 'r'
  {
  }

  lemma JobFileParts()
    ensures Text.PortablePart("latest.json") && Text.PortablePart("jobs-detail-ids.json")
    ensures |"latest.json"| == 11 && |"jobs-detail-ids.json"| == 20
  {
  }

  lemma LatestPath()
    ensures var p := RELEASE + PathOrders.LATEST_JOBS;
      Measures(p, 27) && |p| == 4 && p[0][0] == 'r' && |p[2]| == 4
  {
    hide Measures, Text.PortablePart;
    ReleaseParts();
    JobFileParts();
    Alone("latest.json");
    Below("jobs", ["latest.json"], 11);
    assert ["jobs"] + ["latest.json"] == PathOrders.LATEST_JOBS;
    Below("r", PathOrders.LATEST_JOBS, 16);
    Below("releases", ["r"] + PathOrders.LATEST_JOBS, 18);
    assert RELEASE + PathOrders.LATEST_JOBS == ["releases"] + (["r"] + PathOrders.LATEST_JOBS);
  }

  lemma DetailIdsPath()
    ensures var p := RELEASE + PathOrders.DETAIL_IDS;
      Measures(p, 31) && |p| == 3 && p[0][0] == 'r' && |p[2]| == 20
  {
    hide Measures, Text.PortablePart;
    ReleaseParts();
    JobFileParts();
    Alone("jobs-detail-ids.json");
    Below("r", PathOrders.DETAIL_IDS, 20);
    Below("releases", ["r"] + PathOrders.DETAIL_IDS, 22);
    assert RELEASE + PathOrders.DETAIL_IDS == ["releases"] + (["r"] + PathOrders.DETAIL_IDS);
  }

  /** Paths of different lengths, none a folder of another. */
  lemma ReleaseFilesAreOk()
    ensures SampleFiles(CONTROL_FILES) && SampleFiles(RELEASE_FILES)
  {
    hide SampleFiles;
    ControlFilesFit();
    ReleaseFilesFit();
  }

  lemma ControlFilesFit()
    ensures SampleFiles(CONTROL_FILES)
  {
    hide PortablePath, PathOrders.Name, HEADERS_PATH, CHANNEL_PATH, FoldedName;
    HeadersPath();
    ChannelPath();
    FoldedLengths();
  }

  lemma ReleaseFilesFit()
    ensures SampleFiles(RELEASE_FILES)
  {
    hide PortablePath, PathOrders.Name, HEADERS_PATH, CHANNEL_PATH, RELEASE, FoldedName;
    hide PathOrders.LATEST_JOBS, PathOrders.DETAIL_IDS;
    HeadersPath();
    ChannelPath();
    LatestPath();
    DetailIdsPath();
    FoldedLengths();
    forall p, q | p in RELEASE_FILES && q in RELEASE_FILES && FoldedName(p) == FoldedName(q) ensures p == q {
      assert |FoldedName(p)| == |FoldedName(q)|;
    }
  }

  lemma FoldedLengths()
    ensures forall p :: |FoldedName(p)| == |PathOrders.Name(p)|
  {
  }

  lemma ControlFilesAgree()
    ensures PathOrders.Agree(CONTROL_FILES)
  {
    hide PortablePath, ShortPath, PathOrders.Name, HEADERS_PATH, CHANNEL_PATH;
    HeadersPath();
    ChannelPath();
  }

  /** The control files alone come back; with the files of a release beside them the same steps end in
      a refusal. */
  method RestoreBoth() returns (controls: Option<map<Path, Bytes>>, release: Option<map<Path, Bytes>>)
    ensures controls == Some(SampleStage(CONTROL_FILES).content)
    ensures release == None
  {
    hide PathOrders.Agree, SampleFiles, SampleStage, CONTROL_FILES;
    ReleaseFilesAreOk();
    ControlFilesAgree();
    controls := RestoreSample(CONTROL_FILES);
    ReleaseFilesDisagree();
    release := RestoreSample(RELEASE_FILES);
  }

  lemma ReleaseFilesDisagree()
    ensures !PathOrders.Agree(RELEASE_FILES)
  {
    hide HEADERS_PATH, CHANNEL_PATH, RELEASE, PathOrders.LATEST_JOBS, PathOrders.DETAIL_IDS;
    PathOrders.JobFilesInvert(RELEASE);
    assert RELEASE_FILES[2] in RELEASE_FILES && RELEASE_FILES[3] in RELEASE_FILES;
  }
}
