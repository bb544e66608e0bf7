/** Building, then inspecting and extracting: exactly when the archive of a valid stage comes back
    (scripts/docs_search_delivery.py). */
module RecoveryRoundTrip {
  import opened Orders
  import opened Wrappers
  import opened RecoveryArchive
  import opened RecoveryRestore
  import opened RecoveryBuild
  import PathOrders
  import Text

  // ---- SHA256SUMS reads back ----

  predicate NoBreaks(s: string) { forall i | 0 <= i < |s| :: !LineBreak(s[i]) }

  lemma {:induction false} SplitOne(line: string, s: string, rest: string)
    requires NoBreaks(s)
    ensures SplitLines(line, s + "\n" + rest) == [line + s] + SplitLines("", rest)
    decreases |s|
  {
    var text := s + "\n" + rest;
    if s == [] {
      assert text[0] == '\n' && text[1..] == rest;
      assert line + s == line;
    } else {
      assert text[0] == s[0] && !LineBreak(s[0]);
      assert text[1..] == s[1..] + "\n" + rest;
      SplitOne(line + [s[0]], s[1..], rest);
      assert line + [s[0]] + s[1..] == line + s;
    }
  }

  lemma {:induction false} SplitJoined(lines: seq<string>)
    requires lines != [] && forall i | 0 <= i < |lines| :: NoBreaks(lines[i])
    ensures SplitLines("", Text.Join('\n', lines) + "\n") == lines
  {
    hide NoBreaks;
    var rest := if |lines| == 1 then "" else Text.Join('\n', lines[1..]) + "\n";
    assert Text.Join('\n', lines) + "\n" == lines[0] + "\n" + rest;
    SplitOne("", lines[0], rest);
    assert "" + lines[0] == lines[0];
    if |lines| > 1 {
      assert forall i | 0 <= i < |lines[1..]| :: lines[1..][i] == lines[i + 1];
      SplitJoined(lines[1..]);
    }
    assert lines == [lines[0]] + lines[1..];
  }

  lemma {:induction false} PartitionDigest(digest: string, name: string)
    requires ' ' !in digest
    ensures Partition(digest + "  " + name) == Some(Sum(digest, name))
  {
    var line := digest + "  " + name;
    if digest == [] {
      assert line[2..] == name;
    } else {
      assert line[0] == digest[0] && line[1..] == digest[1..] + "  " + name;
      PartitionDigest(digest[1..], name);
      assert digest == [digest[0]] + digest[1..];
    }
  }

  lemma HexHasNoSpace(s: string, n: nat)
    requires HexDigits(s, n)
    ensures ' ' !in s && NoBreaks(s)
  {
  }

  lemma ShaIsHex(h: Host, b: Bytes)
    requires Ordinary(h)
    ensures HexDigits(h.sha(b), 64)
  {
  }

  lemma PlainHasNoBreaks(s: string)
    requires Plain(s)
    ensures NoBreaks(s)
  {
  }

  lemma NameHasNoBreaks(name: string, p: Path)
    requires IsMetadata(name) || (PortablePath(p) && name == AssetName(p))
    ensures NoBreaks(name)
  {
    hide NoBreaks, Plain, PortablePath, AssetName, IsMetadata;
    if IsMetadata(name) {
      MetadataIsPlain(name);
    } else {
      AssetNameIsPlain(p);
    }
    PlainHasNoBreaks(name);
  }

  lemma SumLineReads(h: Host, enc: Encoder, s: Stage, revision: string, name: string)
    requires Ordinary(h) && ValidStage(h, s) && name in MemberNames(s)
    ensures var line := SumLine(h, enc, s, revision, name);
      && NoBreaks(line) && Partition(line) == Some(Sum(h.sha(Content(h, enc, s, revision, name)), name))
  {
    hide Ordinary, MemberNames, Content, HexDigits, IsMetadata, PortablePath, AssetName;
    var digest := h.sha(Content(h, enc, s, revision, name));
    ShaIsHex(h, Content(h, enc, s, revision, name));
    HexHasNoSpace(digest, 64);
    PartitionDigest(digest, name);
    var p := NameIsAssetOrMetadata(h, s, name);
    NameHasNoBreaks(name, p);
  }

  lemma SumNamesListed(h: Host, s: Stage)
    requires ValidStage(h, s)
    ensures var names := Sort(StringLeq, SummedNames(s));
      && NoRepeats(names) && names != []
      && (forall n :: n in names <==> n in MemberNames(s) && n != SUMS)
  {
    hide ValidStage, StringLeq, Sort, SUMS, MANIFEST, SBOM, PROVENANCE;
    var names := Sort(StringLeq, SummedNames(s));
    MemberNamesDiffer(h, s);
    StringOrder();
    SortKeepsNoRepeats(StringLeq, SummedNames(s));
    NamesInSorted(SummedNames(s));
    var all := MemberNames(s);
    assert all[|all| - 1] == SUMS && all == SummedNames(s) + [SUMS];
    forall n | n in SummedNames(s) ensures n != SUMS {
      var i :| 0 <= i < |SummedNames(s)| && SummedNames(s)[i] == n;
      assert all[i] == n;
    }
    assert |names| == |SummedNames(s)|;
  }

  lemma SumsRead(h: Host, enc: Encoder, s: Stage, revision: string)
    requires Buildable(s) && Ordinary(h) && ValidStage(h, s)
    ensures SplitLines("", SumsText(h, enc, s, revision)) == SumLines(h, enc, s, revision)
  {
    hide Ordinary, ValidStage, MemberNames, SummedNames, SumLine, NoBreaks, Partition;
    SumNamesListed(h, s);
    var lines := SumLines(h, enc, s, revision);
    var names := Sort(StringLeq, SummedNames(s));
    forall i | 0 <= i < |lines| ensures NoBreaks(lines[i]) {
      assert names[i] in names;
      SumLineReads(h, enc, s, revision, names[i]);
    }
    SplitJoined(lines);
  }

  // ---- What the scan of a built archive knows ----

  ghost predicate Knows(h: Host, enc: Encoder, s: Stage, revision: string, scan: Scan)
    requires Buildable(s)
  {
    && scan.digests.Keys == scan.sizes.Keys == scan.retained.Keys
    && (forall n :: n in scan.digests <==> n in MemberNames(s))
    && (forall n | n in MemberNames(s) :: var m := MemberFor(h, enc, s, revision, n);
          scan.digests[n] == h.sha(m.content) && scan.sizes[n] == |m.content|)
    && (forall n | IsMetadata(n) && n in MemberNames(s) ::
      scan.retained[n] == MemberFor(h, enc, s, revision, n).content)
  }

  lemma BuiltHas(h: Host, enc: Encoder, s: Stage, revision: string, n: string)
    requires Buildable(s) && ValidStage(h, s) && n in MemberNames(s)
    ensures MemberFor(h, enc, s, revision, n) in Built(h, enc, s, revision)
  {
    hide ValidStage, MemberNames, Built, MemberFor;
    var ms, names := Built(h, enc, s, revision), Sort(StringLeq, MemberNames(s));
    BuiltNames(h, enc, s, revision);
    NamesInSorted(MemberNames(s));
    var i :| 0 <= i < |names| && names[i] == n;
    assert ms[i] in ms;
  }

  lemma BuiltOnly(h: Host, enc: Encoder, s: Stage, revision: string, m: Member)
    requires Buildable(s) && ValidStage(h, s) && m in Built(h, enc, s, revision)
    ensures m.name in MemberNames(s) && m == MemberFor(h, enc, s, revision, m.name)
  {
    hide ValidStage, MemberNames, Built, Content, SumsText;
    var ms := Built(h, enc, s, revision);
    BuiltNames(h, enc, s, revision);
    var i :| 0 <= i < |ms| && ms[i] == m;
  }

  lemma BuiltScan(h: Host, enc: Encoder, s: Stage, revision: string)
    requires Buildable(s) && Ordinary(h) && ValidStage(h, s)
    ensures Knows(h, enc, s, revision, ScanOf(h, Built(h, enc, s, revision)))
  {
    hide Ordinary, ValidStage, MemberNames, Built, Content, SumsText, IsMetadata, StrictlyBefore;
    var ms := Built(h, enc, s, revision);
    BuiltOrdered(h, enc, s, revision);
    ScanLists(h, ms);
    forall m | m in ms ensures m.name in MemberNames(s) && m == MemberFor(h, enc, s, revision, m.name) {
      BuiltOnly(h, enc, s, revision, m);
    }
    forall n | n in MemberNames(s) ensures MemberFor(h, enc, s, revision, n) in ms {
      BuiltHas(h, enc, s, revision, n);
    }
  }

  // ---- The inspector's clauses, one by one ----

  lemma SumsCloseFrom(lines: seq<string>, names: seq<string>, scan: Scan)
    requires |lines| == |names| && NoRepeats(names)
    requires forall i | 0 <= i < |lines| :: SumOk(lines[i]) && SumName(lines[i]) == names[i]
    requires forall i | 0 <= i < |lines| :: names[i] in scan.digests && scan.digests[names[i]] == SumDigest(lines[i])
    requires forall n :: n in names <==> n in scan.digests.Keys - {SUMS}
    ensures SumsClose(lines, scan)
  {
    hide SumOk, SumName, SumDigest;
    forall line | line in lines
      ensures SumOk(line) && SumName(line) in scan.digests && scan.digests[SumName(line)] == SumDigest(line)
      ensures SumName(line) in names
    {
      var i :| 0 <= i < |lines| && lines[i] == line;
      assert SumName(line) == names[i];
    }
    forall n | n in names ensures exists line | line in lines :: SumName(line) == n {
      var i :| 0 <= i < |names| && names[i] == n;
      assert lines[i] in lines;
    }
    assert (set line | line in lines :: SumName(line)) == scan.digests.Keys - {SUMS};
  }

  lemma SumAt(h: Host, enc: Encoder, s: Stage, revision: string, scan: Scan, name: string)
    requires Buildable(s) && Ordinary(h) && ValidStage(h, s) && Knows(h, enc, s, revision, scan)
    requires name in MemberNames(s) && name != SUMS
    ensures var line := SumLine(h, enc, s, revision, name);
      && SumOk(line) && SumName(line) == name
      && name in scan.digests && scan.digests[name] == SumDigest(line)
  {
    hide Ordinary, ValidStage, MemberNames, Content, SumsText, SumLine, Partition, HexDigits, IsMetadata;
    SumLineReads(h, enc, s, revision, name);
    ShaIsHex(h, Content(h, enc, s, revision, name));
  }

  lemma SumsCloseOnBuilt(h: Host, enc: Encoder, s: Stage, revision: string)
    requires Buildable(s) && Ordinary(h) && ValidStage(h, s)
    ensures SumsClose(SumLines(h, enc, s, revision), ScanOf(h, Built(h, enc, s, revision)))
  {
    hide Ordinary, ValidStage, MemberNames, SummedNames, Built, Content, SumsText, SumLine, SumsClose,
      SumOk, SumName, SumDigest, MemberFor, ScanOf, IsMetadata;
    var scan, lines := ScanOf(h, Built(h, enc, s, revision)), SumLines(h, enc, s, revision);
    var names := Sort(StringLeq, SummedNames(s));
    SumNamesListed(h, s);
    BuiltScan(h, enc, s, revision);
    forall i | 0 <= i < |lines|
      ensures SumOk(lines[i]) && SumName(lines[i]) == names[i]
      ensures names[i] in scan.digests && scan.digests[names[i]] == SumDigest(lines[i])
    {
      assert names[i] in names;
      SumAt(h, enc, s, revision, scan, names[i]);
    }
    SumsCloseFrom(lines, names, scan);
  }

  lemma LineAt(h: Host, s: Stage, i: nat)
    requires Ordinary(h) && ValidStage(h, s) && i < |SortedFiles(s)|
    ensures var p, l := SortedFiles(s)[i], ManifestLines(h, s)[i];
      && p in s.files && p in s.content && PortablePath(p)
      && LineOk(l) && l.path == AssetName(p) && l.bytes == |s.content[p]| && l.sha256 == h.sha(s.content[p])
  {
    hide Ordinary, PortablePath, HexDigits;
    PathOrders.InSorted(s.files);
    var p := SortedFiles(s)[i];
    assert p in SortedFiles(s);
    ShaIsHex(h, s.content[p]);
    AssetNameParts(p);
  }

  lemma PairAt(h: Host, s: Stage, i: nat, j: nat)
    requires Ordinary(h) && ValidStage(h, s) && i < j < |SortedFiles(s)|
    ensures var lines, names := ManifestLines(h, s), PathOrders.Names(SortedFiles(s));
      StrictlyBefore(lines[i].path, lines[j].path) <==> StringLeq(names[i], names[j])
  {
    hide Ordinary, ValidStage, ManifestLines, LineOk, PortablePath, SortedFiles;
    LineAt(h, s, i);
    LineAt(h, s, j);
    var sorted := SortedFiles(s);
    PathOrders.CommonPrefix("assets/", PathOrders.Name(sorted[i]), PathOrders.Name(sorted[j]));
    NoRepeatsInSorted(h, s);
    if AssetName(sorted[i]) == AssetName(sorted[j]) { AssetNamesDiffer(sorted[i], sorted[j]); }
  }

  lemma StageWellFormed(h: Host, s: Stage)
    requires ValidStage(h, s)
    ensures forall p | p in s.files :: PathOrders.WellFormed(p)
  {
    hide HexDigits;
    forall p | p in s.files ensures PathOrders.WellFormed(p) { PortableIsWellFormed(p); }
  }

  lemma NoRepeatsInSorted(h: Host, s: Stage)
    requires ValidStage(h, s)
    ensures NoRepeats(SortedFiles(s))
  {
    SortedDiffer(s);
  }

  /** The built manifest's list is in the inspector's order exactly when the two orders agree. */
  lemma LinesAscendIffOrdersAgree(h: Host, s: Stage)
    requires Ordinary(h) && ValidStage(h, s)
    ensures LinesOk(ManifestLines(h, s)) <==> PathOrders.Agree(s.files)
  {
    hide Ordinary, LineOk, StrictlyBefore, ValidStage, LineOf, PathOrders.Agree, PathOrders.WellFormed;
    var lines, sorted := ManifestLines(h, s), SortedFiles(s);
    StageWellFormed(h, s);
    PathOrders.SortedNamesAscend(s.files);
    forall i | 0 <= i < |lines| ensures LineOk(lines[i]) { LineAt(h, s, i); }
    var names := PathOrders.Names(sorted);
    forall i, j | 0 <= i < j < |lines|
      ensures StrictlyBefore(lines[i].path, lines[j].path) <==> StringLeq(names[i], names[j])
    {
      PairAt(h, s, i, j);
    }
  }

  lemma SortedDiffer(s: Stage)
    requires StageListed(s)
    ensures NoRepeats(SortedFiles(s))
  {
    PathOrder();
    SortSorts(PathLeq, s.files);
    SingleCopies(s.files);
    SingleCopies(SortedFiles(s));
    PathOrders.InSorted(s.files);
  }

  lemma AssetIsNoMetadata(name: string)
    requires IsAsset(name)
    ensures name != SUMS && name != MANIFEST && name != SBOM && name != PROVENANCE
  {
    assert name[0] == 'a' && SUMS[0] == 'S' && MANIFEST[0] == 'b' && SBOM[0] == 's' && PROVENANCE[0] == 'p';
  }

  lemma AssetListed(h: Host, s: Stage, p: Path)
    requires ValidStage(h, s) && p in s.files
    ensures AssetName(p) in MemberNames(s) && PortablePath(p)
  {
    hide HexDigits, PortablePath, AssetName;
    var i :| 0 <= i < |s.files| && s.files[i] == p;
    assert MemberNames(s)[i] == AssetName(p);
  }

  lemma AssetContent(h: Host, enc: Encoder, s: Stage, revision: string, p: Path)
    requires Buildable(s) && ValidStage(h, s) && p in s.files
    ensures AssetName(p) in MemberNames(s) && IsAsset(AssetName(p)) && PortablePath(p)
    ensures MemberFor(h, enc, s, revision, AssetName(p))
      == Member(AssetName(p), true, true, |s.content[p]|, s.content[p])
  {
    hide ValidStage, SumsText, IsAsset, PortablePath, AssetName, MemberNames, Parts;
    AssetListed(h, s, p);
    AssetNameParts(p);
    AssetIsNoMetadata(AssetName(p));
    assert (["assets"] + p)[1..] == p;
  }

  lemma MetadataContent(h: Host, enc: Encoder, s: Stage, revision: string)
    requires Buildable(s)
    ensures forall n | IsMetadata(n) :: n in MemberNames(s)
    ensures MemberFor(h, enc, s, revision, SUMS).content == enc.text(SumsText(h, enc, s, revision))
    ensures MemberFor(h, enc, s, revision, MANIFEST).content == enc.manifest(ManifestFor(h, s))
    ensures MemberFor(h, enc, s, revision, SBOM).content == enc.sbom(SbomFor(h, s))
    ensures MemberFor(h, enc, s, revision, PROVENANCE).content == enc.provenance(ProvenanceFor(h, s, revision))
  {
    hide ManifestFor, SbomFor, ProvenanceFor, SumsText;
    assert MANIFEST != SBOM && MANIFEST != PROVENANCE && MANIFEST != SUMS && SBOM != PROVENANCE && SBOM != SUMS
      && PROVENANCE != SUMS;
    var k, names := |s.files|, MemberNames(s);
    assert names[k] == MANIFEST && names[k + 1] == SBOM && names[k + 2] == PROVENANCE && names[k + 3] == SUMS;
  }

  lemma AssetsKnown(h: Host, enc: Encoder, s: Stage, revision: string, scan: Scan)
    requires Buildable(s) && ValidStage(h, s) && Knows(h, enc, s, revision, scan)
    ensures forall p | p in s.files ::
      AssetName(p) in AssetsOf(scan) && AssetsOf(scan)[AssetName(p)] == (|s.content[p]|, h.sha(s.content[p]))
    ensures forall n | n in AssetsOf(scan) :: exists p | p in s.files :: AssetName(p) == n
  {
    hide MemberNames, MemberFor, IsAsset, IsMetadata, AssetName, PortablePath, ValidStage;
    forall p | p in s.files
      ensures AssetName(p) in AssetsOf(scan) && AssetsOf(scan)[AssetName(p)] == (|s.content[p]|, h.sha(s.content[p]))
    {
      AssetContent(h, enc, s, revision, p);
    }
    forall n | n in AssetsOf(scan) ensures exists p | p in s.files :: AssetName(p) == n {
      var p := NameIsAssetOrMetadata(h, s, n);
      if IsMetadata(n) { MetadataIsNoAsset(n); }
    }
  }

  /** The manifest built closes over the asset members. */
  lemma LineKnown(h: Host, enc: Encoder, s: Stage, revision: string, scan: Scan, i: nat)
    requires Buildable(s) && Ordinary(h) && ValidStage(h, s) && Knows(h, enc, s, revision, scan) && i < |SortedFiles(s)|
    ensures var l := ManifestLines(h, s)[i];
      l.path in AssetsOf(scan) && AssetsOf(scan)[l.path] == (l.bytes, l.sha256)
  {
    hide Ordinary, ValidStage, Knows, LineOk, AssetName, AssetsOf, PortablePath;
    LineAt(h, s, i);
    AssetsKnown(h, enc, s, revision, scan);
  }

  lemma AssetInLines(h: Host, s: Stage, p: Path) returns (i: nat)
    requires Ordinary(h) && ValidStage(h, s) && p in s.files
    ensures i < |SortedFiles(s)| && ManifestLines(h, s)[i].path == AssetName(p)
  {
    hide Ordinary, ValidStage, LineOk, AssetName, PortablePath, LineOf;
    PathOrders.InSorted(s.files);
    i :| 0 <= i < |SortedFiles(s)| && SortedFiles(s)[i] == p;
    LineAt(h, s, i);
  }

  /** The manifest built closes over the asset members. */
  lemma ManifestCloses(h: Host, enc: Encoder, s: Stage, revision: string, scan: Scan)
    requires Buildable(s) && Ordinary(h) && ValidStage(h, s) && Knows(h, enc, s, revision, scan)
    requires LinesOk(ManifestLines(h, s))
    ensures LinesMap(ManifestLines(h, s)) == AssetsOf(scan)
  {
    hide Ordinary, ValidStage, Knows, AssetName, LineOf, LinesMap, AssetsOf, LinesOk, Buildable;
    var lines := ManifestLines(h, s);
    LinesMapLists(lines);
    AssetsKnown(h, enc, s, revision, scan);
    var m, a := LinesMap(lines), AssetsOf(scan);
    forall n | n in m ensures n in a && m[n] == a[n] {
      var l :| l in lines && l.path == n;
      var i :| 0 <= i < |lines| && lines[i] == l;
      LineKnown(h, enc, s, revision, scan, i);
    }
    forall n | n in a ensures n in m {
      var p :| p in s.files && AssetName(p) == n;
      var i := AssetInLines(h, s, p);
      assert lines[i] in lines;
    }
  }

  lemma OrdinaryTools(h: Host)
    requires Ordinary(h)
    ensures h.tools.Keys == TOOLS && forall name | name in h.tools :: HexDigits(h.tools[name], 64)
  {
    hide HexDigits;
  }

  lemma MaterialsClose(h: Host, pointer: string, headers: string)
    requires Ordinary(h) && HexDigits(pointer, 64) && HexDigits(headers, 64)
    ensures var m := map[ChannelPointer := pointer, Headers := headers] + h.tools;
      && m.Keys == TOOLS + {ChannelPointer, Headers} && m[ChannelPointer] == pointer && m[Headers] == headers
      && (forall name | name in m :: HexDigits(m[name], 64))
      && (forall name | name in h.tools :: name in m && m[name] == h.tools[name])
  {
    hide HexDigits, Ordinary;
    OrdinaryTools(h);
    assert ChannelPointer !in TOOLS && Headers !in TOOLS;
  }

  lemma ControlFilesKnown(h: Host, enc: Encoder, s: Stage, revision: string, scan: Scan)
    requires Buildable(s) && ValidStage(h, s) && Knows(h, enc, s, revision, scan)
    ensures CHANNEL_MEMBER in scan.digests && scan.digests[CHANNEL_MEMBER] == h.sha(s.content[CHANNEL_PATH])
    ensures HEADERS_MEMBER in scan.digests && scan.digests[HEADERS_MEMBER] == h.sha(s.content[HEADERS_PATH])
  {
    hide MemberFor, ValidStage, MemberNames, AssetName, PortablePath, IsAsset;
    ControlNames();
    AssetContent(h, enc, s, revision, CHANNEL_PATH);
    AssetContent(h, enc, s, revision, HEADERS_PATH);
  }

  lemma ControlNames()
    ensures AssetName(HEADERS_PATH) == HEADERS_MEMBER && AssetName(CHANNEL_PATH) == CHANNEL_MEMBER
  {
    assert CHANNEL_PATH[1..] == ["production.json"];
    assert PathOrders.Name(CHANNEL_PATH) == "channels" + ['/'] + "production.json";
  }

  lemma ProvenanceCloses(h: Host, enc: Encoder, s: Stage, revision: string, scan: Scan)
    requires Buildable(s) && Ordinary(h) && ValidStage(h, s) && Knows(h, enc, s, revision, scan)
    requires HexDigits(revision, 40)
    ensures ProvenanceOk(h, ProvenanceFor(h, s, revision), ManifestFor(h, s), scan)
  {
    hide HexDigits, Knows, ManifestLines, ValidStage, Ordinary;
    ShaIsHex(h, s.content[CHANNEL_PATH]);
    ShaIsHex(h, s.content[HEADERS_PATH]);
    MaterialsClose(h, h.sha(s.content[CHANNEL_PATH]), h.sha(s.content[HEADERS_PATH]));
    ControlFilesKnown(h, enc, s, revision, scan);
  }

  // ---- The round trip ----

  lemma BuiltDocuments(h: Host, enc: Encoder, s: Stage, revision: string, scan: Scan)
    requires Buildable(s) && Knows(h, enc, s, revision, scan) && RoundTrips(h, enc, s, revision)
    ensures Documented(h, scan)
    ensures h.text(scan.retained[SUMS]).value == SumsText(h, enc, s, revision)
    ensures h.manifest(scan.retained[MANIFEST]).value == ManifestFor(h, s)
    ensures h.provenance(scan.retained[PROVENANCE]).value == ProvenanceFor(h, s, revision)
    ensures h.sbom(scan.retained[SBOM]).value == SbomFor(h, s)
  {
    hide MemberNames, MemberFor, SumsText, ManifestFor, ProvenanceFor, SbomFor;
    MetadataContent(h, enc, s, revision);
    assert IsMetadata(SUMS) && IsMetadata(MANIFEST) && IsMetadata(PROVENANCE) && IsMetadata(SBOM);
    forall n | n in METADATA_NAMES ensures n in scan.retained { assert IsMetadata(n); }
  }

  lemma ManifestHeader(h: Host, s: Stage)
    requires ValidStage(h, s)
    ensures ManifestHeaderOk(ManifestFor(h, s))
  {
    hide HexDigits, ManifestLines, PortablePath;
  }

  /** The archive built from a valid stage within the budgets passes the inspector exactly when no
      two of the stage's paths are ordered differently by component and by string. */
  lemma AcceptedIffOrdersAgree(h: Host, enc: Encoder, s: Stage, revision: string)
    requires Buildable(s) && Ordinary(h) && RoundTrips(h, enc, s, revision)
    requires ValidStage(h, s) && WithinBudgets(h, enc, s, revision) && HexDigits(revision, 40)
    ensures Accepted(h, Built(h, enc, s, revision)) <==> PathOrders.Agree(s.files)
  {
    hide Ordinary, ValidStage, WithinBudgets, HexDigits, Built, Knows, SumsClose, ProvenanceOk, StreamOk, RoundTrips,
      SumsText, SumLines, ProvenanceFor, LinesOk, LinesMap, ManifestLines, AssetsOf, PathOrders.Agree, METADATA_NAMES,
      SplitLines;
    var ms := Built(h, enc, s, revision);
    var scan := ScanOf(h, ms);
    BuiltStreams(h, enc, s, revision);
    BuiltScan(h, enc, s, revision);
    BuiltDocuments(h, enc, s, revision, scan);
    SumsRead(h, enc, s, revision);
    SumsCloseOnBuilt(h, enc, s, revision);
    ManifestHeader(h, s);
    LinesAscendIffOrdersAgree(h, s);
    ProvenanceCloses(h, enc, s, revision, scan);
    if LinesOk(ManifestLines(h, s)) {
      ManifestCloses(h, enc, s, revision, scan);
    }
  }

  lemma AssetsOfBuilt(h: Host, enc: Encoder, s: Stage, revision: string, m: Member) returns (p: Path)
    requires Buildable(s) && ValidStage(h, s) && m in Built(h, enc, s, revision) && IsAsset(m.name)
    ensures p in s.files && Relative(m) == p && m.content == s.content[p]
  {
    hide ValidStage, MemberNames, MemberFor, IsAsset, AssetName, PortablePath, Built, IsMetadata;
    BuiltOnly(h, enc, s, revision, m);
    p := NameIsAssetOrMetadata(h, s, m.name);
    if IsMetadata(m.name) { MetadataIsNoAsset(m.name); }
    AssetContent(h, enc, s, revision, p);
    AssetNameParts(p);
    assert (["assets"] + p)[1..] == p;
  }

  /** Extracting what was built gives back the stage, path for path and byte for byte. */
  lemma ExtractionUndoesBuild(h: Host, enc: Encoder, s: Stage, revision: string)
    requires Buildable(s) && Ordinary(h) && ValidStage(h, s) && WithinBudgets(h, enc, s, revision)
    ensures Nestable(Built(h, enc, s, revision))
    ensures AssetTree(Built(h, enc, s, revision)) == s.content
  {
    hide Ordinary, MemberOk, Built, IsAsset, AssetName, PortablePath, Relative, MemberFor, HexDigits, Ordered,
      WithinBudgets, AssetTree, Buildable, ValidStage;
    var ms := Built(h, enc, s, revision);
    BuiltStreams(h, enc, s, revision);
    BuiltNests(h, enc, s, revision);
    TreeHolds(ms);
    TreeContents(h, ms);
    forall p | p in AssetTree(ms) ensures p in s.content && AssetTree(ms)[p] == s.content[p] {
      var m :| m in ms && IsAsset(m.name) && Relative(m) == p;
      var q := AssetsOfBuilt(h, enc, s, revision, m);
      FilesHaveContent(h, s, q);
    }
    forall p | p in s.content ensures p in AssetTree(ms) {
      var m := BuiltFile(h, enc, s, revision, p);
    }
  }

  lemma FilesHaveContent(h: Host, s: Stage, p: Path)
    requires Buildable(s) && ValidStage(h, s) && p in s.files
    ensures p in s.content
  {
    hide PortablePath, HexDigits;
  }

  lemma BuiltNests(h: Host, enc: Encoder, s: Stage, revision: string)
    requires Buildable(s) && ValidStage(h, s)
    ensures Nestable(Built(h, enc, s, revision))
  {
    hide Built, IsAsset, PortablePath, Relative, HexDigits;
    var ms := Built(h, enc, s, revision);
    forall a, b | a in ms && b in ms && IsAsset(a.name) && IsAsset(b.name) ensures !(Relative(a) < Relative(b)) {
      var p := AssetsOfBuilt(h, enc, s, revision, a);
      var q := AssetsOfBuilt(h, enc, s, revision, b);
    }
  }

  lemma BuiltFile(h: Host, enc: Encoder, s: Stage, revision: string, p: Path) returns (m: Member)
    requires Buildable(s) && ValidStage(h, s) && p in s.content
    ensures m in Built(h, enc, s, revision) && IsAsset(m.name) && Relative(m) == p
  {
    hide ValidStage, MemberNames, IsAsset, AssetName, PortablePath, Relative, MemberFor, Built;
    m := MemberFor(h, enc, s, revision, AssetName(p));
    AssetContent(h, enc, s, revision, p);
    BuiltHas(h, enc, s, revision, AssetName(p));
    AssetNamesRelate(p, Relative(m), m);
  }

  lemma AssetNamesRelate(p: Path, q: Path, m: Member)
    requires PortablePath(p) && m.name == AssetName(p) && Relative(m) == q
    ensures p == q
  {
    AssetNameParts(p);
    assert (["assets"] + p)[1..] == p;
  }

  lemma BuiltIdentity(h: Host, enc: Encoder, s: Stage, revision: string)
    requires Buildable(s) && Ordinary(h) && ValidStage(h, s) && RoundTrips(h, enc, s, revision)
    ensures var ms := Built(h, enc, s, revision);
      Documented(h, ScanOf(h, ms)) &&
      IdentityOf(h, ms) == Identity(revision, h.stageReleases(s.content).0, h.stageReleases(s.content).1,
        h.stageDigest(s.content))
  {
    hide Ordinary, ValidStage, Built, Knows, RoundTrips, SumsText, ManifestLines, Documented;
    BuiltScan(h, enc, s, revision);
    BuiltDocuments(h, enc, s, revision, ScanOf(h, Built(h, enc, s, revision)));
  }

  lemma StageIsExpected(h: Host, s: Stage, revision: string, archiveSha256: string)
    requires ValidStage(h, s) && HexDigits(revision, 40) && HexDigits(archiveSha256, 64)
    ensures ExpectedOk(Expected(archiveSha256,
      Identity(revision, h.stageReleases(s.content).0, h.stageReleases(s.content).1, h.stageDigest(s.content))))
  {
    hide HexDigits;
  }

  /** Building and then restoring against the identities that were built: the stage comes back
      whole, or, when the two path orders disagree on it, the restore is refused. */
  method BuildThenRestore(h: Host, enc: Encoder, s: Stage, revision: string, archiveSha256: string)
    returns (r: Option<map<Path, Bytes>>)
    requires Buildable(s) && Ordinary(h) && RoundTrips(h, enc, s, revision) && !h.stageErrors(s.content)
    requires ValidStage(h, s) && WithinBudgets(h, enc, s, revision)
    requires HexDigits(revision, 40) && HexDigits(archiveSha256, 64)
    requires |enc.sbom(SbomFor(h, s))| <= MAX_ATTESTATION_PREDICATE_BYTES
    requires |enc.manifest(ManifestFor(h, s))| <= MAX_ARCHIVE_METADATA_BYTES
    requires |enc.provenance(ProvenanceFor(h, s, revision))| <= MAX_ARCHIVE_METADATA_BYTES
    ensures r == if PathOrders.Agree(s.files) then Some(s.content) else None
  {
    hide Ordinary, ValidStage, WithinBudgets, HexDigits, Built, RoundTrips, Accepted, Documented, IdentityOf,
      PathOrders.Agree,
      ExpectedOk, Nestable, ScanOf, SumsClose, SbomOk, HoldsExactly, Ordered, CaseDistinct, ManifestOf;
    assert HexDigits(h.stageReleases(s.content).0, 64) && HexDigits(h.stageReleases(s.content).1, 64) by {
      StageReleasesAreHex(h, s);
    }
    var built := BuildRecoveryArchive(h, enc, s, true, revision);
    var (current, previous) := h.stageReleases(s.content);
    var identity := Identity(revision, current, previous, h.stageDigest(s.content));
    AcceptedIffOrdersAgree(h, enc, s, revision);
    BuiltIdentity(h, enc, s, revision);
    ExtractionUndoesBuild(h, enc, s, revision);
    StageIsExpected(h, s, revision, archiveSha256);
    r := RestoreRecoveryArchive(h, built.value, "openopps-data-" + archiveSha256 + ".tar.gz", archiveSha256,
      Expected(archiveSha256, identity));
  }

  lemma StageReleasesAreHex(h: Host, s: Stage)
    requires ValidStage(h, s)
    ensures HexDigits(h.stageReleases(s.content).0, 64) && HexDigits(h.stageReleases(s.content).1, 64)
  {
    hide HexDigits;
  }

  /** A stage that holds a published release, with its first jobs and its detail ids, is built without
      complaint and then refused by the inspector. */
  lemma ReleasesAreRefused(h: Host, enc: Encoder, s: Stage, revision: string, release: Path)
    requires Buildable(s) && Ordinary(h) && RoundTrips(h, enc, s, revision)
    requires ValidStage(h, s) && WithinBudgets(h, enc, s, revision) && HexDigits(revision, 40)
    requires release + PathOrders.LATEST_JOBS in s.files && release + PathOrders.DETAIL_IDS in s.files
    ensures !PathOrders.Agree(s.files) && !Accepted(h, Built(h, enc, s, revision))
  {
    hide Ordinary, ValidStage, WithinBudgets, HexDigits, Built, RoundTrips, Accepted;
    AcceptedIffOrdersAgree(h, enc, s, revision);
    PathOrders.JobFilesInvert(release);
  }
}
