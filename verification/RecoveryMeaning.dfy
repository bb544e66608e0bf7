/** What an accepted recovery archive holds and what restoring it writes, in plain terms
    (scripts/docs_search_delivery.py). */
module RecoveryMeaning {
  import opened Orders
  import opened RecoveryArchive
  import opened RecoveryRestore
  import opened Wrappers
  import Text

  predicate Hex(s: string, digits: nat) {
    |s| == digits && forall i | 0 <= i < |s| :: s[i] in "0123456789abcdef"
  }

  lemma HexMeans(s: string, digits: nat)
    ensures HexDigits(s, digits) <==> Hex(s, digits)
  {
    assert forall c: char :: c in "0123456789abcdef" <==> '0' <= c <= '9' || 'a' <= c <= 'f';
  }

  /** What ends a line of text. */
  predicate Ends(c: char) { c in "\n\r\U{0B}\U{0C}\U{1C}\U{1D}\U{1E}\U{85}\U{2028}\U{2029}" }

  lemma EndsAre(c: char)
    ensures Ends(c) <==> LineBreak(c)
  {
  }

  lemma BreakStep(before: string, c: char, rest: string)
    requires Ends(c)
    ensures SplitLines(before, [c] + rest)
      == [before] + SplitLines("", if c == '\r' && rest != "" && rest[0] == '\n' then rest[1..] else rest)
  {
    hide LineBreak, Ends;
    EndsAre(c);
    var s := [c] + rest;
    assert s[1..] == rest;
    if rest != "" { assert s[2..] == rest[1..]; }
  }

  lemma PlainStep(before: string, c: char, rest: string)
    requires !Ends(c)
    ensures SplitLines(before, [c] + rest) == SplitLines(before + [c], rest)
  {
    hide LineBreak;
    EndsAre(c);
    assert ([c] + rest)[1..] == rest;
  }

  /** Text is cut at every line break, a carriage return with a line feed counting as one. */
  lemma {:induction false} LinesDivide(before: string, line: string, c: char, rest: string)
    requires Ends(c) && forall i | 0 <= i < |line| :: !Ends(line[i])
    ensures SplitLines(before, line + ([c] + rest)) == [before + line] +
      SplitLines("", if c == '\r' && rest != "" && rest[0] == '\n' then rest[1..] else rest)
    decreases line
  {
    hide Ends, SplitLines;
    if line == [] {
      BreakStep(before, c, rest);
      assert line + ([c] + rest) == [c] + rest && before + line == before;
    } else {
      PlainStep(before, line[0], line[1..] + ([c] + rest));
      LinesDivide(before + [line[0]], line[1..], c, rest);
      assert line + ([c] + rest) == [line[0]] + (line[1..] + ([c] + rest));
      assert before + [line[0]] + line[1..] == before + line;
    }
  }

  /** A last line needs no break, and an empty one is none. */
  lemma {:induction false} LastLine(before: string, line: string)
    requires forall i | 0 <= i < |line| :: !Ends(line[i])
    ensures SplitLines(before, line) == if before + line == "" then [] else [before + line]
    decreases line
  {
    hide Ends, SplitLines;
    if line == [] {
      NothingLeft(before);
      assert before + line == before;
    } else {
      PlainStep(before, line[0], line[1..]);
      LastLine(before + [line[0]], line[1..]);
      assert line == [line[0]] + line[1..];
      assert before + [line[0]] + line[1..] == before + line;
    }
  }

  lemma NothingLeft(before: string)
    ensures SplitLines(before, "") == if before == "" then [] else [before]
  {
  }

  /** A checksum line is a digest, two blanks and a name. */
  lemma {:induction false} PartitionJoins(line: string)
    requires Partition(line).Some?
    ensures var s := Partition(line).value; line == s.digest + "  " + s.name
  {
    if line[0] == ' ' && line[1] == ' ' {
      assert line == "" + "  " + line[2..];
    } else {
      PartitionJoins(line[1..]);
      assert line == [line[0]] + line[1..];
    }
  }

  /** The line that vouches for a member. */
  function Vouch(h: Host, m: Member): string { h.sha(m.content) + "  " + m.name }

  /** Each member but the list itself has its own line, digest first, and there is no other line. */
  ghost predicate Vouched(h: Host, ms: seq<Member>, lines: seq<string>) {
    && (forall m | m in ms && m.name != "SHA256SUMS" :: Hex(h.sha(m.content), 64) && Vouch(h, m) in lines)
    && (forall line | line in lines :: exists m :: m in ms && m.name != "SHA256SUMS" && line == Vouch(h, m))
    && (forall i, j | 0 <= i < j < |lines| :: lines[i] != lines[j])
  }

  lemma SumsMean(h: Host, ms: seq<Member>, lines: seq<string>)
    requires Ordered(ms) && SumsClose(lines, ScanOf(h, ms))
    ensures Vouched(h, ms, lines)
  {
    hide Partition, HexDigits, Hex, StrictlyBefore, IsMetadata, ScanOf;
    ScanLists(h, ms);
    var digests := ScanOf(h, ms).digests;
    forall line | line in lines
      ensures exists m :: m in ms && m.name != "SHA256SUMS" && line == Vouch(h, m)
    {
      PartitionJoins(line);
      assert SumName(line) in digests && digests[SumName(line)] == SumDigest(line);
      var m :| m in ms && m.name == SumName(line);
      assert line == Vouch(h, m);
    }
    forall m | m in ms && m.name != "SHA256SUMS" ensures Hex(h.sha(m.content), 64) && Vouch(h, m) in lines {
      assert m.name in digests.Keys - {SUMS};
      var line :| line in lines && SumName(line) == m.name;
      PartitionJoins(line);
      HexMeans(h.sha(m.content), 64);
    }
  }

  /** The manifest lists every asset once, with its true length and digest, in ascending order of names,
      and nothing else. */
  ghost predicate Listed(h: Host, ms: seq<Member>, files: seq<FileLine>) {
    && (forall m | m in ms && "assets/" <= m.name :: FileLine(m.name, |m.content|, h.sha(m.content)) in files)
    && (forall l | l in files ::
      exists m :: m in ms && "assets/" <= m.name && l == FileLine(m.name, |m.content|, h.sha(m.content)))
    && (forall i, j | 0 <= i < j < |files| :: Before(files[i].path, files[j].path))
  }

  /** The bytes of the listed files, from the front. */
  function ByteSum(files: seq<FileLine>): int { if files == [] then 0 else files[0].bytes + ByteSum(files[1..]) }

  lemma {:induction false} ByteSumLast(files: seq<FileLine>)
    requires files != []
    ensures ByteSum(files) == ByteSum(files[..|files| - 1]) + files[|files| - 1].bytes
  {
    if |files| > 1 {
      ByteSumLast(files[1..]);
      assert files[1..][..|files| - 2] == files[..|files| - 1][1..];
    }
  }

  lemma {:induction false} TotalIsByteSum(files: seq<FileLine>)
    ensures TotalBytes(files) == ByteSum(files)
  {
    if files != [] {
      TotalIsByteSum(files[..|files| - 1]);
      ByteSumLast(files);
    }
  }

  lemma LinesMean(h: Host, ms: seq<Member>, files: seq<FileLine>)
    requires Ordered(ms) && EachMemberOk(h, ms)
    requires LinesOk(files) && LinesMap(files) == AssetsOf(ScanOf(h, ms))
    ensures Listed(h, ms, files)
  {
    hide LineOk, MemberOk, StrictlyBefore, IsMetadata, ScanOf, LinesMap;
    ScanLists(h, ms);
    LinesMapLists(files);
    forall l | l in files
      ensures exists m :: m in ms && "assets/" <= m.name && l == FileLine(m.name, |m.content|, h.sha(m.content))
    {
      var m := MemberOfLine(h, ms, l);
      assert l == FileLine(m.name, |m.content|, h.sha(m.content));
    }
    forall m | m in ms && "assets/" <= m.name
      ensures FileLine(m.name, |m.content|, h.sha(m.content)) in files
    {
      assert m.name in AssetsOf(ScanOf(h, ms));
      var l :| l in files && l.path == m.name;
      var i :| 0 <= i < |ms| && ms[i] == m;
      assert |ms[i].content| == ms[i].size;
    }
    forall i, j | 0 <= i < j < |files| ensures Before(files[i].path, files[j].path) {
      StrictIsBefore(files[i].path, files[j].path);
    }
  }

  lemma StrictIsBefore(a: string, b: string)
    ensures StrictlyBefore(a, b) ==> Before(a, b)
  {
    StringLeqMeans(a, b);
  }

  /** The provenance is of this schema, revision and stage, and gives the digests of the two control files
      and of the five pinned tools. */
  ghost predicate Attested(h: Host, ms: seq<Member>, p: Provenance, b: BundleManifest) {
    && p.schemaVersion == 1 && p.createdAtIsCanonical && Hex(p.sourceRevision, 40)
    && p.currentReleaseId == b.currentReleaseId && p.previousReleaseId == b.previousReleaseId
    && p.stageRootDigest == b.stageRootDigest && p.wranglerVersion == h.wranglerVersion
    && p.materials.Keys ==
      {DeliveryScript, ProductionConfig, StagingConfig, WebLock, WebPackage, ChannelPointer, Headers}
    && (forall tool | tool in h.tools :: tool in p.materials && p.materials[tool] == h.tools[tool])
    && (exists m ::
      m in ms && m.name == "assets/channels/production.json" && p.materials[ChannelPointer] == h.sha(m.content))
    && (exists m :: m in ms && m.name == "assets/_headers" && p.materials[Headers] == h.sha(m.content))
    && (forall name | name in p.materials :: Hex(p.materials[name], 64))
  }

  lemma ProvenanceMeans(h: Host, ms: seq<Member>, p: Provenance, b: BundleManifest)
    requires Ordered(ms) && ProvenanceOk(h, p, b, ScanOf(h, ms))
    ensures Attested(h, ms, p, b)
  {
    hide HexDigits, Hex, StrictlyBefore, IsMetadata, ScanOf;
    ScanLists(h, ms);
    HexMeans(p.sourceRevision, 40);
    forall name | name in p.materials ensures Hex(p.materials[name], 64) { HexMeans(p.materials[name], 64); }
  }

  /** The SPDX document repeats the list, file by file, numbered from one. */
  ghost predicate Described(s: Sbom, b: BundleManifest) {
    && s.stageRootDigest == b.stageRootDigest && |s.files| == |b.files|
    && forall i | 0 <= i < |b.files| ::
      && s.files[i].index == i + 1 && s.files[i].name == b.files[i].path && s.files[i].checksum == b.files[i].sha256
  }

  /** The content of the one member of that name. */
  ghost predicate Content(ms: seq<Member>, name: string, content: seq<bv8>) {
    exists m :: m in ms && m.name == name && m.content == content
  }

  lemma RetainedIsContent(h: Host, ms: seq<Member>, name: string)
    requires Ordered(ms) && IsMetadata(name) && name in ScanOf(h, ms).retained
    ensures Content(ms, name, ScanOf(h, ms).retained[name])
  {
    hide StrictlyBefore, IsMetadata, ScanOf;
    ScanLists(h, ms);
    var m :| m in ms && m.name == name;
  }

  /** The manifest names two releases and a stage and lists the assets. */
  ghost predicate Manifested(h: Host, ms: seq<Member>, b: BundleManifest) {
    && b.schemaVersion == 1 && Hex(b.currentReleaseId, 64) && Hex(b.previousReleaseId, 64)
    && b.currentReleaseId != b.previousReleaseId && Hex(b.stageRootDigest, 64)
    && Listed(h, ms, b.files) && b.fileCount == |b.files| && b.totalBytes == ByteSum(b.files)
  }

  /** The four documents are among the members and say this of them. */
  ghost predicate Documents(h: Host, ms: seq<Member>, sums: string, b: BundleManifest, p: Provenance, s: Sbom) {
    && (exists c :: Content(ms, "SHA256SUMS", c) && h.text(c) == Some(sums))
    && (exists c :: Content(ms, "bundle-manifest.json", c) && h.manifest(c) == Some(b))
    && (exists c :: Content(ms, "provenance.json", c) && h.provenance(c) == Some(p))
    && (exists c :: Content(ms, "sbom.spdx.json", c) && h.sbom(c) == Some(s))
    && Vouched(h, ms, SplitLines("", sums)) && Manifested(h, ms, b) && Attested(h, ms, p, b) && Described(s, b)
  }

  /** An accepted archive vouches for its members, lists its assets, attests its origin and describes its
      files: two releases, a stage, and everything in it under its true digest. */
  lemma AcceptedMeans(h: Host, ms: seq<Member>)
    requires Accepted(h, ms)
    ensures exists sums, b, p, s :: Documents(h, ms, sums, b, p, s)
  {
    hide StreamOk, SumsClose, ProvenanceOk, LinesOk, LinesMap, AssetsOf, ScanOf, HexDigits, Hex, Vouched, Attested,
      Listed, Content, SplitLines;
    assert StreamOk(h, ms);
    StreamIsOrdered(h, ms);
    var scan := ScanOf(h, ms);
    assert IsMetadata(SUMS) && IsMetadata(MANIFEST) && IsMetadata(SBOM) && IsMetadata(PROVENANCE);
    RetainedIsContent(h, ms, SUMS);
    RetainedIsContent(h, ms, MANIFEST);
    RetainedIsContent(h, ms, SBOM);
    RetainedIsContent(h, ms, PROVENANCE);
    var sums, b := h.text(scan.retained[SUMS]).value, h.manifest(scan.retained[MANIFEST]).value;
    var p, sbom := h.provenance(scan.retained[PROVENANCE]).value, h.sbom(scan.retained[SBOM]).value;
    SumsMean(h, ms, SplitLines("", sums));
    LinesMean(h, ms, b.files);
    TotalIsByteSum(b.files);
    ProvenanceMeans(h, ms, p, b);
    HexMeans(b.currentReleaseId, 64);
    HexMeans(b.previousReleaseId, 64);
    HexMeans(b.stageRootDigest, 64);
    assert Documents(h, ms, sums, b, p, sbom);
  }

  lemma StreamIsOrdered(h: Host, ms: seq<Member>)
    requires StreamOk(h, ms)
    ensures Ordered(ms) && EachMemberOk(h, ms)
  {
  }

  /** The restored tree holds the content of every member below `assets/`, at its name without that folder,
      and nothing else. */
  lemma TreeMeans(h: Host, ms: seq<Member>)
    requires StreamOk(h, ms)
    ensures forall m | m in ms && "assets/" <= m.name ::
      var p := Text.Split('/', m.name)[1..];
      p in AssetTree(ms) && AssetTree(ms)[p] == m.content
    ensures forall p | p in AssetTree(ms) ::
      exists m :: m in ms && m.name == "assets/" + Text.Join('/', p) && m.content == AssetTree(ms)[p]
  {
    hide StreamOk, MemberOk, Relative, AssetTree;
    StreamIsOrdered(h, ms);
    TreeHolds(ms);
    TreeContents(h, ms);
    forall m: Member ensures Relative(m) == Text.Split('/', m.name)[1..] { RelativeIs(m); }
    forall p | p in AssetTree(ms)
      ensures exists m :: m in ms && m.name == "assets/" + Text.Join('/', p) && m.content == AssetTree(ms)[p]
    {
      var m :| m in ms && IsAsset(m.name) && Relative(m) == p;
      AssetJoins(m.name);
    }
  }

  lemma RelativeIs(m: Member)
    ensures Relative(m) == Text.Split('/', m.name)[1..]
  {
  }

  lemma AssetJoins(name: string)
    requires "assets/" <= name
    ensures name == "assets/" + Text.Join('/', Text.Split('/', name)[1..])
  {
    hide Text.Split, Text.Join;
    assert name == "assets" + ['/'] + name[7..];
    Text.SplitAtSeparator('/', "assets", name[7..]);
    Text.JoinUndoesSplit('/', name[7..]);
  }
}
