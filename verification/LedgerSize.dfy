/** The ledger of scripts/openopps_kaggle/publication.py has no bound on its own length when it is
    written: plans that can all be staged outgrow what loading accepts. */
module LedgerSize {
  import opened Ledger
  import opened KagglePublication
  import opened Hashing
  import opened Orders
  import opened Text
  import opened Wrappers
  import PathOrders

  // ---- What the stage of a runtime publication holds ----

  const METADATA_FILE := "dataset-metadata.json"
  const RUNTIME_MANIFEST_FILE := "runtime-manifest.json"
  const RUNTIME_GENERATOR_PACKAGE_DIR := "openopps_kaggle"

  predicate InPackage(path: string) {
    |Split('/', path)| >= 2 && Split('/', path)[0] == RUNTIME_GENERATOR_PACKAGE_DIR
  }

  /** The files that `verify_publication_stage` expects of a runtime stage: the two control files, and
      the files of the manifest, at least one and all below the package directory. */
  ghost predicate RuntimeStage(files: seq<FileItem>) {
    && METADATA_FILE in Paths(files) && RUNTIME_MANIFEST_FILE in Paths(files)
    && (exists i :: 0 <= i < |files| && InPackage(files[i].path))
    && (forall i | 0 <= i < |files| ::
      files[i].path == METADATA_FILE || files[i].path == RUNTIME_MANIFEST_FILE || InPackage(files[i].path))
    && (forall i, j | 0 <= i < j < |files| :: Lower(files[i].path) != Lower(files[j].path))
  }

  /** No component is longer than common file systems allow. */
  predicate ShortParts(path: string) { forall i | 0 <= i < |Split('/', path)| :: |Split('/', path)[i]| <= 255 }

  // ---- A wide stage ----

  function Repeat(c: char, n: nat): (s: string)
    ensures |s| == n && forall i | 0 <= i < n :: s[i] == c
  {
    if n == 0 then "" else [c] + Repeat(c, n - 1)
  }

  lemma {:induction false} RepeatAscends(c: char, m: nat, n: nat)
    requires m <= n
    ensures StringLeq(Repeat(c, m), Repeat(c, n))
  {
    if m > 0 {
      RepeatAscends(c, m - 1, n - 1);
      assert Repeat(c, m)[1..] == Repeat(c, m - 1) && Repeat(c, n)[1..] == Repeat(c, n - 1);
    }
  }

  function Folder(): string { Repeat('a', 250) }

  /** Below the package directory, three folders deep. */
  function Branch(): (s: string)
    ensures |s| == 769
  {
    RUNTIME_GENERATOR_PACKAGE_DIR + "/" + (Folder() + "/" + (Folder() + "/" + (Folder() + "/")))
  }

  /** The contents of the two control files. */
  datatype Controls = Controls(metadata: seq<int>, manifest: seq<int>)

  const PACKAGE_FILES: nat := MAX_KAGGLE_FILES - 2

  /** The package files are empty and have paths between 819 and 1016 bytes long. */
  function WidePath(i: nat): string { Branch() + Repeat('a', 49 + i) }

  function WideFile(c: Controls, i: nat): FileItem {
    if i == 0 then FileItem(METADATA_FILE, |c.metadata|, Sha256(c.metadata))
    else if i <= PACKAGE_FILES then FileItem(WidePath(i), 0, Sha256([]))
    else FileItem(RUNTIME_MANIFEST_FILE, |c.manifest|, Sha256(c.manifest))
  }

  function WideFiles(c: Controls): seq<FileItem> {
    seq(MAX_KAGGLE_FILES, i requires 0 <= i < MAX_KAGGLE_FILES => WideFile(c, i))
  }

  lemma NameIsPart(n: nat)
    requires 3 <= n
    ensures PartOk(Repeat('a', n)) && '/' !in Repeat('a', n)
  {
    hide Repeat;
    var s := Repeat('a', n);
    assert s[0] == 'a';
  }

  lemma PackageDirIsPart()
    ensures PartOk(RUNTIME_GENERATOR_PACKAGE_DIR) && '/' !in RUNTIME_GENERATOR_PACKAGE_DIR
    ensures |RUNTIME_GENERATOR_PACKAGE_DIR| == 15
  {
  }

  lemma WideSplits(i: nat)
    ensures Split('/', WidePath(i))
      == [RUNTIME_GENERATOR_PACKAGE_DIR, Folder(), Folder(), Folder(), Repeat('a', 49 + i)]
  {
    hide Repeat, Split, PartOk, RUNTIME_GENERATOR_PACKAGE_DIR;
    var last := Repeat('a', 49 + i);
    NameIsPart(250);
    NameIsPart(49 + i);
    PackageDirIsPart();
    var third := Folder() + "/" + last;
    var second := Folder() + "/" + third;
    var first := Folder() + "/" + second;
    SplitWithoutSeparator('/', last);
    SplitAtSeparator('/', Folder(), last);
    SplitAtSeparator('/', Folder(), third);
    SplitAtSeparator('/', Folder(), second);
    SplitAtSeparator('/', RUNTIME_GENERATOR_PACKAGE_DIR, first);
    assert WidePath(i) == RUNTIME_GENERATOR_PACKAGE_DIR + "/" + first;
  }

  lemma WidePathIsOk(i: nat)
    requires 1 <= i <= PACKAGE_FILES
    ensures PathOk(WidePath(i)) && InPackage(WidePath(i)) && ShortParts(WidePath(i))
    ensures 819 <= |WidePath(i)|
  {
    hide Repeat, Split, PartOk, RUNTIME_GENERATOR_PACKAGE_DIR;
    WideSplits(i);
    NameIsPart(250);
    NameIsPart(49 + i);
    PackageDirIsPart();
  }

  lemma MetadataPathIsOk()
    ensures PathOk(METADATA_FILE) && ShortParts(METADATA_FILE) && METADATA_FILE[0] == 'd'
  {
    hide Split;
    SplitWithoutSeparator('/', METADATA_FILE);
  }

  lemma ManifestPathIsOk()
    ensures PathOk(RUNTIME_MANIFEST_FILE) && ShortParts(RUNTIME_MANIFEST_FILE) && RUNTIME_MANIFEST_FILE[0] == 'r'
  {
    hide Split;
    SplitWithoutSeparator('/', RUNTIME_MANIFEST_FILE);
  }

  lemma WideHead(c: Controls, i: nat)
    requires i < MAX_KAGGLE_FILES
    ensures WideFile(c, i).path != [] && PathOk(WideFile(c, i).path) && ShortParts(WideFile(c, i).path)
    ensures WideFile(c, i).path[0] == if i == 0 then 'd' else if i <= PACKAGE_FILES then 'o' else 'r'
  {
    hide PathOk, ShortParts, Repeat;
    if 1 <= i <= PACKAGE_FILES { WidePathIsOk(i); }
    MetadataPathIsOk();
    ManifestPathIsOk();
    assert RUNTIME_GENERATOR_PACKAGE_DIR[0] == 'o';
  }

  lemma HeadsDecide(a: string, b: string)
    requires a != [] && b != [] && a[0] < b[0]
    ensures StringLeq(a, b) && a != b
    ensures 'a' <= a[0] && 'a' <= b[0] ==> Lower(a) != Lower(b)
  {
    if 'a' <= a[0] && 'a' <= b[0] { assert Lower(a)[0] == a[0] && Lower(b)[0] == b[0]; }
  }

  lemma WideAscends(c: Controls, i: nat, j: nat)
    requires i < j < MAX_KAGGLE_FILES
    ensures var a, b := WideFile(c, i).path, WideFile(c, j).path;
      StringLeq(a, b) && a != b && Lower(a) != Lower(b)
  {
    hide StringLeq, PathOk, ShortParts, Repeat, Branch, METADATA_FILE, RUNTIME_MANIFEST_FILE;
    WideHead(c, i);
    WideHead(c, j);
    if 1 <= i && j <= PACKAGE_FILES {
      RepeatAscends('a', 49 + i, 49 + j);
      PathOrders.CommonPrefix(Branch(), Repeat('a', 49 + i), Repeat('a', 49 + j));
      assert |Lower(WidePath(i))| < |Lower(WidePath(j))|;
    } else {
      HeadsDecide(WideFile(c, i).path, WideFile(c, j).path);
    }
  }

  lemma WideFilesAreOk(c: Controls)
    ensures FilesOk(WideFiles(c)) && RuntimeStage(WideFiles(c))
    ensures forall i | 0 <= i < |WideFiles(c)| :: ShortParts(WideFiles(c)[i].path)
  {
    hide PathOk, ShortParts, StringLeq, WidePath, InPackage, Lower;
    var files := WideFiles(c);
    forall i | 0 <= i < |files| ensures PathOk(files[i].path) && ShortParts(files[i].path) { WideHead(c, i); }
    forall i | 1 <= i <= PACKAGE_FILES ensures InPackage(files[i].path) { WidePathIsOk(i); }
    forall i, j | 0 <= i < j < |files|
      ensures StringLeq(Paths(files)[i], Paths(files)[j]) && files[i].path != files[j].path
      ensures Lower(files[i].path) != Lower(files[j].path)
    {
      WideAscends(c, i, j);
    }
    assert Paths(files)[0] == METADATA_FILE && Paths(files)[MAX_KAGGLE_FILES - 1] == RUNTIME_MANIFEST_FILE;
    assert InPackage(files[1].path);
  }

  // ---- A wide ledger ----

  function WidePlan(c: Controls, k: nat): Plan {
    Plan(Runtime, Create, Sha256(WideFiles(c)), None, 1, Sha256(Repeat('m', k + 1)))
  }

  /** A staged first publication with a message of its own. */
  function WideEntry(c: Controls, k: nat): Entry {
    Entry(PlanSha256(WidePlan(c, k)), 0, WidePlan(c, k), k + 1, WideFiles(c), Staged,
      Commands(Cli, Runtime, Create, None, 1), None, None)
  }

  const WIDE_ENTRIES: nat := 52

  function WideLedger(c: Controls, n: nat): seq<Entry> {
    if n == 0 then [] else WideLedger(c, n - 1) + [WideEntry(c, n - 1)]
  }

  function PathBytes(files: seq<FileItem>): nat {
    if files == [] then 0 else PathBytes(files[..|files| - 1]) + |files[|files| - 1].path|
  }

  /** Every path is written out in full, one byte a character. */
  function AllPathBytes(entries: seq<Entry>): nat {
    if entries == [] then 0 else AllPathBytes(entries[..|entries| - 1]) + PathBytes(entries[|entries| - 1].files)
  }

  lemma {:induction false} PathBytesAtLeast(files: seq<FileItem>, width: nat)
    requires files != [] && forall i | 1 <= i < |files| :: |files[i].path| >= width
    ensures PathBytes(files) >= (|files| - 1) * width
  {
    if |files| > 1 {
      var last := |files| - 1;
      PathBytesAtLeast(files[..last], width);
      assert last * width == (last - 1) * width + width;
    }
  }

  lemma WideEntryIsLong(c: Controls, k: nat)
    ensures PathBytes(WideEntry(c, k).files) >= 162_162
  {
    hide Repeat, WidePath, METADATA_FILE, RUNTIME_MANIFEST_FILE;
    var files := WideFiles(c);
    var packaged := files[..MAX_KAGGLE_FILES - 1];
    forall i | 1 <= i < |packaged| ensures |packaged[i].path| >= 819 { WidePathIsOk(i); }
    PathBytesAtLeast(packaged, 819);
    assert PathBytes(files) == PathBytes(packaged) + |files[MAX_KAGGLE_FILES - 1].path|;
  }

  lemma {:induction false} WideLedgerHolds(c: Controls, n: nat)
    ensures |WideLedger(c, n)| == n && forall k | 0 <= k < n :: WideLedger(c, n)[k] == WideEntry(c, k)
  {
    hide WideEntry;
    if n > 0 { WideLedgerHolds(c, n - 1); }
  }

  lemma AllPathBytesOneMore(entries: seq<Entry>, e: Entry)
    ensures AllPathBytes(entries + [e]) == AllPathBytes(entries) + PathBytes(e.files)
  {
    hide PathBytes;
    assert (entries + [e])[..|entries|] == entries;
  }

  lemma {:induction false} WideLedgerIsLong(c: Controls, n: nat)
    ensures AllPathBytes(WideLedger(c, n)) >= n * 162_162
  {
    hide WideEntry, PathBytes, AllPathBytes;
    if n > 0 {
      WideLedgerIsLong(c, n - 1);
      AllPathBytesOneMore(WideLedger(c, n - 1), WideEntry(c, n - 1));
      WideEntryIsLong(c, n - 1);
    }
  }

  lemma WideEntryIsOk(c: Controls, k: nat)
    requires k < 200
    ensures PlanOk(WideEntry(c, k)) && EntryOk(WideEntry(c, k))
  {
    hide FilesOk, WideFiles, RuntimeStage, ShortParts, Repeat;
    WideFilesAreOk(c);
  }

  lemma WideEntriesDiffer(c: Controls, i: nat, j: nat)
    requires i != j
    ensures WideEntry(c, i).planId != WideEntry(c, j).planId
  {
    hide WideFiles;
    assert |WideEntry(c, i).plan.message.preimage| == i + 1 && |WideEntry(c, j).plan.message.preimage| == j + 1;
  }

  lemma WideLedgerIsOk(c: Controls, n: nat)
    requires n <= MAX_LEDGER_ENTRIES
    ensures EntriesOk(WideLedger(c, n))
  {
    hide EntryOk, PlanOk, WideLedger, WideEntry;
    WideLedgerHolds(c, n);
    forall k | 0 <= k < n ensures EntryOk(WideLedger(c, n)[k]) { WideEntryIsOk(c, k); }
    forall i, j | 0 <= i < j < n ensures WideLedger(c, n)[i].planId != WideLedger(c, n)[j].planId {
      WideEntriesDiffer(c, i, j);
    }
  }

  /** Upserts lead there, one plan at a time. */
  lemma WideLedgerIsReached(c: Controls, n: nat)
    requires n < MAX_LEDGER_ENTRIES
    ensures Upserted(WideLedger(c, n), WideEntry(c, n)) == WideLedger(c, n + 1)
  {
    hide Others, WideEntry;
    WideLedgerHolds(c, n);
    var entries := WideLedger(c, n);
    forall i | 0 <= i < n ensures entries[i].planId != WideEntry(c, n).planId {
      WideEntriesDiffer(c, i, n);
    }
    OthersWithout(entries, WideEntry(c, n).planId);
  }

  /** Every encoding that writes paths out is too long for the last of them. */
  lemma ValidEntriesOutgrowTheFile(c: Controls, size: seq<Entry> -> nat)
    requires size(WideLedger(c, WIDE_ENTRIES)) >= AllPathBytes(WideLedger(c, WIDE_ENTRIES))
    ensures EntriesOk(WideLedger(c, WIDE_ENTRIES)) && RuntimeStage(WideFiles(c))
    ensures Loaded(Stored(WideLedger(c, WIDE_ENTRIES)), size).None?
  {
    hide EntriesOk, WideLedger, AllPathBytes, RuntimeStage, WideFiles, FilesOk;
    WideFilesAreOk(c);
    WideLedgerIsOk(c, WIDE_ENTRIES);
    WideLedgerIsLong(c, WIDE_ENTRIES);
  }

  // ---- Calls that lead there ----

  function CalmWorld(): World { World(Fine, Fine, Fine, Fine, Fine, Fine, Fine, 0, phase => Written) }

  /** Nothing there yet, or the first of the wide plans. */
  ghost predicate HoldsWide(file: LedgerFile, c: Controls, n: nat) {
    if n == 0 then file.Missing? else file == Stored(WideLedger(c, n))
  }

  /** The dry run of the next wide plan. */
  method DryRun(ledger: LedgerOnDisk, c: Controls, k: nat)
    requires k < WIDE_ENTRIES && (ledger.Entries().Some? ==> HoldsWide(ledger.file, c, k))
    modifies ledger
    ensures old(ledger.Entries()).None? ==> ledger.file == old(ledger.file)
    ensures old(ledger.Entries()).Some? ==> ledger.file == Stored(WideLedger(c, k + 1))
  {
    hide EntryOk, PlanOk, Upserted, WideLedger, WideEntry, EntriesOk, Fate, Settles, Smooth, Fits, Path;
    ledger.trace := [];
    WideIsStaged(c, k);
    WideEntryIsOk(c, k);
    WideLedgerIsReached(c, k);
    EmptyWide(c);
    ghost var written: Option<Entry>;
    var raised;
    raised, written := PreparePublication(ledger, WideEntry(c, k), false, CalmWorld());
  }

  /** Dry runs of valid runtime plans, in which nothing raises for any other reason, leave a ledger
      that no longer loads. */
  method DryRunsLoseTheLedger(ledger: LedgerOnDisk, c: Controls)
    requires ledger.file.Missing?
    requires forall entries :: ledger.size(entries) >= AllPathBytes(entries)
    modifies ledger
    ensures ledger.file.Stored? && ledger.Entries().None?
  {
    hide WideLedger, AllPathBytes, EntriesOk;
    for k := 0 to WIDE_ENTRIES
      invariant ledger.Entries().None? ==> ledger.file.Stored?
      invariant ledger.Entries().Some? ==> HoldsWide(ledger.file, c, k)
    {
      DryRun(ledger, c, k);
    }
    ValidEntriesOutgrowTheFile(c, ledger.size);
  }

  lemma WideIsStaged(c: Controls, k: nat)
    ensures WideEntry(c, k) == InPhase(WideEntry(c, k), Staged)
  {
  }

  lemma EmptyWide(c: Controls)
    ensures WideLedger(c, 0) == []
  {
  }

  // ---- A cleanup that raises after the readback ----

  lemma {:induction false} PathBytesAtMost(files: seq<FileItem>)
    requires forall i | 0 <= i < |files| :: |files[i].path| <= MAX_PATH
    ensures PathBytes(files) <= |files| * MAX_PATH
  {
    if files != [] { PathBytesAtMost(files[..|files| - 1]); }
  }

  /** One wide entry, in any phase, is short enough. */
  lemma OneEntryFits(e: Entry)
    requires FilesOk(e.files)
    ensures Upserted([], e) == [e] && AllPathBytes([e]) <= MAX_LEDGER_BYTES
  {
    hide StringLeq;
    PathBytesAtMost(e.files);
    assert [e][..0] == [];
  }

  /** Everything succeeds until the candidate directory is removed. */
  function UntidyWorld(): World {
    CalmWorld().(cleanup := Raises(Error("OSError", true)))
  }

  /** The publication raises, and the ledger it leaves loads and says verified. */
  method UntidyPublication(c: Controls) returns (ledger: LedgerOnDisk, raised: Option<Error>)
    ensures fresh(ledger) && raised.Some?
    ensures ledger.Entries().Some? && |ledger.Entries().value| == 1
    ensures ledger.Entries().value[0].phase == ReadbackVerified
  {
    hide EntryOk, PlanOk, Upserted, WideEntry, AllPathBytes, EntriesOk, Path;
    var entry := WideEntry(c, 0);
    WideIsStaged(c, 0);
    WideEntryIsOk(c, 0);
    ledger := new LedgerOnDisk(Missing, entries => AllPathBytes(entries));
    WideEntryFits(c, ledger.size);
    CleanupAfterReadback(entry.plan.action, UntidyWorld());
    ghost var written: Option<Entry>;
    raised, written := PreparePublication(ledger, entry, true, UntidyWorld());
    WrittenFits(written.value);
  }

  lemma WideEntryFits(c: Controls, size: seq<Entry> -> nat)
    requires forall entries :: size(entries) == AllPathBytes(entries)
    ensures Loaded(Missing, size) == Some([])
    ensures Smooth(size, Missing, WideEntry(c, 0), UntidyWorld())
  {
    hide AllPathBytes, FilesOk, WideFiles, Upserted, EntryOk, PlanOk;
    WideFilesAreOk(c);
    OneEntryFits(InPhase(WideEntry(c, 0), Staged));
    OneEntryFits(InPhase(WideEntry(c, 0), Mutated));
  }

  lemma WrittenFits(e: Entry)
    requires EntryOk(e)
    ensures Upserted([], e) == [e] && AllPathBytes([e]) <= MAX_LEDGER_BYTES
  {
    OneEntryFits(e);
  }
}
