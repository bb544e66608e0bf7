/** The publication ledger (scripts/openopps_kaggle/publication.py): what an entry must satisfy,
    loading, and the bounded upsert. */
module Ledger {
  import opened Hashing
  import opened Orders
  import opened Text
  import opened Wrappers

  const MAX_LEDGER_ENTRIES: nat := 100
  const MAX_LEDGER_BYTES: nat := 8 * 1024 * 1024
  const MAX_KAGGLE_FILES: nat := 200
  const MAX_PATH: nat := 1024

  datatype Kind = Public | Runtime
  datatype Action = Create | Version
  datatype Phase = Staged | PreflightVerified | Mutated | ReadbackVerified | PreflightFailed | ReadbackFailed

  datatype FileItem = FileItem(path: string, size: int, sha256: Digest<seq<int>>)

  /** What the plan id is the digest of; the data set follows from the kind. */
  datatype Plan = Plan(kind: Kind, action: Action, bundle: Digest<seq<FileItem>>, current: Option<int>, published: int,
    message: Digest<string>)

  /** SHA-256 of the canonical JSON of a plan, idealised. */
  datatype PlanId = PlanSha256(plan: Plan)

  datatype HandleStyle = Cli | LegacyUrl
  datatype Commands = Commands(style: HandleStyle, kind: Kind, action: Action, current: Option<int>, published: int)

  datatype Readback = Readback(version: int, bundle: Digest<seq<FileItem>>, fileCount: int, totalBytes: int,
      verifiedAt: int)

  datatype Entry = Entry(planId: PlanId, recordedAt: int, plan: Plan, messageBytes: int, files: seq<FileItem>,
    phase: Phase, commands: Commands, readback: Option<Readback>, error: Option<string>)

  // ---- One entry ----

  predicate PartOk(part: string) {
    && part != "" && part != "." && part != ".."
    && forall i | 0 <= i < |part| :: part[i] < 128 as char && part[i] !in {'\\', '\0', '%', ':'}
  }

  predicate PathOk(path: string) {
    |path| <= MAX_PATH && forall i | 0 <= i < |Split('/', path)| :: PartOk(Split('/', path)[i])
  }

  function Paths(files: seq<FileItem>): seq<string> {
    seq(|files|, i requires 0 <= i < |files| => files[i].path)
  }

  ghost predicate FilesOk(files: seq<FileItem>) {
    && 1 <= |files| <= MAX_KAGGLE_FILES
    && (forall i | 0 <= i < |files| :: PathOk(files[i].path) && files[i].size >= 0)
    && (forall i, j | 0 <= i < j < |files| :: files[i].path != files[j].path)
    && Ascending(StringLeq, Paths(files))
  }

  function TotalSize(files: seq<FileItem>): int {
    if files == [] then 0 else TotalSize(files[..|files| - 1]) + files[|files| - 1].size
  }

  predicate VersionsOk(action: Action, current: Option<int>, published: int) {
    && (current.Some? ==> current.value >= 1)
    && (action.Create? ==> current.None? && published == 1)
    && (action.Version? ==> current.Some? && published == current.value + 1)
  }

  predicate Letter(c: char) { 'A' <= c <= 'Z' || 'a' <= c <= 'z' }

  predicate TypeNameOk(name: string) {
    && 1 <= |name| <= 80 && Letter(name[0])
    && forall i | 1 <= i < |name| :: Letter(name[i]) || '0' <= name[i] <= '9' || name[i] == '_'
  }

  predicate Failed(phase: Phase) { phase.PreflightFailed? || phase.ReadbackFailed? }

  predicate ReadbackOk(e: Entry) {
    && (e.readback.Some? <==> e.phase.ReadbackVerified?)
    && (e.readback.Some? ==>
      && e.readback.value.version == e.plan.published
      && e.readback.value.bundle == e.plan.bundle
      && e.readback.value.fileCount == |e.files|
      && e.readback.value.totalBytes == TotalSize(e.files))
  }

  predicate ErrorOk(e: Entry) {
    && (e.error.Some? <==> Failed(e.phase))
    && (e.error.Some? ==> TypeNameOk(e.error.value))
  }

  predicate CommandsOk(e: Entry) {
    && e.commands.kind == e.plan.kind && e.commands.action == e.plan.action
    && e.commands.current == e.plan.current && e.commands.published == e.plan.published
  }

  /** What does not change while a plan goes through its phases. */
  ghost predicate PlanOk(e: Entry) {
    && FilesOk(e.files)
    && e.plan.bundle == Sha256(e.files)
    && VersionsOk(e.plan.action, e.plan.current, e.plan.published)
    && 1 <= e.messageBytes <= 200
    && CommandsOk(e)
    && e.planId == PlanSha256(e.plan)
  }

  ghost predicate EntryOk(e: Entry) { PlanOk(e) && ReadbackOk(e) && ErrorOk(e) }

  /** The loop over the expected files in `_validate_ledger_entry`. */
  method ValidateFiles(files: seq<FileItem>) returns (ok: bool)
    ensures ok <==> FilesOk(files)
  {
    hide PathOk, StringLeq;
    if files == [] || |files| > MAX_KAGGLE_FILES { return false; }
    var seen: set<string> := {};
    for i := 0 to |files|
      invariant forall p :: p in seen <==> exists j :: 0 <= j < i && files[j].path == p
      invariant forall j | 0 <= j < i :: PathOk(files[j].path) && files[j].size >= 0
      invariant forall j, k | 0 <= j < k < i :: files[j].path != files[k].path
    {
      if !PathOk(files[i].path) || files[i].path in seen || files[i].size < 0 { return false; }
      seen := seen + {files[i].path};
    }
    StringOrder();
    SortSorts(StringLeq, Paths(files));
    if Ascending(StringLeq, Paths(files)) { SortFixesAscending(StringLeq, Paths(files)); }
    ok := Sort(StringLeq, Paths(files)) == Paths(files);
  }

  /** `_validate_ledger_entry`. */
  method ValidateEntry(e: Entry) returns (ok: bool)
    ensures ok <==> EntryOk(e)
  {
    hide FilesOk, VersionsOk, TypeNameOk, TotalSize;
    ok := ValidateFiles(e.files);
    ok := ok && e.plan.bundle == Sha256(e.files) && VersionsOk(e.plan.action, e.plan.current, e.plan.published)
      && 1 <= e.messageBytes <= 200 && CommandsOk(e) && ReadbackOk(e) && ErrorOk(e) && e.planId == PlanSha256(e.plan);
  }

  // ---- The file ----

  datatype LedgerFile = Missing | Stored(entries: seq<Entry>) | Unreadable

  ghost predicate Distinct(entries: seq<Entry>) {
    forall i, j | 0 <= i < j < |entries| :: entries[i].planId != entries[j].planId
  }

  /** What loading demands of the entries, apart from the size of the file. */
  ghost predicate EntriesOk(entries: seq<Entry>) {
    && |entries| <= MAX_LEDGER_ENTRIES && Distinct(entries)
    && forall i | 0 <= i < |entries| :: EntryOk(entries[i])
  }

  ghost function Loaded(file: LedgerFile, size: seq<Entry> -> nat): Option<seq<Entry>> {
    match file
    case Missing => Some([])
    case Stored(entries) => if size(entries) <= MAX_LEDGER_BYTES && EntriesOk(entries) then Some(entries) else None
    case Unreadable => None
  }

  lemma LoadedIsOk(file: LedgerFile, size: seq<Entry> -> nat)
    ensures Loaded(file, size).Some? ==> EntriesOk(Loaded(file, size).value)
  {
  }

  /** `_load_ledger`; nothing stands for the raised error. */
  method LoadLedger(file: LedgerFile, size: seq<Entry> -> nat) returns (entries: Option<seq<Entry>>)
    ensures entries == Loaded(file, size)
  {
    hide EntryOk;
    if file.Missing? { return Some([]); }
    if file.Unreadable? || size(file.entries) > MAX_LEDGER_BYTES { return None; }
    var stored := file.entries;
    if |stored| > MAX_LEDGER_ENTRIES { return None; }
    var seen: set<PlanId> := {};
    for i := 0 to |stored|
      invariant forall d :: d in seen <==> exists j :: 0 <= j < i && stored[j].planId == d
      invariant forall j | 0 <= j < i :: EntryOk(stored[j])
      invariant Distinct(stored[..i])
    {
      var ok := ValidateEntry(stored[i]);
      if !ok || stored[i].planId in seen { return None; }
      seen := seen + {stored[i].planId};
    }
    assert stored[..|stored|] == stored;
    entries := Some(stored);
  }

  // ---- The upsert ----

  function Others(entries: seq<Entry>, planId: PlanId): seq<Entry> {
    if entries == [] then []
    else
      var last := entries[|entries| - 1];
      Others(entries[..|entries| - 1], planId) + if last.planId != planId then [last] else []
  }

  function Bounded(entries: seq<Entry>): seq<Entry> {
    if |entries| > MAX_LEDGER_ENTRIES then entries[|entries| - MAX_LEDGER_ENTRIES..] else entries
  }

  function Upserted(entries: seq<Entry>, e: Entry): seq<Entry> { Bounded(Others(entries, e.planId) + [e]) }

  lemma OthersUnfolds(entries: seq<Entry>, planId: PlanId)
    ensures entries == [] ==> Others(entries, planId) == []
    ensures entries != [] ==>
      var last := entries[|entries| - 1];
      Others(entries, planId)
        == Others(entries[..|entries| - 1], planId) + if last.planId != planId then [last] else []
  {
  }

  lemma {:induction false} OthersHold(entries: seq<Entry>, planId: PlanId)
    ensures forall e :: e in Others(entries, planId) <==> e in entries && e.planId != planId
    ensures |Others(entries, planId)| <= |entries|
  {
    hide Others;
    OthersUnfolds(entries, planId);
    if entries != [] {
      var last := |entries| - 1;
      OthersHold(entries[..last], planId);
      assert entries == entries[..last] + [entries[last]];
    }
  }

  lemma {:induction false} OthersDistinct(entries: seq<Entry>, planId: PlanId)
    requires Distinct(entries)
    ensures Distinct(Others(entries, planId))
  {
    hide Others;
    OthersUnfolds(entries, planId);
    if entries != [] {
      var last := |entries| - 1;
      var before := Others(entries[..last], planId);
      OthersDistinct(entries[..last], planId);
      OthersHold(entries[..last], planId);
      forall i | 0 <= i < |before| ensures before[i].planId != entries[last].planId {
        assert before[i] in before;
      }
    }
  }

  lemma {:induction false} OthersWithout(entries: seq<Entry>, planId: PlanId)
    requires forall i | 0 <= i < |entries| :: entries[i].planId != planId
    ensures Others(entries, planId) == entries
  {
    hide Others;
    OthersUnfolds(entries, planId);
    if entries != [] {
      var last := |entries| - 1;
      OthersWithout(entries[..last], planId);
    }
  }

  /** The other entries of a loadable ledger are themselves loadable, and at most one is missing. */
  lemma OthersAre(entries: seq<Entry>, planId: PlanId)
    requires EntriesOk(entries)
    ensures EntriesOk(Others(entries, planId))
    ensures |Others(entries, planId)| == |entries| ==> Others(entries, planId) == entries
    ensures |Others(entries, planId)| >= |entries| - 1
  {
    hide EntryOk, Others, Distinct;
    OthersHold(entries, planId);
    OthersDistinct(entries, planId);
    forall i | 0 <= i < |Others(entries, planId)| ensures EntryOk(Others(entries, planId)[i]) {
      assert Others(entries, planId)[i] in entries;
    }
    OthersCount(entries, planId);
  }

  lemma {:induction false} OthersCount(entries: seq<Entry>, planId: PlanId)
    requires Distinct(entries)
    ensures |entries| - 1 <= |Others(entries, planId)| <= |entries|
    ensures |Others(entries, planId)| == |entries| ==> Others(entries, planId) == entries
  {
    hide Others;
    OthersUnfolds(entries, planId);
    if entries != [] {
      var last := |entries| - 1;
      if entries[last].planId == planId {
        OthersWithout(entries[..last], planId);
      } else {
        OthersCount(entries[..last], planId);
      }
    }
  }

  /** An upsert keeps a ledger loadable, up to its size. */
  lemma UpsertedIsOk(entries: seq<Entry>, e: Entry)
    requires EntriesOk(entries) && EntryOk(e)
    ensures EntriesOk(Upserted(entries, e))
  {
    hide EntryOk, Others;
    OthersAre(entries, e.planId);
    OthersHold(entries, e.planId);
    var others := Others(entries, e.planId);
    var all := others + [e];
    forall i, j | 0 <= i < j < |all| ensures all[i].planId != all[j].planId {
      if j == |others| { assert all[i] in others; }
    }
  }

  /** An upsert ends with the new entry and keeps the others in order; it drops one exactly when the
      ledger was full of other plans, and then the oldest. */
  lemma UpsertDropsAtMostTheOldest(entries: seq<Entry>, e: Entry)
    requires EntriesOk(entries)
    ensures Upserted(entries, e)[|Upserted(entries, e)| - 1] == e
    ensures var others := Others(entries, e.planId);
      var full := |others| == MAX_LEDGER_ENTRIES;
      && (full ==> others == entries && Upserted(entries, e) == entries[1..] + [e])
      && (!full ==> Upserted(entries, e) == others + [e])
  {
    hide EntryOk, Others;
    OthersAre(entries, e.planId);
    OthersHold(entries, e.planId);
    if entries != [] { assert (entries + [e])[1..] == entries[1..] + [e]; }
  }

  lemma {:induction false} OthersAppend(entries: seq<Entry>, e: Entry, planId: PlanId)
    ensures Others(entries + [e], planId) == Others(entries, planId) + if e.planId != planId then [e] else []
  {
    assert (entries + [e])[..|entries|] == entries;
  }

  lemma {:induction false} OthersOfTail(entries: seq<Entry>, planId: PlanId)
    requires entries != [] && Others(entries, planId) == entries
    ensures Others(entries[1..], planId) == entries[1..]
  {
    OthersHold(entries, planId);
    forall i | 0 <= i < |entries[1..]| ensures entries[1..][i].planId != planId {
      assert entries[1..][i] in entries;
    }
    OthersWithout(entries[1..], planId);
  }

  /** Upserting one plan twice is upserting it once, with its last entry: a plan that passes through
      its phases costs the ledger at most one other plan in all. */
  lemma UpsertedTwice(entries: seq<Entry>, a: Entry, b: Entry)
    requires EntriesOk(entries) && a.planId == b.planId
    ensures Upserted(Upserted(entries, a), b) == Upserted(entries, b)
  {
    hide EntryOk, Others, EntriesOk;
    var others := Others(entries, a.planId);
    OthersHold(entries, a.planId);
    OthersAre(entries, a.planId);
    forall i | 0 <= i < |others| ensures others[i].planId != a.planId { assert others[i] in others; }
    OthersWithout(others, a.planId);
    UpsertDropsAtMostTheOldest(entries, a);
    if |others| == MAX_LEDGER_ENTRIES {
      OthersOfTail(others, a.planId);
      OthersAppend(others[1..], a, b.planId);
    } else {
      OthersAppend(others, a, b.planId);
      UpsertDropsAtMostTheOldest(entries, b);
    }
  }
}
