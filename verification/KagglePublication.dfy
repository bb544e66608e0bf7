/** One publication (scripts/openopps_kaggle/publication.py, `prepare_publication`): the phases it
    records in the ledger, whatever step raises. */
module KagglePublication {
  import opened Ledger
  import opened Wrappers

  /** `caught` tells exceptions from interrupts, which pass the handler by. */
  datatype Error = Error(name: string, caught: bool)

  datatype Outcome = Fine | Raises(error: Error)

  /** A ledger write may fail before the new file takes the place of the old, or after. */
  datatype WriteOutcome = Written | RaisesBefore(error: Error) | RaisesAfter(error: Error)

  /** What the outside of one call does. */
  datatype World = World(
    credentials: Outcome,
    candidate: Outcome,
    status: Outcome,
    mutation: Outcome,
    wait: Outcome,
    remote: Outcome,
    cleanup: Outcome,
    verifiedAt: int,
    writes: Phase -> WriteOutcome)

  const PUBLICATION_ERROR := Error("PublicationError", true)

  class LedgerOnDisk {
    /** The length of the encoded entries. */
    const size: seq<Entry> -> nat
    var file: LedgerFile
    /** The phases that reached the disk, in order. */
    ghost var trace: seq<Phase>

    constructor (file: LedgerFile, size: seq<Entry> -> nat)
      ensures this.file == file && this.size == size && trace == []
    {
      this.file, this.size, trace := file, size, [];
    }

    ghost function Entries(): Option<seq<Entry>>
      reads this
    {
      Loaded(file, size)
    }

    /** `_upsert_ledger_entry`. */
    method Upsert(entry: Entry, write: WriteOutcome) returns (raised: Option<Error>)
      modifies this
      ensures var before := old(Entries());
        var accepted := EntryOk(entry) && before.Some?;
        var replaced := accepted && !write.RaisesBefore?;
        && file == (if replaced then Stored(Upserted(before.value, entry)) else old(file))
        && trace == (if replaced then old(trace) + [entry.phase] else old(trace))
        && (raised.None? <==> accepted && write.Written?)
    {
      hide EntryOk, Loaded, Upserted;
      var ok := ValidateEntry(entry);
      if !ok { return Some(PUBLICATION_ERROR); }
      var entries := LoadLedger(file, size);
      if entries.None? { return Some(PUBLICATION_ERROR); }
      if write.RaisesBefore? { return Some(write.error); }
      file := Stored(Upserted(entries.value, entry));
      trace := trace + [entry.phase];
      raised := if write.RaisesAfter? then Some(write.error) else None;
    }
  }

  /** The entry of a plan in a phase. */
  function InPhase(entry: Entry, phase: Phase): Entry { entry.(phase := phase, readback := None, error := None) }

  function Verified(entry: Entry, at: int): Entry {
    entry.(phase := ReadbackVerified, error := None,
      readback := Some(Readback(entry.plan.published, entry.plan.bundle, |entry.files|, TotalSize(entry.files), at)))
  }

  lemma PhaseEntriesAreOk(entry: Entry, at: int)
    requires PlanOk(entry)
    ensures forall phase: Phase ::
      phase.Staged? || phase.PreflightVerified? || phase.Mutated? ==> EntryOk(InPhase(entry, phase))
    ensures forall phase: Phase :: PlanOk(InPhase(entry, phase))
    ensures EntryOk(Verified(entry, at)) && PlanOk(Verified(entry, at))
  {
    hide FilesOk, TotalSize, VersionsOk;
  }

  lemma StagedIsOk(entry: Entry)
    requires entry == InPhase(entry, Staged)
    ensures EntryOk(entry) <==> PlanOk(entry)
  {
    hide PlanOk;
  }

  /** What the handler writes. */
  function HandledPhase(phase: Phase): Phase { if phase.Mutated? then ReadbackFailed else PreflightFailed }

  function Handled(entry: Entry, name: string): Entry {
    entry.(phase := HandledPhase(entry.phase), error := Some(name))
  }

  lemma HandledIsOk(entry: Entry, name: string)
    requires PlanOk(entry)
    ensures EntryOk(Handled(entry, name)) <==> entry.readback.None? && TypeNameOk(name)
  {
    hide FilesOk, TotalSize, VersionsOk, TypeNameOk;
  }

  // ---- What a call comes to when the ledger itself works ----

  /** The file would still load with this entry upserted. */
  ghost predicate Fits(size: seq<Entry> -> nat, before: LedgerFile, e: Entry) {
    Loaded(before, size).Some? ==> size(Upserted(Loaded(before, size).value, e)) <= MAX_LEDGER_BYTES
  }

  /** The ledger loads, every write gets through, and the lists that this call has to load again are
      short enough: those with the entry staged, preflighted and mutated. */
  ghost predicate Smooth(size: seq<Entry> -> nat, before: LedgerFile, entry: Entry, world: World) {
    && Loaded(before, size).Some? && (forall phase :: world.writes(phase).Written?)
    && Fits(size, before, InPhase(entry, Staged)) && Fits(size, before, InPhase(entry, Mutated))
    && (entry.plan.action.Version? ==> Fits(size, before, InPhase(entry, PreflightVerified)))
  }

  /** A ledger that was upserted loads again exactly when it is not too long. */
  lemma UpsertedLoads(entries: seq<Entry>, e: Entry, size: seq<Entry> -> nat)
    requires EntriesOk(entries) && EntryOk(e)
    ensures Loaded(Stored(Upserted(entries, e)), size).Some? <==> size(Upserted(entries, e)) <= MAX_LEDGER_BYTES
  {
    hide EntriesOk, EntryOk, Upserted;
    UpsertedIsOk(entries, e);
  }

  /** The first error of the outside, and the phase in which it finds the entry. */
  function Meets(action: Action, world: World): (Option<Error>, Phase) {
    var ready := if action.Version? then PreflightVerified else Staged;
    if action.Version? && world.status.Raises? then (Some(world.status.error), Staged)
    else if world.mutation.Raises? then (Some(world.mutation.error), ready)
    else if world.wait.Raises? then (Some(world.wait.error), Mutated)
    else if world.remote.Raises? then (Some(world.remote.error), Mutated)
    else (None, ReadbackVerified)
  }

  function Fate(action: Action, world: World): (Option<Error>, Phase) {
    if world.candidate.Raises? then (Some(world.candidate.error), Staged)
    else
      var met := Meets(action, world);
      if world.cleanup.Raises? then (Some(world.cleanup.error), met.1) else met
  }

  /** The phase on disk after the handler.  It has no say over interrupts, over errors whose type name
      the ledger refuses, and over errors after the readback was set. */
  function HandledOnDisk(last: Phase, onDisk: Phase, error: Error): Phase {
    if error.caught && TypeNameOk(error.name) && !last.ReadbackVerified? then HandledPhase(last) else onDisk
  }

  function Settles(action: Action, world: World): Phase {
    var fate := Fate(action, world);
    if fate.0.None? then fate.1 else HandledOnDisk(fate.1, fate.1, fate.0.value)
  }

  /** A cleanup that raises after a verified readback makes the call raise, though the ledger keeps
      saying verified. */
  lemma CleanupAfterReadback(action: Action, world: World)
    requires world.candidate.Fine? && world.status.Fine? && world.mutation.Fine? && world.wait.Fine?
      && world.remote.Fine?
    requires world.cleanup.Raises?
    ensures Fate(action, world).0.Some? && Settles(action, world) == ReadbackVerified
  {
  }

  // ---- The order of phases on disk ----

  /** Which phase may be written after which, within one call. */
  predicate Follows(action: Action, before: Phase, after: Phase) {
    match after
    case Staged => false
    case PreflightVerified => before.Staged? && action.Version?
    case Mutated => if action.Version? then before.PreflightVerified? else before.Staged?
    case ReadbackVerified => before.Mutated?
    case PreflightFailed => before.Staged? || before.PreflightVerified?
    case ReadbackFailed => before.Mutated? || before == (if action.Version? then PreflightVerified else Staged)
  }

  ghost predicate Path(action: Action, trace: seq<Phase>) {
    && (trace != [] ==> trace[0].Staged?)
    && forall i | 0 < i < |trace| :: Follows(action, trace[i - 1], trace[i])
  }

  /** The file is as before the call, or as before with `written` upserted. */
  ghost predicate Tracks(ledger: LedgerOnDisk, before: LedgerFile, written: Option<Entry>)
    reads ledger
  {
    match written
    case None => ledger.file == before && ledger.trace == []
    case Some(e) =>
      && Loaded(before, ledger.size).Some? && EntryOk(e)
      && ledger.file == Stored(Upserted(Loaded(before, ledger.size).value, e))
      && ledger.trace != [] && ledger.trace[|ledger.trace| - 1] == e.phase
  }

  /** The file that a call leaves has valid entries, and loads again exactly when its list is not too long. */
  lemma TrackedLoads(ledger: LedgerOnDisk, before: LedgerFile, written: Option<Entry>)
    requires Tracks(ledger, before, written)
    ensures written.None? ==> ledger.file == before
    ensures written.Some? ==> ledger.file.Stored? && EntriesOk(ledger.file.entries)
    ensures written.Some? ==> (ledger.Entries().Some? <==> Fits(ledger.size, before, written.value))
  {
    hide EntryOk, Upserted, EntriesOk;
    LoadedIsOk(before, ledger.size);
    if written.Some? {
      UpsertedIsOk(Loaded(before, ledger.size).value, written.value);
      UpsertedLoads(Loaded(before, ledger.size).value, written.value, ledger.size);
    }
  }

  ghost predicate Loadable(size: seq<Entry> -> nat, before: LedgerFile, written: Option<Entry>) {
    Loaded(before, size).Some? && (written.Some? ==> Fits(size, before, written.value))
  }

  /** One upsert of the plan of this call. */
  method Record(ledger: LedgerOnDisk, entry: Entry, write: WriteOutcome,
      ghost before: LedgerFile, ghost written: Option<Entry>)
    returns (raised: Option<Error>, ghost now: Option<Entry>)
    requires Tracks(ledger, before, written)
    requires written.Some? ==> written.value.planId == entry.planId
    modifies ledger
    ensures Tracks(ledger, before, now)
    ensures raised.None? ==> now == Some(entry)
    ensures (now == written && ledger.trace == old(ledger.trace))
      || (now == Some(entry) && ledger.trace == old(ledger.trace) + [entry.phase])
    ensures now == Some(entry) && ledger.trace == old(ledger.trace) + [entry.phase] <== raised.None?
    ensures !EntryOk(entry) ==> now == written && ledger.trace == old(ledger.trace)
    ensures EntryOk(entry) && write.Written? && Loadable(ledger.size, before, written) ==> raised.None?
    ensures written.Some? && !Fits(ledger.size, before, written.value) ==> raised.Some? && now == written
  {
    hide EntryOk, Upserted, EntriesOk;
    var entries := Loaded(ledger.file, ledger.size);
    LoadedIsOk(before, ledger.size);
    if written.Some? { UpsertedLoads(Loaded(before, ledger.size).value, written.value, ledger.size); }
    raised := ledger.Upsert(entry, write);
    now := written;
    if EntryOk(entry) && entries.Some? && !write.RaisesBefore? {
      now := Some(entry);
      if written.Some? { UpsertedTwice(Loaded(before, ledger.size).value, written.value, entry); }
    }
  }

  /** What the handler finds: the entry, and the phase last written for it. */
  ghost predicate Interrupted(action: Action, last: Entry, onDisk: Phase) {
    && PlanOk(last) && last.plan.action == action && last.error.None?
    && (last.readback.Some? <==> last.phase.ReadbackVerified?)
    && (last.readback.None? ==> Follows(action, onDisk, HandledPhase(last.phase)))
  }

  lemma PathBegins(action: Action)
    ensures Path(action, [Staged])
  {
  }

  lemma PathGrows(action: Action, trace: seq<Phase>, phase: Phase)
    requires Path(action, trace)
    requires trace != [] && Follows(action, trace[|trace| - 1], phase)
    ensures Path(action, trace + [phase])
  {
    hide Follows;
  }

  /** No phase is on disk without the steps that lead to it. */
  ghost predicate Earned(action: Action, world: World, trace: seq<Phase>) {
    && (PreflightVerified in trace ==> action.Version? && world.status.Fine?)
    && (Mutated in trace ==> world.mutation.Fine? && (action.Version? ==> world.status.Fine?))
    && (ReadbackVerified in trace ==>
      world.mutation.Fine? && world.wait.Fine? && world.remote.Fine? && (action.Version? ==> world.status.Fine?))
  }

  /** Everything that a publication meets outside succeeds. */
  predicate AllFine(action: Action, world: World) {
    && world.candidate.Fine? && (action.Version? ==> world.status.Fine?) && world.mutation.Fine? && world.wait.Fine?
    && world.remote.Fine? && world.cleanup.Fine?
  }

  /** The body of the `with` statement under `try`. */
  method Body(ledger: LedgerOnDisk, entry: Entry, world: World, ghost before: LedgerFile)
    returns (raised: Option<Error>, last: Entry, ghost written: Option<Entry>)
    requires PlanOk(entry) && entry == InPhase(entry, Staged)
    requires Tracks(ledger, before, Some(entry)) && ledger.trace == [Staged]
    modifies ledger
    ensures written.Some? && written.value.planId == entry.planId && last.planId == entry.planId
    ensures Tracks(ledger, before, written) && Path(entry.plan.action, ledger.trace)
    ensures Interrupted(entry.plan.action, last, ledger.trace[|ledger.trace| - 1])
    ensures raised.None? ==> written == Some(last) && last == Verified(entry, world.verifiedAt)
    ensures Smooth(ledger.size, before, entry, world) ==>
      written == Some(last) && (raised, last.phase) == Meets(entry.plan.action, world)
    ensures !Fits(ledger.size, before, entry) ==> raised.Some? && written == Some(entry)
    ensures !last.phase.ReadbackVerified? ==> last == InPhase(entry, last.phase)
    ensures Earned(entry.plan.action, world, ledger.trace)
    ensures raised.None? ==>
      && world.mutation.Fine? && world.wait.Fine? && world.remote.Fine?
      && (entry.plan.action.Version? ==> world.status.Fine?)
  {
    hide PlanOk, EntryOk, Upserted, Loaded, Fits, Path, Tracks, TotalSize;
    PathBegins(entry.plan.action);
    PhaseEntriesAreOk(entry, world.verifiedAt);
    last, written := entry, Some(entry);
    if entry.plan.action.Version? {
      if world.status.Raises? { return Some(world.status.error), last, written; }
      last := InPhase(entry, PreflightVerified);
      PathGrows(entry.plan.action, ledger.trace, PreflightVerified);
      raised, written := Record(ledger, last, world.writes(PreflightVerified), before, written);
      if raised.Some? { return; }
    }
    if world.mutation.Raises? { return Some(world.mutation.error), last, written; }
    last := InPhase(entry, Mutated);
    PathGrows(entry.plan.action, ledger.trace, Mutated);
    raised, written := Record(ledger, last, world.writes(Mutated), before, written);
    if raised.Some? { return; }
    if world.wait.Raises? { return Some(world.wait.error), last, written; }
    if world.remote.Raises? { return Some(world.remote.error), last, written; }
    last := Verified(entry, world.verifiedAt);
    PathGrows(entry.plan.action, ledger.trace, ReadbackVerified);
    raised, written := Record(ledger, last, world.writes(ReadbackVerified), before, written);
  }

  /** The exception handler; its own error masks the one it handles. */
  method Handle(ledger: LedgerOnDisk, last: Entry, error: Error, world: World,
      ghost before: LedgerFile, ghost written: Option<Entry>)
    returns (raised: Error, ghost now: Option<Entry>)
    requires Tracks(ledger, before, written) && written.Some? && written.value.planId == last.planId
    requires Path(last.plan.action, ledger.trace) && Interrupted(last.plan.action, last, written.value.phase)
    modifies ledger
    ensures Tracks(ledger, before, now) && Path(last.plan.action, ledger.trace)
    ensures now.Some? && now.value.planId == last.planId
    ensures Earned(last.plan.action, world, old(ledger.trace)) ==> Earned(last.plan.action, world, ledger.trace)
    ensures !error.caught ==> raised == error
    ensures Fits(ledger.size, before, written.value) && world.writes(HandledPhase(last.phase)).Written? ==>
      last.readback.None? && TypeNameOk(error.name) ==> raised == error
    ensures !Fits(ledger.size, before, written.value) ==> now == written
    ensures Fits(ledger.size, before, written.value) && (forall phase :: world.writes(phase).Written?) ==>
      now.value.phase == HandledOnDisk(last.phase, written.value.phase, error)
  {
    hide PlanOk, EntryOk, Upserted, Loaded, Fits, TypeNameOk;
    now := written;
    if !error.caught { return error, now; }
    HandledIsOk(last, error.name);
    var failed := Handled(last, error.name);
    var masked;
    masked, now := Record(ledger, failed, world.writes(failed.phase), before, written);
    raised := if masked.Some? then masked.value else error;
  }

  /** Everything after the staged entry was written. */
  method Execute(ledger: LedgerOnDisk, entry: Entry, world: World, ghost before: LedgerFile)
    returns (raised: Option<Error>, ghost written: Option<Entry>)
    requires PlanOk(entry) && entry == InPhase(entry, Staged)
    requires Tracks(ledger, before, Some(entry)) && ledger.trace == [Staged]
    modifies ledger
    ensures Tracks(ledger, before, written) && Path(entry.plan.action, ledger.trace)
    ensures written.Some? && written.value.planId == entry.planId
    ensures raised.None? ==> written == Some(Verified(entry, world.verifiedAt))
    ensures raised.None? ==> world.credentials.Fine? && AllFine(entry.plan.action, world)
    ensures Earned(entry.plan.action, world, ledger.trace)
    ensures !Fits(ledger.size, before, entry) ==> raised.Some? && written == Some(entry)
    ensures world.credentials.Raises? ==> raised == Some(world.credentials.error) && written == Some(entry)
    ensures Smooth(ledger.size, before, entry, world) && world.credentials.Fine? ==>
      && written.value.phase == Settles(entry.plan.action, world)
      && (raised.None? <==> Fate(entry.plan.action, world).0.None?)
      && (var fate := Fate(entry.plan.action, world);
          fate.0.Some? && (!fate.0.value.caught || (TypeNameOk(fate.0.value.name) && !fate.1.ReadbackVerified?))
          ==> raised == fate.0)
  {
    hide PlanOk, EntryOk, Upserted, Loaded, Fits, TypeNameOk;
    if world.credentials.Raises? { return Some(world.credentials.error), Some(entry); }
    var last := entry;
    if world.candidate.Raises? {
      raised, written := Some(world.candidate.error), Some(entry);
    } else {
      raised, last, written := Body(ledger, entry, world, before);
      if world.cleanup.Raises? { raised := Some(world.cleanup.error); }
    }
    if raised.None? { return; }
    var error;
    error, written := Handle(ledger, last, raised.value, world, before, written);
    raised := Some(error);
  }

  /** Outcome by outcome.  An error of a caught kind with an acceptable name is recorded as a failure of
      the preflight before the mutation was recorded, and of the readback after it; any other error
      leaves the phase that was there.  What the cleanup raises takes the place of the error before it. */
  lemma FateMeans(action: Action, world: World)
    requires world.credentials.Fine?
    ensures var fate, phase := Fate(action, world), Settles(action, world);
      var recorded := (e: Error) => e.caught && TypeNameOk(e.name);
      var untidy := world.candidate.Fine? && world.cleanup.Raises?;
      && (world.candidate.Raises? ==> fate.0 == Some(world.candidate.error))
      && (untidy ==> fate.0 == Some(world.cleanup.error))
      && (world.candidate.Raises? ==> phase == if recorded(fate.0.value) then PreflightFailed else Staged)
      && (world.candidate.Fine? && action.Version? && world.status.Raises? ==>
        && (!untidy ==> fate.0 == Some(world.status.error))
        && phase == if recorded(fate.0.value) then PreflightFailed else Staged)
      && (world.candidate.Fine? && (action.Version? ==> world.status.Fine?) ==>
        && (world.mutation.Raises? ==>
          && (!untidy ==> fate.0 == Some(world.mutation.error))
          && phase == if recorded(fate.0.value) then PreflightFailed
            else if action.Version? then PreflightVerified else Staged)
        && (world.mutation.Fine? && (world.wait.Raises? || world.remote.Raises?) ==>
          && (!untidy ==>
            fate.0 == Some(if world.wait.Raises? then world.wait.error else world.remote.error))
          && phase == if recorded(fate.0.value) then ReadbackFailed else Mutated)
        && (world.mutation.Fine? && world.wait.Fine? && world.remote.Fine? ==>
          phase == ReadbackVerified && (!untidy ==> fate.0.None?)))
  {
  }

  /** If this step raised an exception whose name the ledger takes, the call raises it, and the ledger
      says `phase`. */
  predicate Recorded(step: Outcome, raised: Option<Error>, written: Option<Entry>, phase: Phase) {
    step.Raises? && step.error.caught && TypeNameOk(step.error.name) ==>
      raised == Some(step.error) && written.Some? && written.value.phase == phase
  }

  lemma FateIsRecorded(action: Action, world: World, raised: Option<Error>, written: Option<Entry>)
    requires written.Some? && written.value.phase == Settles(action, world)
    requires var fate := Fate(action, world);
      && (raised.None? <==> fate.0.None?)
      && (fate.0.Some? && fate.0.value.caught && TypeNameOk(fate.0.value.name) && !fate.1.ReadbackVerified?
          ==> raised == fate.0)
    ensures Recorded(world.candidate, raised, written, PreflightFailed)
    ensures world.candidate.Fine? && world.cleanup.Fine? ==>
      && (action.Version? ==> Recorded(world.status, raised, written, PreflightFailed))
      && ((action.Version? ==> world.status.Fine?) ==>
        && Recorded(world.mutation, raised, written, PreflightFailed)
        && (world.mutation.Fine? ==>
          && Recorded(world.wait, raised, written, ReadbackFailed)
          && (world.wait.Fine? ==> Recorded(world.remote, raised, written, ReadbackFailed))))
  {
    hide TypeNameOk;
  }

  /** `prepare_publication`, from the staged entry on.  The two ways not to raise are a dry run and a
      verified readback; an entry that is not valid is never written.  What is left loads again exactly
      when its list is not too long; a staged list that is too long ends the call there. */
  method PreparePublication(ledger: LedgerOnDisk, entry: Entry, execute: bool, world: World)
    returns (raised: Option<Error>, ghost written: Option<Entry>)
    requires entry == InPhase(entry, Staged)
    requires ledger.trace == []
    modifies ledger
    ensures Tracks(ledger, old(ledger.file), written) && Path(entry.plan.action, ledger.trace)
    ensures written.Some? ==> written.value.planId == entry.planId
    ensures !PlanOk(entry) ==> raised.Some? && written.None?
    ensures raised.None? && !execute ==> written == Some(entry)
    ensures raised.None? && execute ==> written == Some(Verified(entry, world.verifiedAt))
    ensures raised.None? && execute ==>
      && world.credentials.Fine? && world.candidate.Fine? && (entry.plan.action.Version? ==> world.status.Fine?)
      && world.mutation.Fine? && world.wait.Fine? && world.remote.Fine? && world.cleanup.Fine?
    ensures PreflightVerified in ledger.trace ==> entry.plan.action.Version? && world.status.Fine?
    ensures Mutated in ledger.trace || ReadbackVerified in ledger.trace ==>
      world.mutation.Fine? && (entry.plan.action.Version? ==> world.status.Fine?)
    ensures ReadbackVerified in ledger.trace ==> world.wait.Fine? && world.remote.Fine?
    ensures var before := old(ledger.file);
      PlanOk(entry) && Smooth(ledger.size, before, entry, world) && execute && world.credentials.Fine? ==>
      && Recorded(world.candidate, raised, written, PreflightFailed)
      && (world.candidate.Fine? && world.cleanup.Fine? ==>
        && (entry.plan.action.Version? ==> Recorded(world.status, raised, written, PreflightFailed))
        && ((entry.plan.action.Version? ==> world.status.Fine?) ==>
          && Recorded(world.mutation, raised, written, PreflightFailed)
          && (world.mutation.Fine? ==>
            && Recorded(world.wait, raised, written, ReadbackFailed)
            && (world.wait.Fine? ==> Recorded(world.remote, raised, written, ReadbackFailed)))))
    ensures written.Some? ==>
      (ledger.Entries().Some? <==> Fits(ledger.size, old(ledger.file), written.value))
    ensures !Fits(ledger.size, old(ledger.file), entry) && written.Some? ==> written == Some(entry)
    ensures !Fits(ledger.size, old(ledger.file), entry) && execute ==> raised.Some?
    ensures var before := old(ledger.file);
      PlanOk(entry) && Smooth(ledger.size, before, entry, world) && execute && world.credentials.Fine? ==>
      && written.Some? && written.value.phase == Settles(entry.plan.action, world)
      && (raised.None? <==> Fate(entry.plan.action, world).0.None?)
    ensures PlanOk(entry) && Loaded(old(ledger.file), ledger.size).Some? && world.writes(Staged).Written? ==>
      && (!execute ==> raised.None?)
      && (execute && world.credentials.Raises? ==> raised == Some(world.credentials.error) && written == Some(entry))
  {
    hide PlanOk, EntryOk, Upserted, Loaded, Fits, Fate, Settles, TypeNameOk, Recorded;
    StagedIsOk(entry);
    ghost var before := ledger.file;
    raised, written := Record(ledger, entry, world.writes(Staged), before, None);
    if raised.None? && execute {
      raised, written := Execute(ledger, entry, world, before);
      if Smooth(ledger.size, before, entry, world) && world.credentials.Fine? {
        FateIsRecorded(entry.plan.action, world, raised, written);
      }
    }
    TrackedLoads(ledger, before, written);
  }

  ghost predicate Rewritten(ledger: LedgerOnDisk)
    reads ledger
  {
    && ledger.file.Stored? && EntriesOk(ledger.file.entries)
    && (ledger.Entries().Some? <==> ledger.size(ledger.file.entries) <= MAX_LEDGER_BYTES)
  }

  datatype Request = Request(entry: Entry, execute: bool, world: World)

  /** If the file does not load before call `j`, it stays as it is from there on, and every call raises. */
  ghost predicate LostForever(size: seq<Entry> -> nat, files: seq<LedgerFile>, raised: seq<bool>, j: nat)
    requires j < |files| == |raised| + 1
  {
    Loaded(files[j], size).None? ==> forall k | j <= k < |raised| :: raised[k] && files[k + 1] == files[j]
  }

  lemma NotLostYet(size: seq<Entry> -> nat, files: seq<LedgerFile>, raised: seq<bool>)
    requires |files| == |raised| + 1
    ensures LostForever(size, files, raised, |raised|)
  {
  }

  lemma LostStaysLost(size: seq<Entry> -> nat, files: seq<LedgerFile>, raised: seq<bool>, j: nat,
      file: LedgerFile, error: bool)
    requires j < |files| == |raised| + 1 && LostForever(size, files, raised, j)
    requires Loaded(files[|raised|], size).None? ==> error && file == files[|raised|]
    ensures LostForever(size, files + [file], raised + [error], j)
  {
    hide Loaded;
    if Loaded(files[j], size).None? && j < |raised| { assert raised[|raised| - 1]; }
  }

  /** One of several calls. */
  method PublishNext(ledger: LedgerOnDisk, request: Request) returns (raised: bool)
    requires request.entry == InPhase(request.entry, Staged)
    modifies ledger
    ensures ledger.file == old(ledger.file) || Rewritten(ledger)
    ensures old(ledger.Entries()).None? ==> raised && ledger.file == old(ledger.file)
  {
    hide EntriesOk, EntryOk, Settles, Fate, Smooth, Path, Upserted;
    ledger.trace := [];
    ghost var before := ledger.file;
    ghost var written: Option<Entry>;
    var error;
    error, written := PreparePublication(ledger, request.entry, request.execute, request.world);
    TrackedLoads(ledger, before, written);
    raised := error.Some?;
  }

  /** Whatever the calls and whatever raises in them, the ledger is the one that was there or one whose
      entries are as loading demands, and which loads exactly when it is not too long.  Once it does not
      load, no call ever changes it, and all raise. */
  method PublishAll(ledger: LedgerOnDisk, requests: seq<Request>)
    returns (raised: seq<bool>, ghost files: seq<LedgerFile>)
    requires forall i | 0 <= i < |requests| :: requests[i].entry == InPhase(requests[i].entry, Staged)
    modifies ledger
    ensures ledger.file == old(ledger.file) || Rewritten(ledger)
    ensures |raised| == |requests| && |files| == |requests| + 1
    ensures files[0] == old(ledger.file) && files[|requests|] == ledger.file
    ensures forall j | 0 <= j <= |requests| :: LostForever(ledger.size, files, raised, j)
  {
    hide LostForever, EntriesOk;
    raised, files := [], [ledger.file];
    NotLostYet(ledger.size, files, raised);
    for i := 0 to |requests|
      invariant ledger.file == old(ledger.file) || Rewritten(ledger)
      invariant |raised| == i && |files| == i + 1 && files[0] == old(ledger.file) && files[i] == ledger.file
      invariant forall j | 0 <= j <= i :: LostForever(ledger.size, files, raised, j)
    {
      var error := PublishNext(ledger, requests[i]);
      forall j | 0 <= j <= i ensures LostForever(ledger.size, files + [ledger.file], raised + [error], j) {
        LostStaysLost(ledger.size, files, raised, j, ledger.file, error);
      }
      raised, files := raised + [error], files + [ledger.file];
      NotLostYet(ledger.size, files, raised);
    }
  }

  // ---- Waiting for the version ----

  /** One status reading and the clock after it. */
  datatype Observation = Observation(version: Option<int>, ready: bool, clock: int)

  predicate Arrived(o: Observation, expected: int) { o.version == Some(expected) && expected >= 1 && o.ready }

  predicate Overtaken(o: Observation, expected: int) { o.version.Some? && o.version.value > expected }

  /** Each poll takes at least the polling interval. */
  ghost predicate Ticking(observe: nat -> Observation, pollSeconds: nat) {
    forall k: nat :: observe(k + 1).clock >= observe(k).clock + pollSeconds
  }

  /** The reading that ends the wait: the version has arrived, or was overtaken, or time is up. */
  predicate Ends(o: Observation, expected: int, deadline: int) {
    Arrived(o, expected) || Overtaken(o, expected) || o.clock >= deadline
  }

  /** `_wait_for_version`: the first reading that can end the wait decides it, and an arrival counts
      even when the deadline has passed. */
  method WaitForVersion(expected: int, observe: nat -> Observation, deadline: int, pollSeconds: nat)
    returns (arrived: bool, polls: nat)
    requires pollSeconds >= 1 && Ticking(observe, pollSeconds)
    ensures Ends(observe(polls), expected, deadline)
    ensures forall k: nat | k < polls :: !Ends(observe(k), expected, deadline)
    ensures arrived <==> Arrived(observe(polls), expected)
    ensures arrived <==> observe(polls).version == Some(expected) && expected >= 1 && observe(polls).ready
    ensures arrived || observe(polls).clock >= deadline
      || (observe(polls).version.Some? && observe(polls).version.value > expected)
    ensures forall k: nat | k < polls ::
      && observe(k).clock < deadline && (observe(k).version.Some? ==> observe(k).version.value <= expected)
      && !(observe(k).version == Some(expected) && expected >= 1 && observe(k).ready)
    ensures polls * pollSeconds < Positive(deadline - observe(0).clock) + pollSeconds
  {
    polls := 0;
    while true
      invariant forall k: nat | k < polls :: !Ends(observe(k), expected, deadline)
      invariant observe(0).clock + polls * pollSeconds <= observe(polls).clock
      invariant polls * pollSeconds < Positive(deadline - observe(0).clock) + pollSeconds
      decreases deadline - observe(polls).clock
    {
      var status := observe(polls);
      if Arrived(status, expected) { return true, polls; }
      if Overtaken(status, expected) { return false, polls; }
      if status.clock >= deadline { return false, polls; }
      assert observe(polls + 1).clock >= status.clock + pollSeconds;
      assert (polls + 1) * pollSeconds == polls * pollSeconds + pollSeconds;
      polls := polls + 1;
    }
  }

  function Positive(n: int): nat { if n < 0 then 0 else n }
}
