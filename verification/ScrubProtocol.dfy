/** The physical-scrub protocol of the HTTP cache (src/openopps/cache.py, `purge` and `_init_db`),
    as a step relation over any number of processes sharing one SQLite file.

    Deleting rows and advancing the pending generation is one transaction; compacting the
    file (checkpoint, vacuum, checkpoint) and recording the generation as completed come
    later, and a process may crash or be overtaken between any two of these.  Deleted bytes
    are tracked by the generation that deleted them: `free` while they sit in pages or
    log frames no vacuum has dropped yet, `shadow` once a vacuum dropped them but before
    a truncating checkpoint has rewritten the file. */
module ScrubProtocol {
  import Numerals

  /** What a process has done of its current purge or start-up. */
  datatype Stage =
    | Idle
    | Entered(startup: bool)
    | Deleted(startup: bool, generation: nat)
    | Checkpointed(startup: bool, generation: nat)
    | Vacuumed(startup: bool, generation: nat)
    | Compacted(startup: bool, generation: nat)
    | Finished(startup: bool)

  /** `constructed`: this process holds an `HttpCache` whose `__init__` returned. */
  datatype Process = Process(stage: Stage, constructed: bool)

  /** The metadata rows (0 when missing or malformed), the deleted bytes still in the file, and
      the holder of the database lock. */
  datatype State = State(pending: nat, completed: nat, free: set<nat>, shadow: set<nat>, procs: seq<Process>)

  function Residue(s: State): set<nat> { s.free + s.shadow }

  /** A file never touched by this protocol: no metadata, and possibly old bytes (tag 0). */
  ghost predicate Initial(s: State) {
    && s.pending == 0 && s.completed == 0
    && s.free <= {0} && s.shadow == {}
    && forall i | 0 <= i < |s.procs| :: s.procs[i] == Process(Idle, false)
  }

  ghost predicate At(s: State, i: nat, stage: Stage) {
    i < |s.procs| && s.procs[i].stage == stage
  }

  function Move(s: State, i: nat, stage: Stage): State
    requires i < |s.procs|
  {
    s.(procs := s.procs[i := s.procs[i].(stage := stage)])
  }

  ghost predicate Busy(s: State, i: nat) {
    i < |s.procs| && !s.procs[i].stage.Idle?
  }

  /** Process `i` starts a purge, or the construction of a cache.  With the lock, only when no
      other process is inside. */
  ghost predicate Enter(locking: bool, s: State, t: State, i: nat, startup: bool) {
    && At(s, i, Idle)
    && (!startup ==> s.procs[i].constructed)
    && (locking ==> forall j: nat :: !Busy(s, j))
    && t == Move(s, i, Entered(startup))
  }

  /** The first transaction.  `rows` says whether any row was deleted; a start-up also advances when
      no generation was ever recorded. */
  ghost predicate Delete(s: State, t: State, i: nat, startup: bool, rows: bool) {
    && At(s, i, Entered(startup))
    && var advance := rows || (startup && s.pending == 0);
       var generation := if advance then Numerals.Max(s.pending, s.completed) + 1 else s.pending;
       var cleared := s.(pending := generation, free := if rows then s.free + {generation} else s.free);
       t == Move(cleared, i, if generation > s.completed then Deleted(startup, generation) else Finished(startup))
  }

  /** `wal_checkpoint(TRUNCATE)` that succeeds: vacuumed-away bytes leave the file. */
  ghost predicate Checkpoint(s: State, t: State, i: nat, startup: bool, generation: nat) {
    && At(s, i, Deleted(startup, generation))
    && t == Move(s.(shadow := {}), i, Checkpointed(startup, generation))
  }

  ghost predicate Vacuum(s: State, t: State, i: nat, startup: bool, generation: nat) {
    && At(s, i, Checkpointed(startup, generation))
    && t == Move(s.(free := {}, shadow := s.shadow + s.free), i, Vacuumed(startup, generation))
  }

  ghost predicate Truncate(s: State, t: State, i: nat, startup: bool, generation: nat) {
    && At(s, i, Vacuumed(startup, generation))
    && t == Move(s.(shadow := {}), i, Compacted(startup, generation))
  }

  /** The second transaction: records the generation only while it is still the pending one. */
  ghost predicate Complete(s: State, t: State, i: nat, startup: bool, generation: nat) {
    && At(s, i, Compacted(startup, generation))
    && t == Move(s.(completed := if s.pending == generation then generation else s.completed), i, Finished(startup))
  }

  /** The call returns normally and releases the lock. */
  ghost predicate Return(s: State, t: State, i: nat, startup: bool) {
    && At(s, i, Finished(startup))
    && t == s.(procs := s.procs[i := Process(Idle, s.procs[i].constructed || startup)])
  }

  /** A crash, a raised checkpoint error, or any other exception: the lock is released and committed
      transactions stay.  A crashed process may come back as a fresh one. */
  ghost predicate Abandon(s: State, t: State, i: nat) {
    && i < |s.procs|
    && (t == Move(s, i, Idle) || t == s.(procs := s.procs[i := Process(Idle, false)]))
  }

  /** One step of process `i`. */
  datatype Action =
    | Entering(i: nat, startup: bool)
    | Deleting(i: nat, startup: bool, rows: bool)
    | Checkpointing(i: nat, startup: bool, generation: nat)
    | Vacuuming(i: nat, startup: bool, generation: nat)
    | Truncating(i: nat, startup: bool, generation: nat)
    | Completing(i: nat, startup: bool, generation: nat)
    | Returning(i: nat, startup: bool)
    | Abandoning(i: nat)

  ghost predicate Does(locking: bool, s: State, t: State, a: Action) {
    match a
    case Entering(i, startup) => Enter(locking, s, t, i, startup)
    case Deleting(i, startup, rows) => Delete(s, t, i, startup, rows)
    case Checkpointing(i, startup, g) => Checkpoint(s, t, i, startup, g)
    case Vacuuming(i, startup, g) => Vacuum(s, t, i, startup, g)
    case Truncating(i, startup, g) => Truncate(s, t, i, startup, g)
    case Completing(i, startup, g) => Complete(s, t, i, startup, g)
    case Returning(i, startup) => Return(s, t, i, startup)
    case Abandoning(i) => Abandon(s, t, i)
  }

  ghost predicate Step(locking: bool, s: State, t: State) {
    exists a :: Does(locking, s, t, a)
  }

  ghost predicate Run(locking: bool, run: seq<State>) {
    && run != [] && Initial(run[0])
    && forall k | 0 <= k < |run| - 1 :: Step(locking, run[k], run[k + 1])
  }

  // ---- What a step can do ----

  /** Deleted bytes arise with a generation of their own, above all before, and leave the file only by a
      checkpoint after a vacuum. */
  lemma BytesComeAndGo(locking: bool, s: State, t: State, a: Action, g: nat)
    requires Does(locking, s, t, a)
    ensures g in Residue(s) && g !in Residue(t) ==>
      (a.Checkpointing? || a.Truncating?) && g in s.shadow && g !in s.free
    ensures g !in Residue(s) && g in Residue(t) ==>
      a.Deleting? && a.rows && g == t.pending && g > s.pending && g > s.completed
    ensures a.Deleting? && a.rows ==> t.pending in t.free
  {
  }

  /** A process may be stopped at any point, and whoever was stopped may enter again once nobody is inside. */
  lemma AnyoneMayStop(locking: bool, s: State, i: nat)
    requires i < |s.procs|
    ensures Step(locking, s, Move(s, i, Idle))
    ensures (forall j: nat | j != i :: !Busy(s, j)) ==>
      Step(locking, Move(s, i, Idle), Move(s, i, Entered(true)))
  {
    var stopped := Move(s, i, Idle);
    assert Does(locking, s, stopped, Abandoning(i));
    if forall j: nat | j != i :: !Busy(s, j) {
      assert forall j: nat | j != i && j < |s.procs| :: stopped.procs[j] == s.procs[j];
      forall j: nat ensures !Busy(stopped, j) { if j != i { assert !Busy(s, j); } }
      assert Does(locking, stopped, Move(s, i, Entered(true)), Entering(i, true));
    }
  }

  // ---- The invariant ----

  /** What the process's own progress has already cleared. */
  ghost predicate Cleared(s: State, p: Process) {
    match p.stage
    case Idle => true
    case Entered(startup) => startup || p.constructed
    case Deleted(_, g) => 0 < g <= s.pending
    case Checkpointed(_, g) => 0 < g <= s.pending
    case Vacuumed(_, g) => 0 < g <= s.pending && forall tag | tag in s.free :: tag > g
    case Compacted(_, g) => 0 < g <= s.pending && forall tag | tag in Residue(s) :: tag > g
    case Finished(_) => s.pending > 0
  }

  ghost predicate Inv(s: State) {
    && s.completed <= s.pending
    && (forall tag | tag in Residue(s) :: tag <= s.pending && (s.completed > 0 ==> tag > s.completed))
    && (forall i | 0 <= i < |s.procs| :: Cleared(s, s.procs[i]) && (s.procs[i].constructed ==> s.pending > 0))
  }

  /** The safety property the generations exist for. */
  ghost predicate Safe(s: State) {
    && s.completed <= s.pending
    && (Residue(s) != {} ==> s.pending > s.completed || s.pending == 0)
  }

  lemma InvIsSafe(s: State)
    requires Inv(s)
    ensures Safe(s)
  {
    if Residue(s) != {} {
      var tag :| tag in Residue(s);
    }
  }

  lemma InitialInv(s: State)
    requires Initial(s)
    ensures Inv(s)
  {
  }

  /** Every other process keeps what it has cleared when one process takes a step that deletes
      only under a fresh generation. */
  lemma OthersKeepCleared(s: State, t: State, p: Process)
    requires Cleared(s, p) && (p.constructed ==> s.pending > 0) && s.pending <= t.pending
    requires forall tag | tag in Residue(t) :: tag in Residue(s) || tag > s.pending
    requires forall tag | tag in t.free :: tag in s.free || tag > s.pending
    ensures Cleared(t, p) && (p.constructed ==> t.pending > 0)
  {
  }

  lemma DoesKeepsInv(locking: bool, s: State, t: State, a: Action)
    requires Inv(s) && Does(locking, s, t, a)
    ensures Inv(t) && s.pending <= t.pending
  {
    assert Cleared(s, s.procs[a.i]);
    forall j | 0 <= j < |t.procs| ensures Cleared(t, t.procs[j]) && (t.procs[j].constructed ==> t.pending > 0) {
      if j != a.i { OthersKeepCleared(s, t, s.procs[j]); }
    }
  }

  lemma StepKeepsInv(locking: bool, s: State, t: State)
    requires Inv(s) && Step(locking, s, t)
    ensures Inv(t) && s.pending <= t.pending
  {
    var a :| Does(locking, s, t, a);
    DoesKeepsInv(locking, s, t, a);
  }

  lemma {:induction false} RunKeepsInv(locking: bool, run: seq<State>, k: nat)
    requires Run(locking, run) && k < |run|
    ensures Inv(run[k])
  {
    if k == 0 {
      InitialInv(run[0]);
    } else {
      RunKeepsInv(locking, run, k - 1);
      assert Step(locking, run[k - 1], run[k - 1 + 1]);
      StepKeepsInv(locking, run[k - 1], run[k]);
    }
  }

  /** In every state of every run, by any number of processes, with or without the lock and with
      crashes anywhere: completed never passes pending, and deleted bytes are never on disk with
      nothing pending. */
  lemma ScrubIsNeverForgotten(locking: bool, run: seq<State>, k: nat)
    requires Run(locking, run) && k < |run|
    ensures Safe(run[k])
  {
    RunKeepsInv(locking, run, k);
    InvIsSafe(run[k]);
  }

  lemma {:induction false} PendingNeverDecreases(locking: bool, run: seq<State>, j: nat, k: nat)
    requires Run(locking, run) && j <= k < |run|
    ensures run[j].pending <= run[k].pending
    decreases k
  {
    if j < k {
      PendingNeverDecreases(locking, run, j, k - 1);
      RunKeepsInv(locking, run, k - 1);
      assert Step(locking, run[k - 1], run[k - 1 + 1]);
      StepKeepsInv(locking, run[k - 1], run[k]);
    }
  }

  // ---- With the database lock ----

  ghost predicate Abreast(s: State, stage: Stage) {
    match stage
    case Idle => true
    case Entered(_) => true
    case Deleted(_, g) => g == s.pending
    case Checkpointed(_, g) => g == s.pending
    case Vacuumed(_, g) => g == s.pending
    case Compacted(_, g) => g == s.pending
    case Finished(_) => Residue(s) == {} && s.pending == s.completed
  }

  /** One process inside at a time, working on the newest generation. */
  ghost predicate Locked(s: State) {
    && (forall i, j | 0 <= i < |s.procs| && 0 <= j < |s.procs| && Busy(s, i) && Busy(s, j) :: i == j)
    && (forall i | 0 <= i < |s.procs| :: Abreast(s, s.procs[i].stage))
  }

  lemma OthersUntouched(s: State, t: State, a: Action)
    requires Does(true, s, t, a)
    ensures a.i < |s.procs| == |t.procs|
    ensures forall j | 0 <= j < |t.procs| && j != a.i :: t.procs[j] == s.procs[j]
    ensures Busy(t, a.i) ==> a.Entering? || Busy(s, a.i)
  {
  }

  lemma NothingPendingNothingLeft(s: State)
    requires Inv(s) && s.pending == s.completed > 0
    ensures Residue(s) == {}
  {
    forall tag ensures tag !in Residue(s) {}
  }

  lemma ActorAbreast(s: State, t: State, a: Action)
    requires Inv(s) && Inv(t) && Locked(s) && Does(true, s, t, a)
    ensures Abreast(t, t.procs[a.i].stage)
  {
    assert Cleared(s, s.procs[a.i]) && Abreast(s, s.procs[a.i].stage);
    if t.procs[a.i].stage.Finished? && t.pending == t.completed > 0 {
      NothingPendingNothingLeft(t);
    }
  }

  lemma StepKeepsLocked(s: State, t: State)
    requires Inv(s) && Locked(s) && Step(true, s, t)
    ensures Locked(t)
  {
    hide Does, Inv;
    var a :| Does(true, s, t, a);
    DoesKeepsInv(true, s, t, a);
    ActorAbreast(s, t, a);
    OthersUntouched(s, t, a);
    forall j | 0 <= j < |t.procs| && j != a.i ensures Abreast(t, t.procs[j].stage) && !(Busy(t, j) && Busy(t, a.i)) {
      if Busy(t, j) {
        assert Busy(s, j);
        OnlyLeaving(s, t, a, j);
        assert Abreast(s, s.procs[j].stage);
      }
    }
    forall i, j | 0 <= i < |t.procs| && 0 <= j < |t.procs| && Busy(t, i) && Busy(t, j) ensures i == j {
      if i != a.i && j != a.i { assert Busy(s, i) && Busy(s, j); }
    }
  }

  /** While another process is inside, the only step of this one is abandoning what it is not doing. */
  lemma OnlyLeaving(s: State, t: State, a: Action, j: nat)
    requires Locked(s) && Does(true, s, t, a) && j != a.i && j < |s.procs| && Busy(s, j)
    ensures a.Abandoning? && !Busy(t, a.i)
    ensures t == s.(procs := t.procs) && t.procs[j] == s.procs[j]
  {
    assert !Busy(s, a.i);
  }

  lemma {:induction false} LockedRun(run: seq<State>, k: nat)
    requires Run(true, run) && k < |run|
    ensures Locked(run[k])
  {
    if k != 0 {
      LockedRun(run, k - 1);
      RunKeepsInv(true, run, k - 1);
      assert Step(true, run[k - 1], run[k - 1 + 1]);
      StepKeepsLocked(run[k - 1], run[k]);
    }
  }

  /** With the lock, a purge or a construction that returns normally leaves no deleted byte in the
      file, and its generation recorded as completed. */
  lemma ReturnLeavesNoResidue(run: seq<State>, k: nat, i: nat, startup: bool)
    requires Run(true, run) && k + 1 < |run| && Return(run[k], run[k + 1], i, startup)
    ensures Residue(run[k + 1]) == {} && run[k + 1].pending == run[k + 1].completed
  {
    LockedRun(run, k);
  }

  lemma FirstState(locking: bool, s: State)
    requires Initial(s)
    ensures Run(locking, [s])
  {
  }

  lemma OneMoreStep(locking: bool, run: seq<State>, t: State, a: Action)
    requires Run(locking, run) && Does(locking, run[|run| - 1], t, a)
    ensures Run(locking, run + [t])
  {
    hide Does;
    assert Step(locking, run[|run| - 1], t);
    var more := run + [t];
    forall k | 0 <= k < |more| - 1 ensures Step(locking, more[k], more[k + 1]) {
      if k < |run| - 1 { assert Step(locking, run[k], run[k + 1]); }
    }
  }

  lemma Extended(locking: bool, run: seq<State>, t: State, a: Action) returns (longer: seq<State>)
    requires Run(locking, run) && Does(locking, run[|run| - 1], t, a)
    ensures longer == run + [t] && Run(locking, longer)
  {
    OneMoreStep(locking, run, t, a);
    longer := run + [t];
  }

  /** Two start-ups without the lock: the first has vacuumed, the second has entered. */
  lemma TwoStartups() returns (run: seq<State>)
    ensures Run(false, run) && |run| == 6
    ensures run[5] == State(1, 0, {}, {1}, [Process(Vacuumed(true, 1), false), Process(Entered(true), false)])
  {
    hide Run;
    var idle := Process(Idle, false);
    var s0 := State(0, 0, {}, {}, [idle, idle]);
    var s1 := Move(s0, 0, Entered(true));
    var s2 := Move(s1.(pending := 1, free := {1}), 0, Deleted(true, 1));
    var s3 := Move(s2, 1, Entered(true));
    var s4 := Move(s3, 0, Checkpointed(true, 1));
    var s5 := Move(s4.(free := {}, shadow := {1}), 0, Vacuumed(true, 1));
    assert {1} == {} + {1};
    FirstState(false, s0);
    run := [s0];
    run := Extended(false, run, s1, Entering(0, true));
    run := Extended(false, run, s2, Deleting(0, true, true));
    run := Extended(false, run, s3, Entering(1, true));
    run := Extended(false, run, s4, Checkpointing(0, true, 1));
    run := Extended(false, run, s5, Vacuuming(0, true, 1));
  }

  /** Without the lock that is not so: the first of two start-ups returns while the second's deleted
      bytes are on disk (their generation is still pending, so they are not forgotten). */
  lemma ReturnWithoutLockMayLeaveResidue() returns (run: seq<State>)
    ensures Run(false, run) && |run| == 10
    ensures Return(run[8], run[9], 0, true)
    ensures Residue(run[9]) != {} && run[9].pending > run[9].completed
  {
    hide Run;
    run := TwoStartups();
    var s6 := Move(run[5].(shadow := {}), 0, Compacted(true, 1));
    var s7 := Move(s6.(pending := 2, free := {2}), 1, Deleted(true, 2));
    var s8 := Move(s7, 0, Finished(true));
    var s9 := s8.(procs := s8.procs[0 := Process(Idle, true)]);
    assert {2} == {} + {2};
    run := Extended(false, run, s6, Truncating(0, true, 1));
    run := Extended(false, run, s7, Deleting(1, true, true));
    run := Extended(false, run, s8, Completing(0, true, 1));
    run := Extended(false, run, s9, Returning(0, true));
    assert 2 in Residue(s9);
  }
}
