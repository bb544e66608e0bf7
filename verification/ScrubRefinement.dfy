/** The cache of `HttpCache` takes the steps of `ScrubProtocol`: start-ups and purges that exclude each
    other by the lock, in any order and of any number of processes, are a run of the protocol. */
module ScrubRefinement {
  import opened HttpCache
  import opened ScrubProtocol
  import Numerals

  /** What a state of the protocol shows of generations and deleted bytes. */
  function MarksOf(s: State): Marks { Marks(s.pending, s.completed, Residue(s) != {}) }

  function Last(run: seq<State>): State
    requires run != []
  {
    run[|run| - 1]
  }

  ghost predicate Quiet(s: State) { forall i | 0 <= i < |s.procs| :: s.procs[i].stage == Idle }

  /** The processes that hold a cache. */
  function Holders(s: State): set<nat> { set i | 0 <= i < |s.procs| && s.procs[i].constructed }

  /** One start-up or purge: which process, whether it deletes rows, whether a reader is busy. */
  datatype Op = Op(process: nat, startup: bool, deleted: bool, busy: bool)

  function Joins(op: Op, returned: bool): set<nat> { if op.startup && returned then {op.process} else {} }

  /** The generation that a call works on. */
  function Generation(s: State, op: Op): nat {
    if op.deleted || (op.startup && s.pending == 0) then Numerals.Max(s.pending, s.completed) + 1 else s.pending
  }

  /** The first transaction is committed. */
  function Marked(s: State, op: Op): State {
    s.(pending := Generation(s, op), free := if op.deleted then s.free + {Generation(s, op)} else s.free)
  }

  lemma Begins(run: seq<State>, op: Op) returns (longer: seq<State>)
    requires run != [] && Run(true, run) && Quiet(Last(run)) && op.process < |Last(run).procs|
    requires op.startup || op.process in Holders(Last(run))
    ensures Run(true, longer) && run < longer
    ensures var s, generation := Last(run), Generation(Last(run), op);
      Last(longer) == Move(Marked(s, op), op.process,
        if generation > s.completed then Deleted(op.startup, generation) else Finished(op.startup))
  {
    hide Run, Step;
    var s := Last(run);
    longer := Extended(true, run, Move(s, op.process, Entered(op.startup)), Entering(op.process, op.startup));
    var stage :=
      if Generation(s, op) > s.completed then Deleted(op.startup, Generation(s, op)) else Finished(op.startup);
    longer := Extended(true, longer, Move(Marked(s, op), op.process, stage),
      Deleting(op.process, op.startup, op.deleted));
  }

  /** What an unscrubbed call shows. */
  lemma MarkedShows(s: State, op: Op, procs: seq<Process>)
    ensures MarksOf(s).pending == s.pending && MarksOf(s).completed == s.completed
    ensures var m := MarksOf(s);
      MarksOf(Marked(s, op).(procs := procs)) == Marks(Generation(s, op), s.completed, m.residue || op.deleted)
    ensures var generation := Generation(s, op);
      MarksOf(s.(pending := generation, completed := generation, free := {}, shadow := {}, procs := procs))
        == Marks(generation, generation, false)
  {
    if op.deleted { assert Generation(s, op) in Residue(Marked(s, op)); }
  }

  /** The process is idle again, and a start-up that returned has made its cache. */
  lemma Leaves(before: State, after: State, op: Op, returned: bool)
    requires Quiet(before) && op.process < |before.procs|
    requires op.startup || op.process in Holders(before)
    requires after.procs == before.procs[op.process :=
      Process(Idle, before.procs[op.process].constructed || (op.startup && returned))]
    ensures Quiet(after) && |after.procs| == |before.procs|
    ensures Holders(after) == Holders(before) + Joins(op, returned)
  {
  }

  lemma QuietIsIdle(s: State, i: nat)
    requires Quiet(s) && i < |s.procs|
    ensures s.procs[i].stage == Idle
  {
  }

  /** A run that goes on with one start-up or purge, step by step, and ends with its return or with the
      exception that its compaction raises. */
  lemma ScrubExtends(run: seq<State>, op: Op) returns (longer: seq<State>)
    requires run != [] && Run(true, run) && Quiet(Last(run)) && op.process < |Last(run).procs|
    requires op.startup || op.process in Holders(Last(run))
    ensures Run(true, longer) && run < longer
    ensures Quiet(Last(longer)) && |Last(longer).procs| == |Last(run).procs|
    ensures var after := Scrub(MarksOf(Last(run)), op.startup, op.deleted, op.busy);
      && MarksOf(Last(longer)) == after.0 && Holders(Last(longer)) == Holders(Last(run)) + Joins(op, after.1)
      && (after.1 ==> |longer| >= 2 && Return(longer[|longer| - 2], Last(longer), op.process, op.startup))
  {
    hide Run, Step, Holders, Residue, Quiet, Joins, MarksOf;
    var s, i, startup := Last(run), op.process, op.startup;
    QuietIsIdle(s, i);
    longer := Begins(run, op);
    var marked := Last(longer);
    if Generation(s, op) > s.completed && op.busy {
      longer := Extended(true, longer, Move(marked, i, Idle), Abandoning(i));
      Leaves(s, Last(longer), op, false);
    } else {
      if Generation(s, op) > s.completed { longer := Compacts(longer, i, startup, Generation(s, op)); }
      longer := Returned(longer, i, startup);
      Leaves(s, Last(longer), op, true);
    }
    assert Last(longer) == Last(longer).(procs := Last(longer).procs);
    MarkedShows(s, op, Last(longer).procs);
  }

  /** Checkpoint, vacuum, checkpoint, and the second transaction. */
  lemma Compacts(run: seq<State>, i: nat, startup: bool, generation: nat) returns (longer: seq<State>)
    requires run != [] && Run(true, run) && At(Last(run), i, Deleted(startup, generation))
    requires Last(run).pending == generation
    ensures Run(true, longer) && run < longer
    ensures Last(longer) == Move(Last(run), i, Finished(startup)).(completed := generation, free := {}, shadow := {})
  {
    hide Run, Step;
    var checkpointed := Move(Last(run).(shadow := {}), i, Checkpointed(startup, generation));
    var free := checkpointed.free;
    var vacuumed := Move(checkpointed.(free := {}, shadow := {} + free), i, Vacuumed(startup, generation));
    var truncated := Move(vacuumed.(shadow := {}), i, Compacted(startup, generation));
    longer := Extended(true, run, checkpointed, Checkpointing(i, startup, generation));
    longer := Extended(true, longer, vacuumed, Vacuuming(i, startup, generation));
    longer := Extended(true, longer, truncated, Truncating(i, startup, generation));
    longer := Extended(true, longer, Move(truncated.(completed := generation), i, Finished(startup)),
      Completing(i, startup, generation));
  }

  lemma Returned(run: seq<State>, i: nat, startup: bool) returns (longer: seq<State>)
    requires run != [] && Run(true, run) && At(Last(run), i, Finished(startup))
    ensures Run(true, longer) && run < longer && |longer| == |run| + 1
    ensures longer[|longer| - 2] == Last(run) && Return(Last(run), Last(longer), i, startup)
  {
    hide Run, Step;
    var s := Last(run);
    longer := Extended(true, run, s.(procs := s.procs[i := Process(Idle, s.procs[i].constructed || startup)]),
      Returning(i, startup));
  }

  // ---- Any number of them ----

  /** The marks, and the processes that hold a cache, after some operations. */
  function After(first: Marks, ops: seq<Op>): (Marks, set<nat>) {
    if ops == [] then (first, {})
    else
      var (marks, holders) := After(first, ops[..|ops| - 1]);
      var op := ops[|ops| - 1];
      var (next, ok) := Scrub(marks, op.startup, op.deleted, op.busy);
      (next, holders + Joins(op, ok))
  }

  /** Only a process that holds a cache purges it. */
  ghost predicate Legal(first: Marks, ops: seq<Op>, processes: nat) {
    forall k | 0 <= k < |ops| ::
      ops[k].process < processes && (ops[k].startup || ops[k].process in After(first, ops[..k]).1)
  }

  function Fresh(processes: nat, residue: bool): State {
    State(0, 0, if residue then {0} else {}, {}, seq(processes, i => Process(Idle, false)))
  }

  lemma LegalBefore(first: Marks, ops: seq<Op>, processes: nat)
    requires Legal(first, ops, processes) && ops != []
    ensures var last := |ops| - 1;
      && Legal(first, ops[..last], processes) && ops[last].process < processes
      && (ops[last].startup || ops[last].process in After(first, ops[..last]).1)
  {
    hide After;
    var last := |ops| - 1;
    forall k | 0 <= k < last ensures ops[..last][..k] == ops[..k] {}
  }

  lemma Untouched(processes: nat, residue: bool)
    ensures var s := Fresh(processes, residue);
      Initial(s) && Quiet(s) && MarksOf(s) == Marks(0, 0, residue) && Holders(s) == {}
  {
    var s := Fresh(processes, residue);
    assert residue ==> 0 in Residue(s);
  }

  /** Whatever the caches of any number of processes do to a file one after the other, the protocol
      has a run to the same generations and residue. */
  lemma {:induction false} CallsAreRuns(ops: seq<Op>, processes: nat, residue: bool) returns (run: seq<State>)
    requires Legal(Marks(0, 0, residue), ops, processes)
    ensures run != [] && Run(true, run) && Quiet(Last(run)) && |Last(run).procs| == processes
    ensures (MarksOf(Last(run)), Holders(Last(run))) == After(Marks(0, 0, residue), ops)
  {
    hide Run, Scrub, Legal, Quiet, Holders, MarksOf, Initial, Return;
    if ops == [] {
      run := [Fresh(processes, residue)];
      Untouched(processes, residue);
      FirstState(true, run[0]);
    } else {
      var last := |ops| - 1;
      LegalBefore(Marks(0, 0, residue), ops, processes);
      run := CallsAreRuns(ops[..last], processes, residue);
      run := ScrubExtends(run, ops[last]);
    }
  }

  /** Whether the last of some operations returns. */
  function Returns(first: Marks, ops: seq<Op>): bool
    requires ops != []
  {
    var op := ops[|ops| - 1];
    Scrub(After(first, ops[..|ops| - 1]).0, op.startup, op.deleted, op.busy).1
  }

  lemma AfterUnfolds(first: Marks, ops: seq<Op>)
    requires ops != []
    ensures var op, before := ops[|ops| - 1], After(first, ops[..|ops| - 1]);
      After(first, ops).0 == Scrub(before.0, op.startup, op.deleted, op.busy).0
  {
  }

  /** So a file that the caches have touched never forgets its deleted bytes, and a call that returns
      leaves none, whatever came before it. */
  lemma {:induction false} CallsScrub(ops: seq<Op>, processes: nat, residue: bool)
    requires Legal(Marks(0, 0, residue), ops, processes) && ops != []
    ensures var marks := After(Marks(0, 0, residue), ops).0;
      && marks.completed <= marks.pending
      && (marks.residue ==> marks.completed < marks.pending || marks.pending == 0)
      && (Returns(Marks(0, 0, residue), ops) ==> !marks.residue && marks.pending == marks.completed)
  {
    hide Run, Scrub, Legal, Quiet, Holders, Return, After;
    var first, op := Marks(0, 0, residue), ops[|ops| - 1];
    LegalBefore(first, ops, processes);
    var run := CallsAreRuns(ops[..|ops| - 1], processes, residue);
    run := ScrubExtends(run, op);
    ScrubIsNeverForgotten(true, run, |run| - 1);
    AfterUnfolds(first, ops);
    if Returns(first, ops) {
      ReturnLeavesNoResidue(run, |run| - 2, op.process, op.startup);
    }
  }
}
