/** The lineage aggregate (scripts/generate_docs_search_index.py, `_lineage_aggregate_payload`): the
    rows it reads, the totals it keeps per node and per edge, and what each row adds to them. */
module LineageTables {

  /** Rows with their fields already stripped; an absent field is empty. */
  datatype BoardRow = BoardRow(key: string, source: string)

  datatype ProviderRow = ProviderRow(source: string, board: string, provider: string, support: string, status: string)

  /** `sources` are the non-empty source keys of the job, repeated when its list repeats them. */
  datatype JobRow = JobRow(board: string, provider: string, open: bool, description: bool, location: bool,
    compensation: bool, sources: seq<string>)

  datatype Row = OfBoard(board: BoardRow) | OfProvider(route: ProviderRow) | OfJob(job: JobRow)

  /** Counters are multisets.  Edges use the routes, jobs, open jobs and counters only. */
  datatype Totals = Totals(routes: nat, jobs: nat, openJobs: nat, closedJobs: nat, descriptionJobs: nat,
    locationJobs: nat, compensationJobs: nat, sources: set<string>, providers: set<string>, boards: set<string>,
    supports: multiset<string>, statuses: multiset<string>)

  const NOTHING: Totals := Totals(0, 0, 0, 0, 0, 0, 0, {}, {}, {}, multiset{}, multiset{})

  function Add(a: Totals, b: Totals): Totals {
    Totals(a.routes + b.routes, a.jobs + b.jobs, a.openJobs + b.openJobs, a.closedJobs + b.closedJobs,
      a.descriptionJobs + b.descriptionJobs, a.locationJobs + b.locationJobs, a.compensationJobs + b.compensationJobs,
      a.sources + b.sources, a.providers + b.providers, a.boards + b.boards,
      a.supports + b.supports, a.statuses + b.statuses)
  }

  // ---- Tables ----

  type Table<K> = map<K, Totals>

  datatype Event<K> = Event(key: K, gain: Totals)

  /** `setdefault` followed by an update. */
  function Bump<K>(table: Table<K>, key: K, gain: Totals): Table<K> {
    table[key := Add(At(table, key), gain)]
  }

  function At<K>(table: Table<K>, key: K): Totals { if key in table then table[key] else NOTHING }

  function Fold<K>(table: Table<K>, events: seq<Event<K>>): Table<K> {
    if events == [] then table
    else
      var last := |events| - 1;
      Bump(Fold(table, events[..last]), events[last].key, events[last].gain)
  }

  datatype NodeKind = Source | Provider | Board
  datatype EdgeKind = SourceProvider | SourceBoard | ProviderBoard

  type Edge = (string, string)

  // ---- What one row adds ----

  function Bit(b: bool): nat { if b then 1 else 0 }

  function NonEmpty(s: string): set<string> { if s == "" then {} else {s} }

  function Counter(s: string): multiset<string> { if s == "" then multiset{} else multiset{s} }

  /** `_increment_lineage_job_metrics`. */
  function JobGain(j: JobRow, provider: string, board: string): Totals {
    Totals(0, 1, Bit(j.open), Bit(!j.open), Bit(j.description), Bit(j.location), Bit(j.compensation),
      {}, NonEmpty(provider), NonEmpty(board), multiset{}, multiset{})
  }

  function EdgeJobGain(j: JobRow): Totals { NOTHING.(jobs := 1, openJobs := Bit(j.open)) }

  function RouteGain(r: ProviderRow): Totals {
    NOTHING.(routes := 1, supports := Counter(r.support), statuses := Counter(r.status))
  }

  function PerSource<K>(sources: seq<string>, event: string -> Event<K>): seq<Event<K>> {
    seq(|sources|, i requires 0 <= i < |sources| => event(sources[i]))
  }

  function NodeEvents(kind: NodeKind, row: Row): seq<Event<string>> {
    match row
    case OfBoard(b) =>
      if b.key == "" then []
      else
        (match kind
         case Source => if b.source == "" then [] else [Event(b.source, NOTHING.(boards := {b.key}))]
         case Provider => []
         case Board => [Event(b.key, NOTHING)])
    case OfProvider(r) =>
      if r.provider == "" then []
      else
        (match kind
         case Source => if r.source == "" then []
           else [Event(r.source, NOTHING.(routes := 1, providers := {r.provider}))]
         case Provider => [Event(r.provider, RouteGain(r).(sources := NonEmpty(r.source), boards := NonEmpty(r.board)))]
         case Board => if r.board == "" then [] else [Event(r.board, RouteGain(r).(providers := {r.provider}))])
    case OfJob(j) =>
      (match kind
       case Source => PerSource(j.sources, s => Event(s, JobGain(j, j.provider, j.board)))
       case Provider => if j.provider == "" then [] else [Event(j.provider, JobGain(j, "", j.board))]
       case Board => if j.board == "" then [] else [Event(j.board, JobGain(j, j.provider, ""))])
  }

  function EdgeEvents(kind: EdgeKind, row: Row): seq<Event<Edge>> {
    match row
    case OfBoard(b) =>
      if b.key == "" || b.source == "" || !kind.SourceBoard? then [] else [Event((b.source, b.key), NOTHING)]
    case OfProvider(r) =>
      if r.provider == "" then []
      else
        (match kind
         case SourceProvider => if r.source == "" then [] else [Event((r.source, r.provider), NOTHING.(routes := 1))]
         case SourceBoard => []
         case ProviderBoard => if r.board == "" then [] else [Event((r.provider, r.board), RouteGain(r))])
    case OfJob(j) =>
      (match kind
       case SourceProvider =>
         if j.provider == "" then [] else PerSource(j.sources, s => Event((s, j.provider), EdgeJobGain(j)))
       case SourceBoard =>
         if j.board == "" then [] else PerSource(j.sources, s => Event((s, j.board), EdgeJobGain(j)))
       case ProviderBoard =>
         if j.provider == "" || j.board == "" then [] else [Event((j.provider, j.board), EdgeJobGain(j))])
  }

  /** The table of a kind after a run of rows. */
  function NodeTable(kind: NodeKind, rows: seq<Row>): Table<string> {
    if rows == [] then map[] else Fold(NodeTable(kind, rows[..|rows| - 1]), NodeEvents(kind, rows[|rows| - 1]))
  }

  function EdgeTable(kind: EdgeKind, rows: seq<Row>): Table<Edge> {
    if rows == [] then map[] else Fold(EdgeTable(kind, rows[..|rows| - 1]), EdgeEvents(kind, rows[|rows| - 1]))
  }

  lemma FoldNone<K>(table: Table<K>)
    ensures Fold(table, []) == table
  {
  }

  lemma FoldOne<K>(table: Table<K>, key: K, gain: Totals)
    ensures Fold(table, [Event(key, gain)]) == Bump(table, key, gain)
  {
    hide Bump;
    assert [Event(key, gain)][..0] == [];
  }

  lemma FoldNext<K>(table: Table<K>, events: seq<Event<K>>, i: nat)
    requires i < |events|
    ensures Fold(table, events[..i + 1]) == Bump(Fold(table, events[..i]), events[i].key, events[i].gain)
  {
    hide Bump;
    assert events[..i + 1][..i] == events[..i];
  }

  lemma BoardRowFolds(b: BoardRow, nodes: Table<string>, edges: Table<Edge>)
    ensures Fold(nodes, NodeEvents(Provider, OfBoard(b))) == nodes
    ensures Fold(nodes, NodeEvents(Board, OfBoard(b))) == if b.key == "" then nodes else Bump(nodes, b.key, NOTHING)
    ensures Fold(nodes, NodeEvents(Source, OfBoard(b)))
      == if b.key == "" || b.source == "" then nodes else Bump(nodes, b.source, NOTHING.(boards := {b.key}))
    ensures Fold(edges, EdgeEvents(SourceProvider, OfBoard(b))) == edges
    ensures Fold(edges, EdgeEvents(ProviderBoard, OfBoard(b))) == edges
    ensures Fold(edges, EdgeEvents(SourceBoard, OfBoard(b)))
      == if b.key == "" || b.source == "" then edges else Bump(edges, (b.source, b.key), NOTHING)
  {
    hide Fold, Bump;
    FoldNone(nodes);
    FoldNone(edges);
    FoldOne(nodes, b.key, NOTHING);
    FoldOne(nodes, b.source, NOTHING.(boards := {b.key}));
    FoldOne(edges, (b.source, b.key), NOTHING);
  }

  function ProviderNodeGain(r: ProviderRow): Totals {
    RouteGain(r).(sources := NonEmpty(r.source), boards := NonEmpty(r.board))
  }

  lemma ProviderRowFolds(r: ProviderRow, nodes: Table<string>, edges: Table<Edge>)
    ensures Fold(nodes, NodeEvents(Provider, OfProvider(r)))
      == if r.provider == "" then nodes else Bump(nodes, r.provider, ProviderNodeGain(r))
    ensures Fold(nodes, NodeEvents(Board, OfProvider(r)))
      == if r.provider == "" || r.board == "" then nodes
        else Bump(nodes, r.board, RouteGain(r).(providers := {r.provider}))
    ensures Fold(nodes, NodeEvents(Source, OfProvider(r))) == if r.provider == "" || r.source == "" then nodes
      else Bump(nodes, r.source, NOTHING.(routes := 1, providers := {r.provider}))
    ensures Fold(edges, EdgeEvents(SourceProvider, OfProvider(r))) == if r.provider == "" || r.source == "" then edges
      else Bump(edges, (r.source, r.provider), NOTHING.(routes := 1))
    ensures Fold(edges, EdgeEvents(ProviderBoard, OfProvider(r)))
      == if r.provider == "" || r.board == "" then edges else Bump(edges, (r.provider, r.board), RouteGain(r))
    ensures Fold(edges, EdgeEvents(SourceBoard, OfProvider(r))) == edges
  {
    hide Fold, Bump, RouteGain, NonEmpty;
    FoldNone(nodes);
    FoldNone(edges);
    FoldOne(nodes, r.provider, ProviderNodeGain(r));
    FoldOne(nodes, r.board, RouteGain(r).(providers := {r.provider}));
    FoldOne(nodes, r.source, NOTHING.(routes := 1, providers := {r.provider}));
    FoldOne(edges, (r.source, r.provider), NOTHING.(routes := 1));
    FoldOne(edges, (r.provider, r.board), RouteGain(r));
  }

  lemma JobRowFolds(j: JobRow, nodes: Table<string>, edges: Table<Edge>)
    ensures Fold(nodes, NodeEvents(Provider, OfJob(j)))
      == if j.provider == "" then nodes else Bump(nodes, j.provider, JobGain(j, "", j.board))
    ensures Fold(nodes, NodeEvents(Board, OfJob(j)))
      == if j.board == "" then nodes else Bump(nodes, j.board, JobGain(j, j.provider, ""))
    ensures Fold(edges, EdgeEvents(ProviderBoard, OfJob(j)))
      == if j.provider == "" || j.board == "" then edges else Bump(edges, (j.provider, j.board), EdgeJobGain(j))
  {
    hide Fold, Bump, JobGain, EdgeJobGain;
    FoldNone(nodes);
    FoldNone(edges);
    FoldOne(nodes, j.provider, JobGain(j, "", j.board));
    FoldOne(nodes, j.board, JobGain(j, j.provider, ""));
    FoldOne(edges, (j.provider, j.board), EdgeJobGain(j));
  }

  // ---- The loops ----

  class Lineage {
    var sources: Table<string>
    var providers: Table<string>
    var boards: Table<string>
    var sourceProviders: Table<Edge>
    var sourceBoards: Table<Edge>
    var providerBoards: Table<Edge>

    /** The six dictionaries hold what the rows so far add up to. */
    ghost predicate Holds(rows: seq<Row>)
      reads this
    {
      && sources == NodeTable(Source, rows)
      && providers == NodeTable(Provider, rows)
      && boards == NodeTable(Board, rows)
      && sourceProviders == EdgeTable(SourceProvider, rows)
      && sourceBoards == EdgeTable(SourceBoard, rows)
      && providerBoards == EdgeTable(ProviderBoard, rows)
    }

    constructor ()
      ensures Holds([])
    {
      sources, providers, boards := map[], map[], map[];
      sourceProviders, sourceBoards, providerBoards := map[], map[], map[];
    }

    method AddBoard(b: BoardRow, ghost before: seq<Row>)
      requires Holds(before)
      modifies this
      ensures Holds(before + [OfBoard(b)])
    {
      hide Fold, Bump, NodeEvents, EdgeEvents, NodeTable, EdgeTable;
      Extend(before, OfBoard(b));
      BoardRowFolds(b, providers, sourceProviders);
      BoardRowFolds(b, boards, providerBoards);
      BoardRowFolds(b, sources, sourceBoards);
      if b.key == "" { return; }
      boards := Bump(boards, b.key, NOTHING);
      if b.source != "" {
        sources := Bump(sources, b.source, NOTHING.(boards := {b.key}));
        sourceBoards := Bump(sourceBoards, (b.source, b.key), NOTHING);
      }
    }

    method AddProvider(r: ProviderRow, ghost before: seq<Row>)
      requires Holds(before)
      modifies this
      ensures Holds(before + [OfProvider(r)])
    {
      hide Fold, Bump, NodeEvents, EdgeEvents, NodeTable, EdgeTable, RouteGain, ProviderNodeGain;
      Extend(before, OfProvider(r));
      ProviderRowFolds(r, providers, sourceProviders);
      ProviderRowFolds(r, boards, providerBoards);
      ProviderRowFolds(r, sources, sourceBoards);
      if r.provider == "" { return; }
      providers := Bump(providers, r.provider, ProviderNodeGain(r));
      if r.source != "" {
        sources := Bump(sources, r.source, NOTHING.(routes := 1, providers := {r.provider}));
        sourceProviders := Bump(sourceProviders, (r.source, r.provider), NOTHING.(routes := 1));
      }
      if r.board != "" {
        boards := Bump(boards, r.board, RouteGain(r).(providers := {r.provider}));
        providerBoards := Bump(providerBoards, (r.provider, r.board), RouteGain(r));
      }
    }

    method AddJob(j: JobRow, ghost before: seq<Row>)
      requires Holds(before)
      modifies this
      ensures Holds(before + [OfJob(j)])
    {
      hide Fold, Bump, NodeEvents, EdgeEvents, NodeTable, EdgeTable, JobGain, EdgeJobGain;
      Extend(before, OfJob(j));
      JobRowFolds(j, providers, providerBoards);
      JobRowFolds(j, boards, providerBoards);
      if j.provider != "" {
        providers := Bump(providers, j.provider, JobGain(j, "", j.board));
      }
      if j.board != "" {
        boards := Bump(boards, j.board, JobGain(j, j.provider, ""));
      }
      if j.provider != "" && j.board != "" {
        providerBoards := Bump(providerBoards, (j.provider, j.board), EdgeJobGain(j));
      }
      AddSources(j);
    }

    /** The inner loop over the sources of a job. */
    method AddSources(j: JobRow)
      modifies this`sources, this`sourceProviders, this`sourceBoards
      ensures sources == Fold(old(sources), NodeEvents(Source, OfJob(j)))
      ensures sourceProviders == Fold(old(sourceProviders), EdgeEvents(SourceProvider, OfJob(j)))
      ensures sourceBoards == Fold(old(sourceBoards), EdgeEvents(SourceBoard, OfJob(j)))
    {
      hide Fold, Bump, NodeEvents, EdgeEvents, JobGain, EdgeJobGain;
      ghost var nodes := NodeEvents(Source, OfJob(j));
      ghost var withProvider := EdgeEvents(SourceProvider, OfJob(j));
      ghost var withBoard := EdgeEvents(SourceBoard, OfJob(j));
      SourceEvents(j);
      FoldNone(sources);
      FoldNone(sourceProviders);
      FoldNone(sourceBoards);
      for i := 0 to |j.sources|
        invariant sources == Fold(old(sources), nodes[..i])
        invariant j.provider == "" ==> sourceProviders == old(sourceProviders)
        invariant j.provider != "" ==> sourceProviders == Fold(old(sourceProviders), withProvider[..i])
        invariant j.board == "" ==> sourceBoards == old(sourceBoards)
        invariant j.board != "" ==> sourceBoards == Fold(old(sourceBoards), withBoard[..i])
      {
        var s := j.sources[i];
        FoldNext(old(sources), nodes, i);
        sources := Bump(sources, s, JobGain(j, j.provider, j.board));
        if j.provider != "" {
          FoldNext(old(sourceProviders), withProvider, i);
          sourceProviders := Bump(sourceProviders, (s, j.provider), EdgeJobGain(j));
        }
        if j.board != "" {
          FoldNext(old(sourceBoards), withBoard, i);
          sourceBoards := Bump(sourceBoards, (s, j.board), EdgeJobGain(j));
        }
      }
      assert nodes[..|j.sources|] == nodes;
      assert j.provider != "" ==> withProvider[..|j.sources|] == withProvider;
      assert j.board != "" ==> withBoard[..|j.sources|] == withBoard;
    }
  }

  lemma SourceEvents(j: JobRow)
    ensures var events := NodeEvents(Source, OfJob(j));
      && |events| == |j.sources|
      && forall i | 0 <= i < |events| :: events[i] == Event(j.sources[i], JobGain(j, j.provider, j.board))
    ensures var events := EdgeEvents(SourceProvider, OfJob(j));
      && (j.provider == "" ==> events == [])
      && (j.provider != "" ==> |events| == |j.sources|)
      && forall i | 0 <= i < |events| ::
        i < |j.sources| && events[i] == Event((j.sources[i], j.provider), EdgeJobGain(j))
    ensures var events := EdgeEvents(SourceBoard, OfJob(j));
      && (j.board == "" ==> events == [])
      && (j.board != "" ==> |events| == |j.sources|)
      && forall i | 0 <= i < |events| :: i < |j.sources| && events[i] == Event((j.sources[i], j.board), EdgeJobGain(j))
  {
    hide JobGain, EdgeJobGain;
  }

  lemma Extend(before: seq<Row>, row: Row)
    ensures forall kind :: NodeTable(kind, before + [row]) == Fold(NodeTable(kind, before), NodeEvents(kind, row))
    ensures forall kind :: EdgeTable(kind, before + [row]) == Fold(EdgeTable(kind, before), EdgeEvents(kind, row))
  {
    hide Fold, NodeEvents, EdgeEvents;
    assert (before + [row])[..|before|] == before;
  }

  function Boards(rows: seq<BoardRow>): seq<Row> {
    if rows == [] then [] else Boards(rows[..|rows| - 1]) + [OfBoard(rows[|rows| - 1])]
  }

  function Routes(rows: seq<ProviderRow>): seq<Row> {
    if rows == [] then [] else Routes(rows[..|rows| - 1]) + [OfProvider(rows[|rows| - 1])]
  }

  function Jobs(rows: seq<JobRow>): seq<Row> {
    if rows == [] then [] else Jobs(rows[..|rows| - 1]) + [OfJob(rows[|rows| - 1])]
  }

  /** The rows in the order in which the three loops read them. */
  function Input(boards: seq<BoardRow>, providers: seq<ProviderRow>, jobs: seq<JobRow>): seq<Row> {
    Boards(boards) + Routes(providers) + Jobs(jobs)
  }

  lemma InputGrows(boards: seq<BoardRow>, providers: seq<ProviderRow>, jobs: seq<JobRow>)
    ensures Input([], [], []) == []
    ensures boards != [] ==>
      Input(boards, [], []) == Input(boards[..|boards| - 1], [], []) + [OfBoard(boards[|boards| - 1])]
    ensures providers != [] ==>
      Input(boards, providers, []) == Input(boards, providers[..|providers| - 1], [])
        + [OfProvider(providers[|providers| - 1])]
    ensures jobs != [] ==>
      Input(boards, providers, jobs) == Input(boards, providers, jobs[..|jobs| - 1]) + [OfJob(jobs[|jobs| - 1])]
  {
    NothingRead();
    if boards != [] { assert Boards(boards) == Boards(boards[..|boards| - 1]) + [OfBoard(boards[|boards| - 1])]; }
    if providers != [] {
      var last := |providers| - 1;
      assert Routes(providers) == Routes(providers[..last]) + [OfProvider(providers[last])];
    }
    if jobs != [] { assert Jobs(jobs) == Jobs(jobs[..|jobs| - 1]) + [OfJob(jobs[|jobs| - 1])]; }
    hide Boards, Routes, Jobs;
  }

  lemma NothingRead()
    ensures Boards([]) == [] && Routes([]) == [] && Jobs([]) == []
  {
  }

  /** `_lineage_aggregate_payload`, up to the finishing of its nodes and edges. */
  method Aggregate(boards: seq<BoardRow>, providers: seq<ProviderRow>, jobs: seq<JobRow>) returns (lineage: Lineage)
    ensures fresh(lineage) && lineage.Holds(Input(boards, providers, jobs))
  {
    hide Input, NodeTable, EdgeTable;
    lineage := new Lineage();
    InputGrows([], [], []);
    for i := 0 to |boards|
      invariant fresh(lineage) && lineage.Holds(Input(boards[..i], [], []))
    {
      InputGrows(boards[..i + 1], [], []);
      assert boards[..i + 1][..i] == boards[..i];
      lineage.AddBoard(boards[i], Input(boards[..i], [], []));
    }
    assert boards[..|boards|] == boards;
    for i := 0 to |providers|
      invariant fresh(lineage) && lineage.Holds(Input(boards, providers[..i], []))
    {
      InputGrows(boards, providers[..i + 1], []);
      assert providers[..i + 1][..i] == providers[..i];
      lineage.AddProvider(providers[i], Input(boards, providers[..i], []));
    }
    assert providers[..|providers|] == providers;
    for i := 0 to |jobs|
      invariant fresh(lineage) && lineage.Holds(Input(boards, providers, jobs[..i]))
    {
      InputGrows(boards, providers, jobs[..i + 1]);
      assert jobs[..i + 1][..i] == jobs[..i];
      lineage.AddJob(jobs[i], Input(boards, providers, jobs[..i]));
    }
    assert jobs[..|jobs|] == jobs;
  }
}
