/** What the lineage totals conserve, for any rows in any order
    (scripts/generate_docs_search_index.py, `_lineage_aggregate_payload`). */
module LineageConservation {
  import opened LineageTables

  /** The counters of a node, and the entries of its two counters of texts. */
  datatype Metric =
    | Routed | Counted | Opened | Closed | Described | Located | Compensated
    | Supported(level: string) | Rated(status: string)

  function Measure(metric: Metric, t: Totals): nat {
    match metric
    case Routed => t.routes
    case Counted => t.jobs
    case Opened => t.openJobs
    case Closed => t.closedJobs
    case Described => t.descriptionJobs
    case Located => t.locationJobs
    case Compensated => t.compensationJobs
    case Supported(level) => t.supports[level]
    case Rated(status) => t.statuses[status]
  }

  lemma MeasureAdds(metric: Metric, a: Totals, b: Totals)
    ensures Measure(metric, Add(a, b)) == Measure(metric, a) + Measure(metric, b)
    ensures Measure(metric, NOTHING) == 0
  {
  }

  /** Whether a job counts for a metric. */
  predicate Shows(metric: Metric, j: JobRow) {
    match metric
    case Counted => true
    case Opened => j.open
    case Closed => !j.open
    case Described => j.description
    case Located => j.location
    case Compensated => j.compensation
    case _ => false
  }

  /** Whether a route counts for a metric; an absent text is not counted. */
  predicate RouteShows(metric: Metric, r: ProviderRow) {
    match metric
    case Routed => true
    case Supported(level) => level != "" && r.support == level
    case Rated(status) => status != "" && r.status == status
    case _ => false
  }

  /** How often a job names a node. */
  function Mentions(kind: NodeKind, key: string, j: JobRow): nat {
    match kind
    case Source => multiset(j.sources)[key]
    case Provider => Bit(key != "" && j.provider == key)
    case Board => Bit(key != "" && j.board == key)
  }

  /** Whether a route names a node. */
  predicate Reaches(kind: NodeKind, key: string, r: ProviderRow) {
    && r.provider != "" && key != ""
    && match kind
       case Source => r.source == key
       case Provider => r.provider == key
       case Board => r.board == key
  }

  function Share(kind: NodeKind, key: string, metric: Metric, row: Row): nat {
    match row
    case OfBoard(_) => 0
    case OfProvider(r) => Bit(RouteShows(metric, r) && (metric.Routed? || !kind.Source?) && Reaches(kind, key, r))
    case OfJob(j) => if Shows(metric, j) then Mentions(kind, key, j) else 0
  }

  function NodeTotal(kind: NodeKind, key: string, metric: Metric, rows: seq<Row>): nat {
    if rows == [] then 0
    else NodeTotal(kind, key, metric, rows[..|rows| - 1]) + Share(kind, key, metric, rows[|rows| - 1])
  }

  // ---- Events at one key ----

  function Tally<K(==)>(events: seq<Event<K>>, key: K, metric: Metric): nat {
    if events == [] then 0
    else
      var last := events[|events| - 1];
      Tally(events[..|events| - 1], key, metric) + if last.key == key then Measure(metric, last.gain) else 0
  }

  lemma {:induction false} FoldAt<K>(table: Table<K>, events: seq<Event<K>>, key: K, metric: Metric)
    ensures Measure(metric, At(Fold(table, events), key))
      == Measure(metric, At(table, key)) + Tally(events, key, metric)
  {
    hide Measure, Add;
    if events != [] {
      var last := |events| - 1;
      FoldAt(table, events[..last], key, metric);
      MeasureAdds(metric, At(Fold(table, events[..last]), key), events[last].gain);
    }
  }

  lemma {:induction false} TallyPerSource<K>(events: seq<Event<K>>, gain: Totals, sources: seq<string>, value: string,
      key: K, metric: Metric)
    requires |events| == |sources|
    requires forall i | 0 <= i < |events| :: events[i].gain == gain && (events[i].key == key <==> sources[i] == value)
    requires Measure(metric, gain) <= 1
    ensures Tally(events, key, metric) == if Measure(metric, gain) == 1 then multiset(sources)[value] else 0
  {
    hide Measure;
    if events != [] {
      var last := |events| - 1;
      TallyPerSource(events[..last], gain, sources[..last], value, key, metric);
      assert sources == sources[..last] + [sources[last]];
    }
  }

  /** A route counts once as a route, and once for each of its texts. */
  lemma RouteGainShows(r: ProviderRow, metric: Metric)
    ensures Measure(metric, RouteGain(r)) == Bit(RouteShows(metric, r))
    ensures forall sources, providers, boards ::
      Measure(metric, RouteGain(r).(sources := sources, providers := providers, boards := boards))
        == Bit(RouteShows(metric, r))
    ensures forall providers :: Measure(metric, NOTHING.(routes := 1, providers := providers)) == Bit(metric.Routed?)
    ensures Measure(metric, NOTHING.(routes := 1)) == Bit(metric.Routed?)
  {
  }

  lemma JobGainShows(j: JobRow, provider: string, board: string, metric: Metric)
    ensures Measure(metric, JobGain(j, provider, board)) == Bit(Shows(metric, j))
  {
  }

  lemma TallyOne<K>(event: Event<K>, key: K, metric: Metric)
    ensures Tally([event], key, metric) == if event.key == key then Measure(metric, event.gain) else 0
    ensures Tally<K>([], key, metric) == 0
  {
    assert [event][..0] == [];
  }

  lemma RowShare(kind: NodeKind, key: string, metric: Metric, row: Row)
    ensures Tally(NodeEvents(kind, row), key, metric) == Share(kind, key, metric, row)
  {
    match row
    case OfBoard(b) =>
      var events := NodeEvents(kind, row);
      TallyOne(if events == [] then Event("", NOTHING) else events[0], key, metric);
      if events != [] { assert events == [events[0]]; }
    case OfProvider(r) => RouteShare(kind, key, metric, r);
    case OfJob(j) => JobShare(kind, key, metric, j);
  }

  lemma RouteShare(kind: NodeKind, key: string, metric: Metric, r: ProviderRow)
    ensures Tally(NodeEvents(kind, OfProvider(r)), key, metric) == Share(kind, key, metric, OfProvider(r))
  {
    hide Tally, Measure, RouteGain;
    RouteGainShows(r, metric);
    var events := NodeEvents(kind, OfProvider(r));
    TallyOne(if events == [] then Event("", NOTHING) else events[0], key, metric);
    if events != [] { assert events == [events[0]]; }
  }

  lemma JobShare(kind: NodeKind, key: string, metric: Metric, j: JobRow)
    ensures Tally(NodeEvents(kind, OfJob(j)), key, metric) == Share(kind, key, metric, OfJob(j))
  {
    hide Tally, Measure, JobGain, Shows;
    var events := NodeEvents(kind, OfJob(j));
    JobGainShows(j, j.provider, j.board, metric);
    JobGainShows(j, "", j.board, metric);
    JobGainShows(j, j.provider, "", metric);
    if kind.Source? {
      SourceEvents(j);
      TallyPerSource(events, JobGain(j, j.provider, j.board), j.sources, key, key, metric);
    } else {
      TallyOne(if events == [] then Event("", NOTHING) else events[0], key, metric);
      if events != [] { assert events == [events[0]]; }
    }
  }

  /** Every metric of every node is the number of times the rows name that node with that property. */
  lemma {:induction false} NodesCountRows(kind: NodeKind, key: string, metric: Metric, rows: seq<Row>)
    ensures Measure(metric, At(NodeTable(kind, rows), key)) == NodeTotal(kind, key, metric, rows)
  {
    hide Measure, Fold, Tally, NodeEvents, Share;
    if rows == [] {
      MeasureAdds(metric, NOTHING, NOTHING);
    } else {
      var last := |rows| - 1;
      NodesCountRows(kind, key, metric, rows[..last]);
      FoldAt(NodeTable(kind, rows[..last]), NodeEvents(kind, rows[last]), key, metric);
      RowShare(kind, key, metric, rows[last]);
    }
  }

  /** On every node, jobs are the open and the closed ones. */
  lemma {:induction false} OpenAndClosed(kind: NodeKind, key: string, rows: seq<Row>)
    ensures NodeTotal(kind, key, Counted, rows)
      == NodeTotal(kind, key, Opened, rows) + NodeTotal(kind, key, Closed, rows)
  {
    hide Mentions, Reaches;
    if rows != [] { OpenAndClosed(kind, key, rows[..|rows| - 1]); }
  }

  lemma NodeJobsSplit(kind: NodeKind, key: string, rows: seq<Row>)
    ensures var node := At(NodeTable(kind, rows), key);
      node.jobs == node.openJobs + node.closedJobs == NodeTotal(kind, key, Counted, rows)
  {
    hide NodeTable, NodeTotal;
    NodesCountRows(kind, key, Counted, rows);
    NodesCountRows(kind, key, Opened, rows);
    NodesCountRows(kind, key, Closed, rows);
    OpenAndClosed(kind, key, rows);
  }

  // ---- Sums over edges ----

  datatype Side = First | Second

  function End(side: Side, e: Edge): string { if side.First? then e.0 else e.1 }

  function Term(t: Table<Edge>, e: Edge, side: Side, value: string, metric: Metric): nat {
    if e in t && End(side, e) == value then Measure(metric, t[e]) else 0
  }

  /** The sum of a metric over the edges at one end. */
  ghost function EdgeSum(t: Table<Edge>, side: Side, value: string, metric: Metric): nat
    decreases |t|
  {
    if t == map[] then 0
    else
      var e :| e in t;
      Term(t, e, side, value, metric) + EdgeSum(t - {e}, side, value, metric)
  }

  lemma EdgeSumSome(t: Table<Edge>, side: Side, value: string, metric: Metric) returns (f: Edge)
    requires t != map[]
    ensures f in t
      && EdgeSum(t, side, value, metric) == Term(t, f, side, value, metric) + EdgeSum(t - {f}, side, value, metric)
  {
    hide Term;
    f :| f in t
      && EdgeSum(t, side, value, metric) == Term(t, f, side, value, metric) + EdgeSum(t - {f}, side, value, metric);
  }

  lemma TermStays(t: Table<Edge>, e: Edge, f: Edge, side: Side, value: string, metric: Metric)
    requires e != f
    ensures Term(t - {f}, e, side, value, metric) == Term(t, e, side, value, metric)
  {
    hide Measure;
  }

  lemma {:induction false} EdgeSumAny(t: Table<Edge>, e: Edge, side: Side, value: string, metric: Metric)
    requires e in t
    ensures EdgeSum(t, side, value, metric) == Term(t, e, side, value, metric) + EdgeSum(t - {e}, side, value, metric)
    decreases |t|
  {
    hide Term, EdgeSum;
    var f := EdgeSumSome(t, side, value, metric);
    if e != f {
      EdgeSumAny(t - {f}, e, side, value, metric);
      EdgeSumAny(t - {e}, f, side, value, metric);
      assert (t - {f}) - {e} == (t - {e}) - {f};
      TermStays(t, e, f, side, value, metric);
      TermStays(t, f, e, side, value, metric);
    }
  }

  lemma EdgeSumBump(t: Table<Edge>, e: Edge, gain: Totals, side: Side, value: string, metric: Metric)
    ensures EdgeSum(Bump(t, e, gain), side, value, metric)
      == EdgeSum(t, side, value, metric) + if End(side, e) == value then Measure(metric, gain) else 0
  {
    hide Measure, Add, EdgeSum;
    var u := Bump(t, e, gain);
    EdgeSumAny(u, e, side, value, metric);
    MeasureAdds(metric, At(t, e), gain);
    if e in t {
      EdgeSumAny(t, e, side, value, metric);
      assert u - {e} == t - {e};
    } else {
      assert u - {e} == t;
    }
  }

  function EndTally(events: seq<Event<Edge>>, side: Side, value: string, metric: Metric): nat {
    if events == [] then 0
    else
      var last := events[|events| - 1];
      EndTally(events[..|events| - 1], side, value, metric)
        + if End(side, last.key) == value then Measure(metric, last.gain) else 0
  }

  lemma {:induction false} EdgeSumFold(t: Table<Edge>, events: seq<Event<Edge>>, side: Side, value: string,
      metric: Metric)
    ensures EdgeSum(Fold(t, events), side, value, metric)
      == EdgeSum(t, side, value, metric) + EndTally(events, side, value, metric)
  {
    hide Measure, Bump, EdgeSum, End;
    if events != [] {
      var last := |events| - 1;
      EdgeSumFold(t, events[..last], side, value, metric);
      EdgeSumBump(Fold(t, events[..last]), events[last].key, events[last].gain, side, value, metric);
    }
  }

  // ---- Nodes against their edges ----

  function NodeAtEnd(kind: EdgeKind, side: Side): NodeKind {
    match kind
    case SourceProvider => if side.First? then Source else Provider
    case SourceBoard => if side.First? then Source else Board
    case ProviderBoard => if side.First? then Provider else Board
  }

  /** The combinations in which edges account for their node: a job with several sources is one job
      of its provider and board, and source-board edges carry no routes. */
  predicate Balanced(kind: EdgeKind, side: Side, metric: Metric) {
    match metric
    case Routed => !kind.SourceBoard?
    case Counted => kind.ProviderBoard? || side.First?
    case Opened => kind.ProviderBoard? || side.First?
    case Supported(_) => kind.ProviderBoard?
    case Rated(_) => kind.ProviderBoard?
    case _ => false
  }

  /** Whether a job has the other end of an edge. */
  predicate HasOtherEnd(kind: EdgeKind, side: Side, j: JobRow) {
    match kind
    case SourceProvider => j.provider != ""
    case SourceBoard => j.board != ""
    case ProviderBoard => if side.First? then j.board != "" else j.provider != ""
  }

  predicate RouteHasOtherEnd(kind: EdgeKind, side: Side, r: ProviderRow) {
    match kind
    case SourceProvider => side.First? || r.source != ""
    case SourceBoard => false
    case ProviderBoard => side.Second? || r.board != ""
  }

  /** What a row adds to a node but to no edge of a kind. */
  function Loose(kind: EdgeKind, side: Side, value: string, metric: Metric, row: Row): nat {
    match row
    case OfBoard(_) => 0
    case OfProvider(r) => if RouteHasOtherEnd(kind, side, r) then 0
      else Share(NodeAtEnd(kind, side), value, metric, row)
    case OfJob(j) => if HasOtherEnd(kind, side, j) then 0 else Share(NodeAtEnd(kind, side), value, metric, row)
  }

  function LooseTotal(kind: EdgeKind, side: Side, value: string, metric: Metric, rows: seq<Row>): nat {
    if rows == [] then 0
    else LooseTotal(kind, side, value, metric, rows[..|rows| - 1]) + Loose(kind, side, value, metric, rows[|rows| - 1])
  }

  lemma {:induction false} EndTallyPerSource(events: seq<Event<Edge>>, gain: Totals, sources: seq<string>,
      value: string, metric: Metric)
    requires |events| == |sources|
    requires forall i | 0 <= i < |events| :: events[i].gain == gain && events[i].key.0 == sources[i]
    requires Measure(metric, gain) <= 1
    ensures EndTally(events, First, value, metric) == if Measure(metric, gain) == 1 then multiset(sources)[value] else 0
  {
    hide Measure;
    if events != [] {
      var last := |events| - 1;
      EndTallyPerSource(events[..last], gain, sources[..last], value, metric);
      assert sources == sources[..last] + [sources[last]];
    }
  }

  lemma EndTallyOne(event: Event<Edge>, side: Side, value: string, metric: Metric)
    ensures EndTally([event], side, value, metric)
      == if End(side, event.key) == value then Measure(metric, event.gain) else 0
    ensures EndTally([], side, value, metric) == 0
  {
    assert [event][..0] == [];
  }

  lemma RowBalance(kind: EdgeKind, side: Side, value: string, metric: Metric, row: Row)
    requires Balanced(kind, side, metric) && value != ""
    ensures Share(NodeAtEnd(kind, side), value, metric, row)
      == EndTally(EdgeEvents(kind, row), side, value, metric) + Loose(kind, side, value, metric, row)
  {
    hide EndTally, Add;
    EndTallyOne(Event(("", ""), NOTHING), side, value, metric);
    if row.OfJob? && !kind.ProviderBoard? {
      SourceEvents(row.job);
      if HasOtherEnd(kind, side, row.job) {
        SourceRowBalance(kind, side, value, metric, row.job);
      }
    } else if row.OfProvider? {
      RouteBalance(kind, side, value, metric, row.route);
    } else if row.OfJob? {
      JobBalance(side, value, metric, row.job);
    } else {
      var events := EdgeEvents(kind, row);
      if events != [] {
        assert events == [events[0]];
        EndTallyOne(events[0], side, value, metric);
      }
    }
  }

  lemma RouteBalance(kind: EdgeKind, side: Side, value: string, metric: Metric, r: ProviderRow)
    requires Balanced(kind, side, metric) && value != ""
    ensures Share(NodeAtEnd(kind, side), value, metric, OfProvider(r))
      == EndTally(EdgeEvents(kind, OfProvider(r)), side, value, metric)
        + Loose(kind, side, value, metric, OfProvider(r))
  {
    hide EndTally, Measure, RouteGain;
    EndTallyOne(Event(("", ""), NOTHING), side, value, metric);
    RouteGainShows(r, metric);
    var events := EdgeEvents(kind, OfProvider(r));
    if events != [] {
      assert events == [events[0]];
      EndTallyOne(events[0], side, value, metric);
    }
  }

  lemma JobBalance(side: Side, value: string, metric: Metric, j: JobRow)
    requires Balanced(ProviderBoard, side, metric) && value != ""
    ensures Share(NodeAtEnd(ProviderBoard, side), value, metric, OfJob(j))
      == EndTally(EdgeEvents(ProviderBoard, OfJob(j)), side, value, metric)
        + Loose(ProviderBoard, side, value, metric, OfJob(j))
  {
    hide EndTally;
    EndTallyOne(Event(("", ""), NOTHING), side, value, metric);
    var events := EdgeEvents(ProviderBoard, OfJob(j));
    if events != [] {
      assert events == [events[0]];
      EndTallyOne(events[0], side, value, metric);
    }
  }

  lemma SourceRowBalance(kind: EdgeKind, side: Side, value: string, metric: Metric, j: JobRow)
    requires !kind.ProviderBoard? && HasOtherEnd(kind, side, j) && Balanced(kind, side, metric)
    ensures metric.Routed? ==> EndTally(EdgeEvents(kind, OfJob(j)), side, value, metric) == 0
    ensures !metric.Routed?
      ==> EndTally(EdgeEvents(kind, OfJob(j)), side, value, metric) == Share(Source, value, metric, OfJob(j))
  {
    hide EndTally;
    SourceEvents(j);
    var events := EdgeEvents(kind, OfJob(j));
    if side.First? {
      EndTallyPerSource(events, EdgeJobGain(j), j.sources, value, metric);
    } else {
      NoRoutes(events, side, value);
    }
  }

  lemma {:induction false} NoRoutes(events: seq<Event<Edge>>, side: Side, value: string)
    requires forall i | 0 <= i < |events| :: events[i].gain.routes == 0
    ensures EndTally(events, side, value, Routed) == 0
  {
    if events != [] { NoRoutes(events[..|events| - 1], side, value); }
  }

  /** A node's jobs, open jobs and routes are those on its edges and those of rows without the other
      end of an edge. */
  lemma {:induction false} NodesBalanceEdges(kind: EdgeKind, side: Side, value: string, metric: Metric, rows: seq<Row>)
    requires Balanced(kind, side, metric) && value != ""
    ensures Measure(metric, At(NodeTable(NodeAtEnd(kind, side), rows), value))
      == EdgeSum(EdgeTable(kind, rows), side, value, metric) + LooseTotal(kind, side, value, metric, rows)
  {
    hide Measure, NodeTable, EdgeEvents, EdgeSum, Share, Loose, NodeAtEnd, Balanced;
    NodesCountRows(NodeAtEnd(kind, side), value, metric, rows);
    if rows == [] {
      EmptyEdgeSum(side, value, metric);
    } else {
      var last := |rows| - 1;
      NodesCountRows(NodeAtEnd(kind, side), value, metric, rows[..last]);
      NodesBalanceEdges(kind, side, value, metric, rows[..last]);
      EdgeSumFold(EdgeTable(kind, rows[..last]), EdgeEvents(kind, rows[last]), side, value, metric);
      RowBalance(kind, side, value, metric, rows[last]);
    }
  }

  lemma EmptyEdgeSum(side: Side, value: string, metric: Metric)
    ensures EdgeSum(map[], side, value, metric) == 0
  {
  }

  /** Every route of a board is on one of its provider edges. */
  lemma BoardRoutesAreOnEdges(board: string, rows: seq<Row>)
    requires board != ""
    ensures At(NodeTable(Board, rows), board).routes == EdgeSum(EdgeTable(ProviderBoard, rows), Second, board, Routed)
  {
    hide NodeTable, EdgeTable, EdgeSum;
    NodesBalanceEdges(ProviderBoard, Second, board, Routed, rows);
    NoLooseRoutes(ProviderBoard, Second, board, rows);
  }

  /** Every route of a source is on one of its provider edges. */
  lemma SourceRoutesAreOnEdges(source: string, rows: seq<Row>)
    requires source != ""
    ensures At(NodeTable(Source, rows), source).routes
      == EdgeSum(EdgeTable(SourceProvider, rows), First, source, Routed)
  {
    hide NodeTable, EdgeTable, EdgeSum;
    NodesBalanceEdges(SourceProvider, First, source, Routed, rows);
    NoLooseRoutes(SourceProvider, First, source, rows);
  }

  lemma {:induction false} NoLooseRoutes(kind: EdgeKind, side: Side, value: string, rows: seq<Row>)
    requires (kind.ProviderBoard? && side.Second?) || (kind.SourceProvider? && side.First?)
    ensures LooseTotal(kind, side, value, Routed, rows) == 0
  {
    if rows != [] { NoLooseRoutes(kind, side, value, rows[..|rows| - 1]); }
  }

  // ---- Edges against rows ----

  /** What edges keep count of. */
  predicate OnEdges(metric: Metric) {
    match metric
    case Routed => true
    case Counted => true
    case Opened => true
    case Supported(_) => true
    case Rated(_) => true
    case _ => false
  }

  /** How often a job names both ends of an edge. */
  function Joins(kind: EdgeKind, e: Edge, j: JobRow): nat {
    match kind
    case SourceProvider => if j.provider != "" && j.provider == e.1 then multiset(j.sources)[e.0] else 0
    case SourceBoard => if j.board != "" && j.board == e.1 then multiset(j.sources)[e.0] else 0
    case ProviderBoard => Bit(j.provider != "" && j.board != "" && e == (j.provider, j.board))
  }

  /** Whether a route names both ends of an edge; routes join no source to a board. */
  predicate RouteJoins(kind: EdgeKind, e: Edge, r: ProviderRow) {
    match kind
    case SourceProvider => r.source != "" && r.provider != "" && e == (r.source, r.provider)
    case SourceBoard => false
    case ProviderBoard => r.provider != "" && r.board != "" && e == (r.provider, r.board)
  }

  function EdgeShare(kind: EdgeKind, e: Edge, metric: Metric, row: Row): nat {
    match row
    case OfBoard(_) => 0
    case OfProvider(r) =>
      Bit(RouteShows(metric, r) && (metric.Routed? || kind.ProviderBoard?) && RouteJoins(kind, e, r))
    case OfJob(j) => if Shows(metric, j) then Joins(kind, e, j) else 0
  }

  function EdgeTotal(kind: EdgeKind, e: Edge, metric: Metric, rows: seq<Row>): nat {
    if rows == [] then 0
    else EdgeTotal(kind, e, metric, rows[..|rows| - 1]) + EdgeShare(kind, e, metric, rows[|rows| - 1])
  }

  lemma EdgeRowShare(kind: EdgeKind, e: Edge, metric: Metric, row: Row)
    requires OnEdges(metric)
    ensures Tally(EdgeEvents(kind, row), e, metric) == EdgeShare(kind, e, metric, row)
  {
    hide Tally;
    TallyOne(Event(("", ""), NOTHING), e, metric);
    if row.OfJob? && !kind.ProviderBoard? {
      EdgeJobShare(kind, e, metric, row.job);
    } else {
      var events := EdgeEvents(kind, row);
      if events != [] {
        assert events == [events[0]];
        TallyOne(events[0], e, metric);
      }
    }
  }

  lemma EdgeJobShare(kind: EdgeKind, e: Edge, metric: Metric, j: JobRow)
    requires OnEdges(metric) && !kind.ProviderBoard?
    ensures Tally(EdgeEvents(kind, OfJob(j)), e, metric) == EdgeShare(kind, e, metric, OfJob(j))
  {
    hide Tally;
    SourceEvents(j);
    var events := EdgeEvents(kind, OfJob(j));
    var end := if kind.SourceProvider? then j.provider else j.board;
    if end == "" {
      TallyOne(Event(("", ""), NOTHING), e, metric);
    } else if end == e.1 {
      TallyPerSource(events, EdgeJobGain(j), j.sources, e.0, e, metric);
    } else {
      TallyElsewhere(events, e, metric);
    }
  }

  lemma {:induction false} TallyElsewhere(events: seq<Event<Edge>>, e: Edge, metric: Metric)
    requires forall i | 0 <= i < |events| :: events[i].key != e
    ensures Tally(events, e, metric) == 0
  {
    if events != [] { TallyElsewhere(events[..|events| - 1], e, metric); }
  }

  /** On every edge, routes, jobs and open jobs are the rows that name both its ends. */
  lemma {:induction false} EdgesCountRows(kind: EdgeKind, e: Edge, metric: Metric, rows: seq<Row>)
    requires OnEdges(metric)
    ensures Measure(metric, At(EdgeTable(kind, rows), e)) == EdgeTotal(kind, e, metric, rows)
  {
    hide Measure, Fold, Tally, EdgeEvents, EdgeShare, OnEdges;
    if rows == [] {
      MeasureAdds(metric, NOTHING, NOTHING);
    } else {
      var last := |rows| - 1;
      EdgesCountRows(kind, e, metric, rows[..last]);
      FoldAt(EdgeTable(kind, rows[..last]), EdgeEvents(kind, rows[last]), e, metric);
      EdgeRowShare(kind, e, metric, rows[last]);
    }
  }

  // ---- Neighbour sets against edges ----

  /** Whether a row joins the two ends of an edge. */
  predicate Links(kind: EdgeKind, e: Edge, row: Row) {
    match row
    case OfBoard(b) => kind.SourceBoard? && b.source != "" && b.key != "" && e == (b.source, b.key)
    case OfProvider(r) => RouteJoins(kind, e, r)
    case OfJob(j) =>
      (match kind
       case SourceProvider => j.provider != "" && e.0 in j.sources && e.1 == j.provider
       case SourceBoard => j.board != "" && e.0 in j.sources && e.1 == j.board
       case ProviderBoard => j.provider != "" && j.board != "" && e == (j.provider, j.board))
  }

  ghost predicate Linked(kind: EdgeKind, e: Edge, rows: seq<Row>) {
    exists i :: 0 <= i < |rows| && Links(kind, e, rows[i])
  }

  function Neighbours(kind: NodeKind, t: Totals): set<string> {
    match kind
    case Source => t.sources
    case Provider => t.providers
    case Board => t.boards
  }

  ghost predicate KeyedAt(events: seq<Event<Edge>>, e: Edge) { exists i :: 0 <= i < |events| && events[i].key == e }

  ghost predicate Gains(events: seq<Event<string>>, key: string, kind: NodeKind, neighbour: string) {
    exists i :: 0 <= i < |events| && events[i].key == key && neighbour in Neighbours(kind, events[i].gain)
  }

  lemma {:induction false} FoldKeys(t: Table<Edge>, events: seq<Event<Edge>>, e: Edge)
    ensures e in Fold(t, events) <==> e in t || KeyedAt(events, e)
  {
    if events != [] {
      var last := |events| - 1;
      FoldKeys(t, events[..last], e);
      assert KeyedAt(events, e) <==> KeyedAt(events[..last], e) || events[last].key == e by {
        if KeyedAt(events[..last], e) {
          var i :| 0 <= i < last && events[..last][i].key == e;
          assert events[i].key == e;
        }
        if i :| 0 <= i < |events| && events[i].key == e && i < last { assert events[..last][i].key == e; }
      }
    }
  }

  lemma BumpGains(t: Table<string>, at: string, gain: Totals, key: string, kind: NodeKind, neighbour: string)
    ensures neighbour in Neighbours(kind, At(Bump(t, at, gain), key))
      <==> neighbour in Neighbours(kind, At(t, key)) || (at == key && neighbour in Neighbours(kind, gain))
  {
  }

  lemma GainsLast(events: seq<Event<string>>, key: string, kind: NodeKind, neighbour: string)
    requires events != []
    ensures var last := |events| - 1;
      var gained := events[last].key == key && neighbour in Neighbours(kind, events[last].gain);
      Gains(events, key, kind, neighbour) <==> Gains(events[..last], key, kind, neighbour) || gained
  {
    hide Neighbours;
    var last := |events| - 1;
    if Gains(events[..last], key, kind, neighbour) {
      var i :| 0 <= i < last && events[..last][i].key == key && neighbour in Neighbours(kind, events[..last][i].gain);
      assert events[i].key == key;
    }
    if i :| 0 <= i < last && events[i].key == key && neighbour in Neighbours(kind, events[i].gain) {
      assert events[..last][i].key == key;
    }
  }

  lemma {:induction false} FoldGains(t: Table<string>, events: seq<Event<string>>, key: string, kind: NodeKind,
      neighbour: string)
    ensures neighbour in Neighbours(kind, At(Fold(t, events), key))
      <==> neighbour in Neighbours(kind, At(t, key)) || Gains(events, key, kind, neighbour)
  {
    hide Neighbours, Bump, At, Gains;
    if events == [] {
      NoGains(key, kind, neighbour);
    } else {
      var last := |events| - 1;
      FoldGains(t, events[..last], key, kind, neighbour);
      BumpGains(Fold(t, events[..last]), events[last].key, events[last].gain, key, kind, neighbour);
      GainsLast(events, key, kind, neighbour);
    }
  }

  lemma NoGains(key: string, kind: NodeKind, neighbour: string)
    ensures !Gains([], key, kind, neighbour)
  {
  }

  /** The other end of an edge, as a kind of node. */
  function FarEnd(kind: EdgeKind, side: Side): NodeKind { NodeAtEnd(kind, if side.First? then Second else First) }

  function Far(side: Side, e: Edge): string { if side.First? then e.1 else e.0 }

  /** Sources and providers keep both sides of their edges, except that jobs do not add a source to
      its provider, and boards keep no sources. */
  predicate Mirrored(kind: EdgeKind, side: Side) { kind.ProviderBoard? || side.First? }

  lemma EdgeRowLinks(kind: EdgeKind, e: Edge, row: Row)
    ensures KeyedAt(EdgeEvents(kind, row), e) <==> Links(kind, e, row)
  {
    if row.OfJob? { SourceEvents(row.job); }
    var events := EdgeEvents(kind, row);
    if Links(kind, e, row) {
      if row.OfJob? && !kind.ProviderBoard? {
        var i :| 0 <= i < |row.job.sources| && row.job.sources[i] == e.0;
        assert events[i].key == e;
      } else {
        assert events[0].key == e;
      }
    }
  }

  lemma NodeRowLinks(kind: EdgeKind, side: Side, e: Edge, row: Row)
    requires Mirrored(kind, side)
    ensures Gains(NodeEvents(NodeAtEnd(kind, side), row), End(side, e), FarEnd(kind, side), Far(side, e))
      <==> Links(kind, e, row)
  {
    if row.OfJob? {
      NodeJobLinks(kind, side, e, row);
    } else if Links(kind, e, row) {
      assert NodeEvents(NodeAtEnd(kind, side), row)[0].key == End(side, e);
    }
  }

  lemma NodeJobLinks(kind: EdgeKind, side: Side, e: Edge, row: Row)
    requires Mirrored(kind, side) && row.OfJob?
    ensures Gains(NodeEvents(NodeAtEnd(kind, side), row), End(side, e), FarEnd(kind, side), Far(side, e))
      <==> Links(kind, e, row)
  {
    var events := NodeEvents(NodeAtEnd(kind, side), row);
    if kind.ProviderBoard? {
      if Links(kind, e, row) { assert events[0].key == End(side, e); }
    } else {
      SourceEvents(row.job);
      if Links(kind, e, row) {
        var i :| 0 <= i < |row.job.sources| && row.job.sources[i] == e.0;
        assert events[i].key == e.0;
      }
    }
  }

  lemma {:induction false} EdgesAreLinks(kind: EdgeKind, e: Edge, rows: seq<Row>)
    ensures e in EdgeTable(kind, rows) <==> Linked(kind, e, rows)
  {
    hide Links, Fold, EdgeEvents, KeyedAt;
    if rows != [] {
      var last := |rows| - 1;
      EdgesAreLinks(kind, e, rows[..last]);
      FoldKeys(EdgeTable(kind, rows[..last]), EdgeEvents(kind, rows[last]), e);
      EdgeRowLinks(kind, e, rows[last]);
      LinkedLast(kind, e, rows);
    }
  }

  lemma LinkedLast(kind: EdgeKind, e: Edge, rows: seq<Row>)
    requires rows != []
    ensures Linked(kind, e, rows) <==> Linked(kind, e, rows[..|rows| - 1]) || Links(kind, e, rows[|rows| - 1])
  {
    hide Links;
    var last := |rows| - 1;
    if Linked(kind, e, rows[..last]) {
      var i :| 0 <= i < last && Links(kind, e, rows[..last][i]);
      assert Links(kind, e, rows[i]);
    }
    if i :| 0 <= i < last && Links(kind, e, rows[i]) { assert Links(kind, e, rows[..last][i]); }
  }

  lemma {:induction false} NeighboursAreLinks(kind: EdgeKind, side: Side, e: Edge, rows: seq<Row>)
    requires Mirrored(kind, side)
    ensures Far(side, e) in Neighbours(FarEnd(kind, side), At(NodeTable(NodeAtEnd(kind, side), rows), End(side, e)))
      <==> Linked(kind, e, rows)
  {
    hide Links, Fold, NodeEvents, Gains, Mirrored, NodeAtEnd, Linked;
    if rows == [] {
      assert !Linked(kind, e, rows) by { NothingLinked(kind, e); }
    } else {
      var last := |rows| - 1;
      NeighboursAreLinks(kind, side, e, rows[..last]);
      FoldGains(NodeTable(NodeAtEnd(kind, side), rows[..last]), NodeEvents(NodeAtEnd(kind, side), rows[last]),
        End(side, e), FarEnd(kind, side), Far(side, e));
      NodeRowLinks(kind, side, e, rows[last]);
      LinkedLast(kind, e, rows);
    }
  }

  lemma NothingLinked(kind: EdgeKind, e: Edge)
    ensures !Linked(kind, e, [])
  {
  }

  /** An edge is there exactly when each end lists the other. */
  lemma EdgesMirrorNeighbours(kind: EdgeKind, side: Side, e: Edge, rows: seq<Row>)
    requires Mirrored(kind, side)
    ensures e in EdgeTable(kind, rows)
      <==> Far(side, e) in Neighbours(FarEnd(kind, side), At(NodeTable(NodeAtEnd(kind, side), rows), End(side, e)))
  {
    hide EdgeTable, NodeTable, Linked, Neighbours, FarEnd, NodeAtEnd;
    EdgesAreLinks(kind, e, rows);
    NeighboursAreLinks(kind, side, e, rows);
  }
}
