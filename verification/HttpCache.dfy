/** The HTTP cache as one object (src/openopps/cache.py, class `HttpCache`): its lookups refine a
    plain map from slots (a namespace and a normalised request) to records, and its purge and
    start-up keep the scrub generations of the file. */
module HttpCache {
  import opened Wrappers
  import opened RequestKey
  import Numerals

  const REDACTED_LOCATION := "redacted://request/"

  datatype Record = Record(namespace: string, payload: string, statusCode: int, etag: Option<string>,
    lastModified: Option<string>, fetchedAt: int, expiresAt: int, staleOnError: bool)

  /** One table row. */
  datatype Row = Row(schemaVersion: string, url: string, record: Record)

  datatype Hit = Hit(record: Record, stale: bool)

  // ---- The plain map the cache stands for ----

  type Model = map<Slot, Record>

  function Lookup(m: Model, slot: Slot, now: int, refresh: bool): Option<Hit> {
    if refresh || slot !in m || m[slot].expiresAt <= now then None else Some(Hit(m[slot], false))
  }

  function LookupStale(m: Model, slot: Slot, staleOnErrorOnly: bool): Option<Hit> {
    if slot !in m || (staleOnErrorOnly && !m[slot].staleOnError) then None else Some(Hit(m[slot], true))
  }

  function Refreshed(m: Model, slot: Slot, now: int, ttl: int): Model {
    if slot in m then m[slot := m[slot].(fetchedAt := now, expiresAt := now + ttl)] else m
  }

  predicate Covers(namespace: Option<string>, slot: Slot) {
    namespace.None? || namespace.value == slot.namespace
  }

  function Purged(m: Model, namespace: Option<string>): Model {
    map slot | slot in m && !Covers(namespace, slot) :: m[slot]
  }

  // ---- The table ----

  type Table = map<Key, Row>

  predicate KeyOk(k: Key) { SlotOk(SlotOfKey(k)) && KeyOf(SlotOfKey(k)) == k }

  predicate IsCurrent(row: Row) { row.schemaVersion == CACHE_SCHEMA_VERSION && row.url == REDACTED_LOCATION }

  predicate RowOk(k: Key, row: Row) {
    KeyOk(k) && IsCurrent(row) && row.record.namespace == SlotOfKey(k).namespace
  }

  ghost predicate TableOk(rows: Table) { forall k | k in rows :: RowOk(k, rows[k]) }

  /** The plain map a table stands for. */
  ghost function View(rows: Table): Model
    requires TableOk(rows)
  {
    var slots := set k | k in rows :: SlotOfKey(k);
    map slot | slot in slots :: rows[KeyOf(slot)].record
  }

  lemma ViewAt(rows: Table, slot: Slot)
    requires TableOk(rows) && SlotOk(slot)
    ensures slot in View(rows) <==> KeyOf(slot) in rows
    ensures slot in View(rows) ==> View(rows)[slot] == rows[KeyOf(slot)].record
  {
    hide SlotOfKey, KeyOf, IsCurrent;
    KeyDeterminesSlot(slot);
    if KeyOf(slot) in rows { assert SlotOfKey(KeyOf(slot)) in View(rows); }
  }

  lemma ViewAtKey(rows: Table, k: Key)
    requires TableOk(rows) && KeyOk(k)
    ensures SlotOfKey(k) in View(rows) <==> k in rows
    ensures k in rows ==> View(rows)[SlotOfKey(k)] == rows[k].record
  {
    ViewAt(rows, SlotOfKey(k));
  }

  lemma RowIsCurrent(rows: Table, k: Key)
    requires TableOk(rows) && k in rows
    ensures KeyOk(k) && rows[k].schemaVersion == CACHE_SCHEMA_VERSION
  {
    assert RowOk(k, rows[k]);
  }

  lemma SlotsOfView(rows: Table, slot: Slot)
    requires TableOk(rows) && slot in View(rows)
    ensures SlotOk(slot) && KeyOf(slot) in rows
  {
    hide SlotOfKey, KeyOf;
    var k :| k in rows && SlotOfKey(k) == slot;
    assert RowOk(k, rows[k]);
  }

  lemma ViewPut(rows: Table, slot: Slot, row: Row)
    requires TableOk(rows) && SlotOk(slot) && IsCurrent(row) && row.record.namespace == slot.namespace
    ensures TableOk(rows[KeyOf(slot) := row])
    ensures View(rows[KeyOf(slot) := row]) == View(rows)[slot := row.record]
  {
    hide IsCurrent, SlotOfKey, KeyOf, SlotOk, View;
    KeyDeterminesSlot(slot);
    var changed := rows[KeyOf(slot) := row];
    assert TableOk(changed);
    forall s ensures s in View(changed) <==> s in View(rows)[slot := row.record] {
      if SlotOk(s) { ViewAt(changed, s); ViewAt(rows, s); KeyDeterminesSlot(s); }
      if s in View(changed) { SlotsOfView(changed, s); }
      if s in View(rows) { SlotsOfView(rows, s); }
    }
    forall s | s in View(changed) ensures View(changed)[s] == View(rows)[slot := row.record][s] {
      SlotsOfView(changed, s);
      ViewAt(changed, s);
      ViewAt(rows, s);
      KeyDeterminesSlot(s);
    }
  }

  function Surviving(rows: Table, namespace: Option<string>): Table {
    map k | k in rows && !(namespace.None? || rows[k].record.namespace == namespace.value) :: rows[k]
  }

  lemma ViewPurge(rows: Table, namespace: Option<string>)
    requires TableOk(rows)
    ensures TableOk(Surviving(rows, namespace))
    ensures View(Surviving(rows, namespace)) == Purged(View(rows), namespace)
  {
    hide IsCurrent, SlotOfKey, KeyOf, SlotOk, View;
    var kept := Surviving(rows, namespace);
    forall s ensures s in View(kept) <==> s in Purged(View(rows), namespace) {
      if SlotOk(s) {
        ViewAt(kept, s);
        ViewAt(rows, s);
        KeyDeterminesSlot(s);
      }
      if s in View(kept) { SlotsOfView(kept, s); }
      if s in View(rows) { SlotsOfView(rows, s); }
    }
    forall s | s in View(kept) ensures View(kept)[s] == Purged(View(rows), namespace)[s] {
      SlotsOfView(kept, s);
      ViewAt(kept, s);
      ViewAt(rows, s);
    }
  }

  lemma ViewRefresh(rows: Table, k: Key, now: int, ttl: int)
    requires TableOk(rows)
    ensures k in rows ==> rows[k].schemaVersion == CACHE_SCHEMA_VERSION
    ensures k in rows ==>
      var changed := rows[k := rows[k].(record := rows[k].record.(fetchedAt := now, expiresAt := now + ttl))];
      TableOk(changed) && View(changed) == Refreshed(View(rows), SlotOfKey(k), now, ttl)
    ensures k !in rows && KeyOk(k) ==> View(rows) == Refreshed(View(rows), SlotOfKey(k), now, ttl)
  {
    hide View;
    if k in rows {
      assert RowOk(k, rows[k]);
      ViewAt(rows, SlotOfKey(k));
      ViewPut(rows, SlotOfKey(k), rows[k].(record := rows[k].record.(fetchedAt := now, expiresAt := now + ttl)));
    } else if KeyOk(k) {
      ViewAt(rows, SlotOfKey(k));
    }
  }

  /** The rows a start-up keeps: of this schema, and naming no location. */
  function Kept(rows: Table): Table { map k | k in rows && IsCurrent(rows[k]) :: rows[k] }

  // ---- Scrub generations ----

  /** The generations, and whether deleted bytes may still be in the database or its log. */
  datatype Marks = Marks(pending: nat, completed: nat, residue: bool)

  /** What a start-up or a purge makes of them, and whether it returns.  It scrubs what it deleted or
      finds pending, unless a reader is busy. */
  function Scrub(m: Marks, startup: bool, deleted: bool, busy: bool): (Marks, bool) {
    var advance := deleted || (startup && m.pending == 0);
    var generation := if advance then Numerals.Max(m.pending, m.completed) + 1 else m.pending;
    if generation <= m.completed then (Marks(generation, m.completed, m.residue || deleted), true)
    else if busy then (Marks(generation, m.completed, m.residue || deleted), false)
    else (Marks(generation, generation, false), true)
  }

  /** Deleted bytes are never on disk with nothing pending. */
  predicate Sound(m: Marks) { m.completed <= m.pending && (m.residue ==> m.pending > m.completed || m.pending == 0) }

  lemma ScrubSteps(m: Marks, startup: bool, deleted: bool, busy: bool)
    ensures var advance := deleted || (startup && m.pending == 0);
      var generation := if advance then Numerals.Max(m.pending, m.completed) + 1 else m.pending;
      Scrub(m, startup, deleted, busy) ==
        if generation <= m.completed || busy
        then (Marks(generation, m.completed, m.residue || deleted), generation <= m.completed)
        else (Marks(generation, generation, false), true)
  {
  }

  lemma ScrubSettles(m: Marks, startup: bool, deleted: bool, busy: bool)
    ensures var (after, ok) := Scrub(m, startup, deleted, busy);
      var due := deleted || m.pending > m.completed || (startup && m.pending == 0);
      && after.pending >= m.pending && (startup ==> after.pending > 0) && (Sound(m) ==> Sound(after))
      && (due && ok ==> !after.residue && after.pending == after.completed)
      && (due && !ok ==> busy && after.pending > after.completed)
      && (!due ==> ok && after == m)
  {
  }

  datatype Guard = Passes | Raises

  class HttpCache {
    var rows: Table
    var pending: nat
    var completed: nat
    /** Whether deleted bytes may still be in the database or its log. */
    var residue: bool

    ghost function Now(): Marks
      reads this
    {
      Marks(pending, completed, residue)
    }

    ghost predicate Scrubbed()
      reads this
    {
      Sound(Now())
    }

    /** What start-up establishes on every file. */
    ghost predicate Valid()
      reads this
    {
      TableOk(rows) && pending > 0
    }

    /** The file as found on disk, before `_init_db` has run on it. */
    constructor (rows: Table, pending: nat, completed: nat, residue: bool)
      ensures this.rows == rows && this.pending == pending && this.completed == completed && this.residue == residue
    {
      this.rows, this.pending, this.completed, this.residue := rows, pending, completed, residue;
    }

    /** `_advance_scrub_generation`. */
    method Advance() returns (generation: nat)
      modifies this`pending
      ensures generation == pending == Numerals.Max(old(pending), completed) + 1
    {
      pending := Numerals.Max(pending, completed) + 1;
      generation := pending;
    }

    /** `_compact_deleted_content`: raises while a reader keeps the log busy. */
    method Compact(busy: bool) returns (ok: bool)
      modifies this`residue
      ensures ok <==> !busy
      ensures residue == (old(residue) && busy)
    {
      if !busy { residue := false; }
      ok := !busy;
    }

    /** `_complete_scrub_generation`. */
    method Complete(generation: nat)
      modifies this`completed
      ensures completed == if pending == generation then generation else old(completed)
    {
      if pending == generation { completed := generation; }
    }

    /** What start-up and purge end with: compacts and completes a generation that is still due. */
    method Settle(generation: nat, busy: bool) returns (ok: bool)
      requires generation == pending
      modifies this`residue, this`completed
      ensures ok <==> generation <= old(completed) || !busy
      ensures generation > old(completed) && !busy ==> !residue && completed == generation
      ensures generation <= old(completed) || busy ==> residue == old(residue) && completed == old(completed)
    {
      if generation > completed {
        ok := Compact(busy);
        if !ok { return; }
        Complete(generation);
      }
      ok := true;
    }

    /** Whether a start-up has something to scrub: rows to delete, or a generation still pending. */
    ghost predicate Due()
      reads this
    {
      rows != Kept(rows) || pending == 0 || pending > completed
    }

    /** `_init_db`, on any file, with whatever generations its metadata say; valid when its
        current-schema rows are ones that this class wrote. */
    method InitDb(busy: bool) returns (ok: bool)
      modifies this
      ensures rows == Kept(old(rows)) && pending > 0 && pending >= old(pending)
      ensures forall k :: k in rows <==>
        k in old(rows) && old(rows)[k].schemaVersion == "v2" && old(rows)[k].url == "redacted://request/"
      ensures TableOk(Kept(old(rows))) ==> Valid()
      ensures old(Scrubbed()) ==> Scrubbed()
      ensures (Now(), ok) == Scrub(old(Now()), true, rows != old(rows), busy)
      ensures old(Due()) && ok ==> !residue && pending == completed
      ensures old(Due()) && !ok ==> busy && pending > completed
      ensures !old(Due()) ==> ok && pending == old(pending) && completed == old(completed) && residue == old(residue)
    {
      hide IsCurrent, TableOk, Scrub;
      var kept := Kept(rows);
      var purged := exists k :: k in rows && k !in kept;
      ghost var before := Now();
      assert purged <==> rows != kept;
      KeptAre(rows);
      ScrubSettles(before, true, purged, busy);
      rows := kept;
      residue := residue || purged;
      var generation := pending;
      if purged || pending == 0 {
        generation := Advance();
      }
      ok := Settle(generation, busy);
      ScrubSteps(before, true, purged, busy);
    }

    /** `put_json`: the upsert is rolled back when the guard raises before the commit. */
    method PutJson(namespace: string, r: Request, payload: string, statusCode: int, etag: Option<string>,
        lastModified: Option<string>, ttl: int, staleOnError: bool, now: int, guard: Guard)
      returns (key: Option<Key>)
      requires Valid() && RequestOk(r)
      modifies this`rows
      ensures Valid()
      ensures guard.Raises? ==> key.None? && rows == old(rows)
      ensures guard.Passes? ==> key == Some(CacheKey(namespace, r))
      ensures guard.Passes? ==> View(rows) == old(View(rows))[SlotOf(namespace, r) :=
        Record(namespace, payload, statusCode, etag, lastModified, now, now + ttl, staleOnError)]
    {
      var record := Record(namespace, payload, statusCode, etag, lastModified, now, now + ttl, staleOnError);
      var k := CacheKey(namespace, r);
      var row := Row(CACHE_SCHEMA_VERSION, REDACTED_LOCATION, record);
      SortedBytePairs(r);
      ViewPut(rows, SlotOf(namespace, r), row);
      if guard.Raises? { return None; }
      rows := rows[k := row];
      key := Some(k);
    }

    /** `refresh_json`: an update in place, of a row that may no longer be there. */
    method RefreshJson(k: Key, ttl: int, now: int, guard: Guard) returns (ok: bool)
      requires Valid()
      modifies this`rows
      ensures Valid()
      ensures ok <==> guard.Passes?
      ensures guard.Raises? ==> rows == old(rows)
      ensures k !in old(rows) ==> rows == old(rows)
      ensures guard.Passes? && KeyOk(k) ==> View(rows) == Refreshed(old(View(rows)), SlotOfKey(k), now, ttl)
      ensures guard.Passes? && KeyOk(k) ==>
        && View(rows).Keys == old(View(rows)).Keys
        && (SlotOfKey(k) in View(rows) ==>
          View(rows)[SlotOfKey(k)] == old(View(rows))[SlotOfKey(k)].(fetchedAt := now, expiresAt := now + ttl))
        && (forall slot | slot in View(rows) && slot != SlotOfKey(k) :: View(rows)[slot] == old(View(rows))[slot])
    {
      hide IsCurrent, KeyOk, View;
      if guard.Raises? { return false; }
      ViewRefresh(rows, k, now, ttl);
      if k in rows && rows[k].schemaVersion == CACHE_SCHEMA_VERSION {
        rows := rows[k := rows[k].(record := rows[k].record.(fetchedAt := now, expiresAt := now + ttl))];
      }
      ok := true;
    }

    /** `_read`: the record that the plain map holds at the slot of the key. */
    method Read(k: Key) returns (record: Option<Record>)
      requires Valid()
      ensures record.Some? <==> KeyOk(k) && SlotOfKey(k) in View(rows)
      ensures record.Some? ==> record.value == View(rows)[SlotOfKey(k)]
    {
      hide View, IsCurrent, SlotOk;
      if KeyOk(k) { ViewAtKey(rows, k); }
      if k in rows { RowIsCurrent(rows, k); }
      if k in rows && rows[k].schemaVersion == CACHE_SCHEMA_VERSION { return Some(rows[k].record); }
      record := None;
    }

    method GetJson(namespace: string, r: Request, now: int, refresh: bool) returns (hit: Option<Hit>)
      requires Valid() && RequestOk(r)
      ensures hit == Lookup(View(rows), SlotOf(namespace, r), now, refresh)
      ensures hit.Some? <==>
        && !refresh && SlotOf(namespace, r) in View(rows)
        && now < View(rows)[SlotOf(namespace, r)].expiresAt
      ensures hit.Some? ==> hit.value.record == View(rows)[SlotOf(namespace, r)] && !hit.value.stale
    {
      SortedBytePairs(r);
      ViewAt(rows, SlotOf(namespace, r));
      if refresh { return None; }
      var record := Read(CacheKey(namespace, r));
      if record.None? || record.value.expiresAt <= now { return None; }
      hit := Some(Hit(record.value, false));
    }

    method GetStaleJson(namespace: string, r: Request, staleOnErrorOnly: bool) returns (hit: Option<Hit>)
      requires Valid() && RequestOk(r)
      ensures hit == LookupStale(View(rows), SlotOf(namespace, r), staleOnErrorOnly)
      ensures hit.Some? <==>
        && SlotOf(namespace, r) in View(rows)
        && (View(rows)[SlotOf(namespace, r)].staleOnError || !staleOnErrorOnly)
      ensures hit.Some? ==> hit.value.record == View(rows)[SlotOf(namespace, r)] && hit.value.stale
    {
      SortedBytePairs(r);
      ViewAt(rows, SlotOf(namespace, r));
      var record := Read(CacheKey(namespace, r));
      if record.None? || (staleOnErrorOnly && !record.value.staleOnError) { return None; }
      hit := Some(Hit(record.value, true));
    }

    /** `purge`: the deletion stays committed even when the compaction after it raises. */
    method Purge(namespace: Option<string>, busy: bool) returns (deleted: Option<nat>)
      requires Valid()
      modifies this
      ensures Valid() && pending >= old(pending) && (old(Scrubbed()) ==> Scrubbed())
      ensures View(rows) == Purged(old(View(rows)), namespace)
      ensures namespace.None? ==> rows == map[]
      ensures namespace.Some? ==> forall slot ::
        slot in View(rows) <==> slot in old(View(rows)) && slot.namespace != namespace.value
      ensures (Now(), deleted.Some?) == Scrub(old(Now()), false, rows != old(rows), busy)
      ensures deleted.Some? ==> deleted.value == |old(rows)| - |rows|
      ensures deleted.Some? && (old(Scrubbed()) || deleted.value > 0) ==> !residue && pending == completed
      ensures deleted.None? ==> busy && pending > completed
    {
      hide IsCurrent, TableOk, View, Purged, Surviving, Scrub;
      var survivors := Surviving(rows, namespace);
      ViewPurge(rows, namespace);
      PurgedAre(View(rows), rows, namespace);
      SurvivorsCount(rows, namespace);
      var count := |rows| - |survivors|;
      ghost var before := Now();
      ScrubSettles(before, false, count > 0, busy);
      rows := survivors;
      var generation := pending;
      if count > 0 {
        residue := true;
        generation := Advance();
      }
      var ok := Settle(generation, busy);
      ScrubSteps(before, false, count > 0, busy);
      deleted := if ok then Some(count) else None;
    }
  }

  lemma KeptAre(rows: Table)
    ensures forall k :: k in Kept(rows) <==>
      k in rows && rows[k].schemaVersion == "v2" && rows[k].url == "redacted://request/"
  {
  }

  lemma PurgedAre(m: Model, rows: Table, namespace: Option<string>)
    ensures namespace.None? ==> Surviving(rows, namespace) == map[]
    ensures namespace.Some? ==> forall slot ::
      slot in Purged(m, namespace) <==> slot in m && slot.namespace != namespace.value
  {
  }

  lemma SurvivorsCount(rows: Table, namespace: Option<string>)
    ensures |Surviving(rows, namespace)| <= |rows|
    ensures |Surviving(rows, namespace)| == |rows| <==> Surviving(rows, namespace) == rows
  {
    var kept := Surviving(rows, namespace);
    assert kept.Keys <= rows.Keys;
    CountKeys(kept.Keys, rows.Keys);
    assert |kept| == |kept.Keys| && |rows| == |rows.Keys|;
    assert kept.Keys == rows.Keys ==> kept == rows;
  }

  lemma {:induction false} CountKeys(a: set<Key>, b: set<Key>)
    requires a <= b
    ensures |a| <= |b| && (|a| == |b| ==> a == b)
  {
    if a != {} {
      var x :| x in a;
      assert a == (a - {x}) + {x} && b == (b - {x}) + {x};
      CountKeys(a - {x}, b - {x});
    }
  }

  // ---- Whole runs of calls ----

  datatype Call =
    | Put(namespace: string, request: Request, record: Record, now: int, ttl: int, guard: Guard)
    | Refresh(key: Key, ttl: int, now: int, guard: Guard)
    | Get(namespace: string, request: Request, now: int, refresh: bool)
    | GetStale(namespace: string, request: Request, staleOnErrorOnly: bool)
    | Purge(covered: Option<string>, busy: bool)

  predicate CallOk(call: Call) {
    match call
    case Put(namespace, request, record, now, ttl, _) =>
      RequestOk(request) && record.namespace == namespace && record.fetchedAt == now && record.expiresAt == now + ttl
    case Get(_, request, _, _) => RequestOk(request)
    case GetStale(_, request, _) => RequestOk(request)
    case _ => true
  }

  /** The plain map after one call. */
  ghost function After(m: Model, call: Call): Model
    requires CallOk(call)
  {
    match call
    case Put(namespace, request, record, _, _, guard) =>
      if guard.Passes? then m[SlotOf(namespace, request) := record] else m
    case Refresh(key, ttl, now, guard) =>
      if guard.Passes? && KeyOk(key) then Refreshed(m, SlotOfKey(key), now, ttl) else m
    case Purge(covered, _) => Purged(m, covered)
    case _ => m
  }

  /** What a lookup in the plain map answers; nothing for the other calls. */
  ghost function Answer(m: Model, call: Call): Option<Hit>
    requires CallOk(call)
  {
    match call
    case Get(namespace, request, now, refresh) => Lookup(m, SlotOf(namespace, request), now, refresh)
    case GetStale(namespace, request, staleOnErrorOnly) => LookupStale(m, SlotOf(namespace, request), staleOnErrorOnly)
    case _ => None
  }

  ghost predicate CallsOk(calls: seq<Call>) { forall i | 0 <= i < |calls| :: CallOk(calls[i]) }

  ghost function MapAfter(m: Model, calls: seq<Call>): Model
    requires CallsOk(calls)
  {
    if calls == [] then m
    else
      var last := |calls| - 1;
      assert CallsOk(calls[..last]) && CallOk(calls[last]);
      After(MapAfter(m, calls[..last]), calls[last])
  }

  method Serve(cache: HttpCache, call: Call) returns (hit: Option<Hit>)
    requires cache.Valid() && CallOk(call)
    modifies cache
    ensures cache.Valid()
    ensures View(cache.rows) == After(old(View(cache.rows)), call)
    ensures hit == Answer(old(View(cache.rows)), call)
  {
    hide View, KeyOk, IsCurrent, Purged, Refreshed, Lookup, LookupStale, RequestOk, SlotOf, SlotOfKey, CacheKey;
    hit := None;
    match call
    case Put(namespace, request, record, now, ttl, guard) =>
      var _ := cache.PutJson(namespace, request, record.payload, record.statusCode, record.etag, record.lastModified,
        ttl, record.staleOnError, now, guard);
    case Refresh(key, ttl, now, guard) =>
      assert key in cache.rows ==> KeyOk(key) by {
        if key in cache.rows { assert RowOk(key, cache.rows[key]); }
      }
      var _ := cache.RefreshJson(key, ttl, now, guard);
    case Get(namespace, request, now, refresh) =>
      hit := cache.GetJson(namespace, request, now, refresh);
    case GetStale(namespace, request, staleOnErrorOnly) =>
      hit := cache.GetStaleJson(namespace, request, staleOnErrorOnly);
    case Purge(covered, busy) =>
      var _ := cache.Purge(covered, busy);
  }

  /** Any sequence of calls answers exactly as the plain map would. */
  method ServeAll(cache: HttpCache, calls: seq<Call>) returns (hits: seq<Option<Hit>>)
    requires cache.Valid() && CallsOk(calls)
    modifies cache
    ensures cache.Valid()
    ensures View(cache.rows) == MapAfter(old(View(cache.rows)), calls)
    ensures |hits| == |calls|
    ensures forall i | 0 <= i < |calls| ::
      hits[i] == Answer(MapAfter(old(View(cache.rows)), calls[..i]), calls[i])
  {
    hide View, CallOk, After, Answer;
    ghost var start := View(cache.rows);
    hits := [];
    for i := 0 to |calls|
      invariant cache.Valid()
      invariant View(cache.rows) == MapAfter(start, calls[..i])
      invariant |hits| == i
      invariant forall j | 0 <= j < i :: hits[j] == Answer(MapAfter(start, calls[..j]), calls[j])
    {
      assert calls[..i + 1][..i] == calls[..i];
      var hit := Serve(cache, calls[i]);
      hits := hits + [hit];
    }
    assert calls[..|calls|] == calls;
  }

  // ---- What the history says ----

  /** The calls that settle whether a slot holds a record: its puts, and the purges over it. */
  ghost predicate Settles(call: Call, slot: Slot) {
    match call
    case Put(namespace, request, _, _, _, guard) =>
      RequestOk(request) && guard.Passes? && SlotOf(namespace, request) == slot
    case Purge(covered, _) => Covers(covered, slot)
    case _ => false
  }

  function AgedBy(record: Record, call: Call, slot: Slot): Record {
    match call
    case Refresh(key, ttl, now, guard) =>
      if guard.Passes? && KeyOk(key) && SlotOfKey(key) == slot then record.(fetchedAt := now, expiresAt := now + ttl)
      else record
    case _ => record
  }

  /** A record with the times of the last refresh of its slot. */
  function Aged(record: Record, calls: seq<Call>, slot: Slot): Record {
    if calls == [] then record
    else AgedBy(Aged(record, calls[..|calls| - 1], slot), calls[|calls| - 1], slot)
  }

  lemma AfterUnsettled(m: Model, call: Call, slot: Slot)
    requires CallOk(call) && !Settles(call, slot)
    ensures slot in After(m, call) <==> slot in m
    ensures slot in m ==> After(m, call)[slot] == AgedBy(m[slot], call, slot)
  {
    hide SlotOf, KeyOk, SlotOfKey;
  }

  /** A slot that nothing settled keeps its record, refreshed. */
  lemma {:induction false} UnsettledStays(m: Model, calls: seq<Call>, slot: Slot)
    requires CallsOk(calls)
    requires forall i | 0 <= i < |calls| :: !Settles(calls[i], slot)
    ensures slot in MapAfter(m, calls) <==> slot in m
    ensures slot in m ==> MapAfter(m, calls)[slot] == Aged(m[slot], calls, slot)
  {
    hide Settles, CallOk, After, AgedBy;
    if calls != [] {
      var last := |calls| - 1;
      assert CallOk(calls[last]) && CallsOk(calls[..last]);
      UnsettledStays(m, calls[..last], slot);
      AfterUnsettled(MapAfter(m, calls[..last]), calls[last], slot);
    }
  }

  lemma {:induction false} MapAfterSplit(m: Model, calls: seq<Call>, i: nat)
    requires CallsOk(calls) && i <= |calls|
    ensures CallsOk(calls[..i]) && CallsOk(calls[i..])
    ensures MapAfter(m, calls) == MapAfter(MapAfter(m, calls[..i]), calls[i..])
  {
    hide CallOk, After;
    if i == |calls| {
      assert calls[..i] == calls;
    } else {
      var last := |calls| - 1;
      MapAfterSplit(m, calls[..last], i);
      assert calls[..last][..i] == calls[..i];
      assert calls[..last][i..] == calls[i..][..last - i];
    }
  }

  /** After any run, a slot holds the record of the last put since the last purge over it, with
      the times of its last refresh since that put; without such a put it holds nothing. */
  lemma HistoryDecides(m: Model, calls: seq<Call>, slot: Slot, i: nat)
    requires CallsOk(calls) && i < |calls| && Settles(calls[i], slot)
    requires forall j | i < j < |calls| :: !Settles(calls[j], slot)
    ensures calls[i].Purge? ==> slot !in MapAfter(m, calls)
    ensures calls[i].Put? ==> slot in MapAfter(m, calls)
    ensures calls[i].Put? ==> MapAfter(m, calls)[slot] == Aged(calls[i].record, calls[i + 1..], slot)
  {
    hide Settles, CallOk, After;
    MapAfterSplit(m, calls, i + 1);
    assert calls[..i + 1][..i] == calls[..i];
    SettledAfter(MapAfter(m, calls[..i]), calls[i], slot);
    UnsettledStays(MapAfter(m, calls[..i + 1]), calls[i + 1..], slot);
  }

  lemma SettledAfter(m: Model, call: Call, slot: Slot)
    requires CallOk(call) && Settles(call, slot)
    ensures call.Purge? ==> slot !in After(m, call)
    ensures call.Put? ==> slot in After(m, call) && After(m, call)[slot] == call.record
    ensures call.Put? || call.Purge?
  {
    hide SlotOf;
  }
}
