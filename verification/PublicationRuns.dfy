/** Safety of publishing over whole runs: any number of calls on any channels, each of which may raise
    at any step (scripts/generate_docs_search_index.py, `build_search_release`). */
module PublicationRuns {
  import opened ReleaseManifest
  import opened ReleaseBuild
  import opened Publication
  import opened Hashing
  import opened Text
  import opened Wrappers

  // ---- One call ----

  /** A named release never changes, and a call names at most its own stage. */
  lemma NamedReleasesStay<P(!new)>(host: Host<P>, graph: Dir -> bool, releases: Releases, pointers: Pointers, c: Call)
    ensures var after := Publish(host, graph, releases, pointers, c);
      && (forall id | id in releases :: id in after.releases && after.releases[id] == releases[id])
      && (forall id | id in after.releases && id !in releases ::
        && c.staged == Some(after.releases[id]) && Read(host, after.releases[id]).Whole?
        && Read(host, after.releases[id]).manifest.releaseId == id)
  {
    hide Ready, Replaces, Stands, NewPointer;
    if Ready(host, graph, releases, pointers, c) { ReadyReads(host, graph, releases, pointers, c); }
  }

  lemma OtherChannelsStay<P(!new)>(host: Host<P>, graph: Dir -> bool, releases: Releases, pointers: Pointers, c: Call)
    ensures Publish(host, graph, releases, pointers, c).pointers - {c.channel} == pointers - {c.channel}
  {
    hide Ready, Replaces, Stands, NewPointer;
    if Ready(host, graph, releases, pointers, c) { ReadyReads(host, graph, releases, pointers, c); }
  }

  /** The two ways to raise with the new pointer in place: the restore itself raises, or something
      raises on the way out after the new pointer was accepted. */
  ghost predicate LeavesPointer<P(!new)>(host: Host<P>, graph: Dir -> bool, releases: Releases, pointers: Pointers,
      c: Call)
  {
    && Ready(host, graph, releases, pointers, c)
    && c.staged.Some? && Read(host, c.staged.value).Whole?
    && Replaces(host, pointers, c)
    && if Stands(host, pointers, c) then c.exitRaises else c.restoreRaises
  }

  /** A call that raises leaves the pointer bytes as they were, except in exactly those ways. */
  lemma RaisingKeepsPointer<P(!new)>(host: Host<P>, graph: Dir -> bool, releases: Releases, pointers: Pointers, c: Call)
    requires Publish(host, graph, releases, pointers, c).raised
    ensures !LeavesPointer(host, graph, releases, pointers, c) ==>
      Publish(host, graph, releases, pointers, c).pointers == pointers
    ensures LeavesPointer(host, graph, releases, pointers, c) ==>
      && NewPointer(host, pointers, c).Some?
      && Publish(host, graph, releases, pointers, c).pointers
        == pointers[c.channel := Written(NewPointer(host, pointers, c).value)]
  {
    hide Ready, NewPointer;
    if Ready(host, graph, releases, pointers, c) { ReadyReads(host, graph, releases, pointers, c); }
  }

  /** A call returns exactly when everything before the swap was in order, nothing raised from there
      on, the pointer could be written, and the snapshot does not lie in the future. */
  lemma ReturnsExactlyWhenItStands<P(!new)>(host: Host<P>, graph: Dir -> bool, releases: Releases, pointers: Pointers,
      c: Call)
    ensures !Publish(host, graph, releases, pointers, c).raised <==>
      && Ready(host, graph, releases, pointers, c) && c.staged.Some? && Read(host, c.staged.value).Whole?
      && Stands(host, pointers, c) && !c.exitRaises
  {
    hide Ready, NewPointer;
    if Ready(host, graph, releases, pointers, c) { ReadyReads(host, graph, releases, pointers, c); }
  }

  // ---- A call that raises and leaves the new pointer ----

  function TinyBody(): Body {
    Body(RELEASE_SCHEMA_VERSION, Canonical(SECOND), Source("sqlite", "a", 0, Sha256([])),
      Generator("g", "a", 6, [Component("a", Sha256([]))]), 0, 0, [])
  }

  /** The manifest of a release without payload files. */
  function TinyManifest(): Manifest {
    Manifest(TinyBody(), BodySha256(TinyBody()), RootDigest("sha256", BodySha256(TinyBody())))
  }

  function TinyHost(): Host<int> {
    Host(p => false, p => "artifact", b => None, (p, r) => 0, p => false, m => [1], b => Whole(TinyManifest()))
  }

  predicate TinyGraph(dir: Dir) { true }

  function TinyDir(): Dir { map[MANIFEST_FILE := [1]] }

  /** A call whose second validation is interrupted, and whose restore then fails as well. */
  function UnluckyCall(): Call {
    Call("staging", SECOND, SECOND, None, Some(TinyDir()), false, Swapped, true, true, false)
  }

  lemma TinyPathIsSafe()
    ensures SafePath("a")
  {
    SplitWithoutSeparator('/', "a");
  }

  lemma TinyReleaseIsOk(now: int)
    requires now <= SECOND
    ensures ReleaseOk(TinyHost(), TinyGraph, TinyDir(), None, Some(SECOND), now)
  {
    hide SafePath;
    TinyPathIsSafe();
    var dir, m := TinyDir(), TinyManifest();
    assert Listed(m.body.files) == {};
    assert dir.Keys == {MANIFEST_FILE};
    assert |dir| == 1;
  }

  lemma TinyChannelIsOk()
    ensures ChannelOk("staging") && "staging" != PRODUCTION
  {
    assert "staging"[0] != PRODUCTION[0];
  }

  /** The pointer is not always as it was: a failing restore leaves the one it should have undone. */
  lemma FailedRestoreLeavesPointer()
    ensures var after := Publish(TinyHost(), TinyGraph, map[], map[], UnluckyCall());
      after.raised && "staging" in after.pointers
  {
    hide Ready, NewPointer;
    TinyCallIsReady(UnluckyCall());
  }

  /** A call in which nothing raises but leaving the `with` blocks. */
  function InterruptedCall(): Call {
    Call("staging", SECOND, SECOND, None, Some(TinyDir()), false, Swapped, false, false, true)
  }

  /** The other way: the new pointer was accepted, the call raises all the same, and nothing is undone. */
  lemma InterruptedExitLeavesPointer()
    ensures Stands(TinyHost(), map[], InterruptedCall())
    ensures var after := Publish(TinyHost(), TinyGraph, map[], map[], InterruptedCall());
      after.raised && "staging" in after.pointers
  {
    hide Ready, NewPointer, TinyManifest;
    TinyCallIsReady(InterruptedCall());
    TinySnapshot();
  }

  /** Whatever raises in it, the tiny release can be published on an empty site. */
  lemma TinyCallIsReady(c: Call)
    requires c == UnluckyCall() || c == InterruptedCall()
    ensures Ready(TinyHost(), TinyGraph, map[], map[], c)
    ensures Read(TinyHost(), TinyDir()) == Whole(TinyManifest()) && NewPointer(TinyHost(), map[], c).Some?
    ensures NewPointer(TinyHost(), map[], c).value.snapshotAt == TinyManifest().body.snapshotAt
  {
    hide ReleaseOk, ChannelOk, TinyManifest;
    TinyReleaseIsOk(SECOND);
    TinyChannelIsOk();
    TinySnapshot();
    assert Ready(TinyHost(), TinyGraph, map[], map[], c);
    ReadyReads(TinyHost(), TinyGraph, map[], map[], c);
  }

  lemma TinySnapshot()
    ensures TinyManifest().body.snapshotAt == Canonical(SECOND)
  {
  }

  // ---- Runs ----

  /** `history` lists, per channel, the releases that its pointer has named. */
  datatype State = State(releases: Releases, pointers: Pointers, history: map<string, seq<ReleaseId>>)

  function HistoryOf(s: State, channel: string): seq<ReleaseId> {
    if channel in s.history then s.history[channel] else []
  }

  ghost predicate Commits<P(!new)>(host: Host<P>, graph: Dir -> bool, s: State, c: Call) {
    && Ready(host, graph, s.releases, s.pointers, c)
    && c.staged.Some? && Read(host, c.staged.value).Whole?
    && Replaces(host, s.pointers, c) && (Stands(host, s.pointers, c) || c.restoreRaises)
  }

  ghost function Next<P(!new)>(host: Host<P>, graph: Dir -> bool, s: State, c: Call): State {
    var after := Publish(host, graph, s.releases, s.pointers, c);
    State(after.releases, after.pointers,
      if Commits(host, graph, s, c)
      then s.history[c.channel := HistoryOf(s, c.channel) + [Read(host, c.staged.value).manifest.releaseId]]
      else s.history)
  }

  ghost function RunOf<P(!new)>(host: Host<P>, graph: Dir -> bool, calls: seq<Call>): State {
    if calls == [] then State(map[], map[], map[])
    else Next(host, graph, RunOf(host, graph, calls[..|calls| - 1]), calls[|calls| - 1])
  }

  /** The last release of a history other than `id`. */
  function LastOther(history: seq<ReleaseId>, id: ReleaseId): Option<ReleaseId> {
    if history == [] then None
    else
      var last := history[|history| - 1];
      if last != id then Some(last) else LastOther(history[..|history| - 1], id)
  }

  /** That is the most recent different release. */
  lemma {:induction false} LastOtherIsMostRecent(history: seq<ReleaseId>, id: ReleaseId)
    ensures LastOther(history, id).None? ==> forall k | 0 <= k < |history| :: history[k] == id
    ensures LastOther(history, id).Some? ==>
      exists k :: 0 <= k < |history| && MostRecentOther(history, id, k) && history[k] == LastOther(history, id).value
  {
    hide MostRecentOther;
    if history != [] {
      var last := |history| - 1;
      LastOtherIsMostRecent(history[..last], id);
      MostRecentLast(history, id);
      if history[last] == id && LastOther(history, id).Some? {
        var k :| 0 <= k < last && MostRecentOther(history[..last], id, k)
          && history[..last][k] == LastOther(history[..last], id).value;
        MostRecentExtends(history, id, k);
      }
    }
  }

  lemma MostRecentLast(history: seq<ReleaseId>, id: ReleaseId)
    requires history != []
    ensures history[|history| - 1] != id ==> MostRecentOther(history, id, |history| - 1)
  {
  }

  lemma MostRecentExtends(history: seq<ReleaseId>, id: ReleaseId, k: int)
    requires history != [] && history[|history| - 1] == id && MostRecentOther(history[..|history| - 1], id, k)
    ensures 0 <= k < |history| - 1 && MostRecentOther(history, id, k)
  {
  }

  predicate MostRecentOther(history: seq<ReleaseId>, id: ReleaseId, k: int) {
    0 <= k < |history| && history[k] != id && forall j | k < j < |history| :: history[j] == id
  }

  /** One channel: its pointer names a present release, and as prior release the most recent different
      one of the channel, which is present too. */
  ghost predicate ChannelTracked(s: State, channel: string) {
    if channel in s.pointers then
      && s.pointers[channel].Written?
      && var p := s.pointers[channel].pointer;
      && p.releaseId in s.releases && (p.prior.Some? ==> p.prior.value in s.releases)
      && HistoryOf(s, channel) != [] && HistoryOf(s, channel)[|HistoryOf(s, channel)| - 1] == p.releaseId
      && p.prior == LastOther(HistoryOf(s, channel), p.releaseId)
    else HistoryOf(s, channel) == []
  }

  /** Every directory has the name that its manifest gives it. */
  ghost predicate ReleasesTracked<P(!new)>(host: Host<P>, s: State) {
    forall id | id in s.releases :: Read(host, s.releases[id]).Whole?
      && Read(host, s.releases[id]).manifest.releaseId == id
  }

  lemma CommittedPointer<P(!new)>(host: Host<P>, graph: Dir -> bool, s: State, c: Call)
    requires Commits(host, graph, s, c)
    ensures var after := Publish(host, graph, s.releases, s.pointers, c);
      var id := Read(host, c.staged.value).manifest.releaseId;
      && c.channel in after.pointers && after.pointers[c.channel].Written?
      && after.pointers[c.channel].pointer.releaseId == id && id in after.releases
      && after.pointers[c.channel].pointer.prior == PriorOf(s.pointers, c.channel, id)
  {
    hide Ready, NewPointer, PriorOf;
    ReadyReads(host, graph, s.releases, s.pointers, c);
  }

  lemma UncommittedPointers<P(!new)>(host: Host<P>, graph: Dir -> bool, s: State, c: Call)
    requires !Commits(host, graph, s, c)
    ensures Publish(host, graph, s.releases, s.pointers, c).pointers == s.pointers
  {
    hide Ready, NewPointer;
    if Ready(host, graph, s.releases, s.pointers, c) { ReadyReads(host, graph, s.releases, s.pointers, c); }
  }

  lemma ChannelStaysTracked<P(!new)>(host: Host<P>, graph: Dir -> bool, s: State, c: Call, channel: string)
    requires ChannelTracked(s, channel)
    ensures ChannelTracked(Next(host, graph, s, c), channel)
  {
    hide Publish, Commits;
    NamedReleasesStay(host, graph, s.releases, s.pointers, c);
    OtherChannelsStay(host, graph, s.releases, s.pointers, c);
    var after := Publish(host, graph, s.releases, s.pointers, c);
    if !Commits(host, graph, s, c) {
      UncommittedPointers(host, graph, s, c);
    } else if channel != c.channel {
      assert channel in after.pointers <==> channel in after.pointers - {c.channel};
      assert channel in s.pointers <==> channel in s.pointers - {c.channel};
      if channel in s.pointers {
        assert (after.pointers - {c.channel})[channel] == (s.pointers - {c.channel})[channel];
      }
    } else {
      CommittedChannel(host, graph, s, c);
    }
  }

  lemma LastOtherSkips(history: seq<ReleaseId>, id: ReleaseId)
    ensures LastOther(history + [id], id) == LastOther(history, id)
  {
    assert (history + [id])[..|history|] == history;
  }

  lemma TrackedPrior(s: State, channel: string, id: ReleaseId)
    requires ChannelTracked(s, channel)
    ensures PriorOf(s.pointers, channel, id) == LastOther(HistoryOf(s, channel), id)
    ensures PriorOf(s.pointers, channel, id).Some? ==> PriorOf(s.pointers, channel, id).value in s.releases
  {
  }

  lemma CommittedChannel<P(!new)>(host: Host<P>, graph: Dir -> bool, s: State, c: Call)
    requires Commits(host, graph, s, c) && ChannelTracked(s, c.channel)
    ensures ChannelTracked(Next(host, graph, s, c), c.channel)
  {
    hide Publish, Commits, Read, LastOther, PriorOf;
    NamedReleasesStay(host, graph, s.releases, s.pointers, c);
    CommittedPointer(host, graph, s, c);
    CommitsReads(host, graph, s, c);
    var id := Read(host, c.staged.value).manifest.releaseId;
    assert HistoryOf(Next(host, graph, s, c), c.channel) == HistoryOf(s, c.channel) + [id];
    LastOtherSkips(HistoryOf(s, c.channel), id);
    TrackedPrior(s, c.channel, id);
  }

  lemma CommitsReads<P(!new)>(host: Host<P>, graph: Dir -> bool, s: State, c: Call)
    requires Commits(host, graph, s, c)
    ensures c.staged.Some? && Read(host, c.staged.value).Whole?
  {
  }

  /** After any run, every channel is tracked and every release has its own name. */
  lemma {:induction false} RunsStayTracked<P(!new)>(host: Host<P>, graph: Dir -> bool, calls: seq<Call>,
      channel: string)
    ensures ChannelTracked(RunOf(host, graph, calls), channel) && ReleasesTracked(host, RunOf(host, graph, calls))
  {
    hide Publish, Commits;
    if calls != [] {
      var last := |calls| - 1;
      var s := RunOf(host, graph, calls[..last]);
      RunsStayTracked(host, graph, calls[..last], channel);
      ChannelStaysTracked(host, graph, s, calls[last], channel);
      NamedReleasesStay(host, graph, s.releases, s.pointers, calls[last]);
    }
  }

  /** A release named at some point of a run is there, unchanged, ever after. */
  lemma {:induction false} ReleasesAreForever<P(!new)>(host: Host<P>, graph: Dir -> bool, calls: seq<Call>, i: nat,
      id: ReleaseId)
    requires i <= |calls| && id in RunOf(host, graph, calls[..i]).releases
    ensures id in RunOf(host, graph, calls).releases
    ensures RunOf(host, graph, calls).releases[id] == RunOf(host, graph, calls[..i]).releases[id]
    decreases |calls|
  {
    hide Publish, Commits;
    if i == |calls| {
      assert calls[..i] == calls;
    } else {
      var last := |calls| - 1;
      assert calls[..last][..i] == calls[..i];
      ReleasesAreForever(host, graph, calls[..last], i, id);
      var s := RunOf(host, graph, calls[..last]);
      NamedReleasesStay(host, graph, s.releases, s.pointers, calls[last]);
    }
  }

  // ---- Channels that stay open, and one that does not ----

  /** The pointer's snapshot does not lie in the future of its promotion by a second or more. */
  predicate Timely(p: Pointer) {
    p.snapshotAt.Canonical? ==> WholeSeconds(p.promotedAt - p.snapshotAt.micros) >= 0
  }

  /** A pointer is valid for the next call exactly when it is timely. */
  ghost predicate ChannelSound<P(!new)>(host: Host<P>, graph: Dir -> bool, releases: Releases, pointers: Pointers,
      channel: string)
  {
    channel in pointers ==>
      && pointers[channel].Written?
      && (ExistingOk(host, graph, releases, pointers, channel) <==> Timely(pointers[channel].pointer))
  }

  lemma ValidIsTimely<P(!new)>(host: Host<P>, graph: Dir -> bool, releases: Releases, pointers: Pointers,
      channel: string)
    requires channel in pointers && ExistingOk(host, graph, releases, pointers, channel)
    ensures pointers[channel].Written? && Timely(pointers[channel].pointer)
  {
    hide ReleaseOk, ChannelOk, ReasonOk, WholeSeconds;
  }

  /** Naming further releases keeps a valid channel valid. */
  lemma ValidAmongMore<P(!new)>(host: Host<P>, graph: Dir -> bool, releases: Releases, more: Releases,
      pointers: Pointers, after: Pointers, channel: string)
    requires forall id | id in releases :: id in more && more[id] == releases[id]
    requires channel in pointers && channel in after && after[channel] == pointers[channel]
    requires ExistingOk(host, graph, releases, pointers, channel)
    ensures ExistingOk(host, graph, more, after, channel)
  {
    hide ReleaseOk, ChannelOk, ReasonOk, WholeSeconds, PointerOk;
  }

  /** A limit on the age of the snapshot is not needed later. */
  lemma AgeNoLongerMatters<P(!new)>(host: Host<P>, graph: Dir -> bool, releases: Releases, pointers: Pointers, c: Call)
    requires ArgumentsOk(c) && ChannelValid(host, graph, releases, pointers, c.channel, ReleaseAge(c), c.now)
    ensures ChannelValid(host, graph, releases, pointers, c.channel, None, c.now)
  {
    hide ReleaseOk, ChannelOk, ReasonOk, WholeSeconds, PointerOk;
    var p := pointers[c.channel].pointer;
    if p.degraded.None? {
      LongerLimit(host, graph, releases[p.releaseId], Some(p.releaseId), EffectiveAge(c.channel, ReleaseAge(c)),
        EffectiveAge(c.channel, None), c.now);
    }
  }

  lemma LongerLimit<P(!new)>(host: Host<P>, graph: Dir -> bool, dir: Dir, home: Option<ReleaseId>,
      limit: Option<int>, longer: Option<int>, now: int)
    requires ReleaseOk(host, graph, dir, home, limit, now)
    requires longer.Some? ==> limit.Some? && limit.value <= longer.value
    ensures ReleaseOk(host, graph, dir, home, longer, now)
  {
    hide ShapeOk, Closed;
  }

  lemma MadePointer(m: Manifest, channel: string, prior: Option<ReleaseId>, degraded: Option<string>, promotedAt: int)
    ensures var p := ChannelPointer(m, channel, prior, degraded, promotedAt);
      p.Some? ==> p.value.promotedAt == promotedAt && p.value.snapshotAt == m.body.snapshotAt
  {
  }

  /** A call that leaves its pointer leaves it valid exactly when it is timely. */
  lemma CommitIsSound<P(!new)>(host: Host<P>, graph: Dir -> bool, s: State, c: Call)
    requires Commits(host, graph, s, c)
    ensures var after := Publish(host, graph, s.releases, s.pointers, c);
      ChannelSound(host, graph, after.releases, after.pointers, c.channel)
  {
    hide ReleaseOk, WholeSeconds, ChannelValid, ChannelPointer;
    ReadyReads(host, graph, s.releases, s.pointers, c);
    var m := Read(host, c.staged.value).manifest;
    var p := NewPointer(host, s.pointers, c).value;
    var after := Publish(host, graph, s.releases, s.pointers, c);
    MadePointer(m, c.channel, PriorOf(s.pointers, c.channel, m.releaseId), c.reason, c.now);
    SwappedIsValid(host, graph, s.releases, s.pointers, c, p);
    if Timely(p) {
      AgeNoLongerMatters(host, graph, after.releases, after.pointers, c);
    }
    if ExistingOk(host, graph, after.releases, after.pointers, c.channel) {
      ValidIsTimely(host, graph, after.releases, after.pointers, c.channel);
    }
  }

  lemma SoundStaysSound<P(!new)>(host: Host<P>, graph: Dir -> bool, s: State, c: Call, channel: string)
    requires ChannelSound(host, graph, s.releases, s.pointers, channel)
    ensures var next := Next(host, graph, s, c);
      ChannelSound(host, graph, next.releases, next.pointers, channel)
  {
    hide Publish, Commits, ExistingOk, Timely;
    var after := Publish(host, graph, s.releases, s.pointers, c);
    NamedReleasesStay(host, graph, s.releases, s.pointers, c);
    OtherChannelsStay(host, graph, s.releases, s.pointers, c);
    if channel == c.channel && Commits(host, graph, s, c) {
      CommitIsSound(host, graph, s, c);
    } else {
      SamePointer(host, graph, s, c, channel);
      if channel in s.pointers && ExistingOk(host, graph, s.releases, s.pointers, channel) {
        ValidAmongMore(host, graph, s.releases, after.releases, s.pointers, after.pointers, channel);
      }
      if channel in after.pointers && ExistingOk(host, graph, after.releases, after.pointers, channel) {
        ValidIsTimely(host, graph, after.releases, after.pointers, channel);
      }
    }
  }

  lemma SamePointer<P(!new)>(host: Host<P>, graph: Dir -> bool, s: State, c: Call, channel: string)
    requires channel == c.channel ==> !Commits(host, graph, s, c)
    ensures var after := Publish(host, graph, s.releases, s.pointers, c);
      && (channel in after.pointers <==> channel in s.pointers)
      && (channel in s.pointers ==> after.pointers[channel] == s.pointers[channel])
  {
    hide Publish, Commits;
    var after := Publish(host, graph, s.releases, s.pointers, c);
    if channel == c.channel {
      UncommittedPointers(host, graph, s, c);
    } else {
      OtherChannelsStay(host, graph, s.releases, s.pointers, c);
      assert channel in after.pointers <==> channel in after.pointers - {c.channel};
      assert channel in s.pointers <==> channel in s.pointers - {c.channel};
      if channel in s.pointers {
        assert (after.pointers - {c.channel})[channel] == (s.pointers - {c.channel})[channel];
      }
    }
  }

  /** After any run, the pointer of every channel passes the validation that the next call begins with,
      exactly when it is timely. */
  lemma {:induction false} RunsStaySound<P(!new)>(host: Host<P>, graph: Dir -> bool, calls: seq<Call>, channel: string)
    ensures var s := RunOf(host, graph, calls); ChannelSound(host, graph, s.releases, s.pointers, channel)
  {
    hide Publish, Commits, ChannelSound;
    if calls == [] {
      EmptySiteIsSound(host, graph, channel);
    } else {
      var last := |calls| - 1;
      RunsStaySound(host, graph, calls[..last], channel);
      SoundStaysSound(host, graph, RunOf(host, graph, calls[..last]), calls[last], channel);
    }
  }

  lemma EmptySiteIsSound<P(!new)>(host: Host<P>, graph: Dir -> bool, channel: string)
    ensures ChannelSound(host, graph, map[], map[], channel)
  {
  }

  /** The only call that leaves an untimely pointer rejected its own snapshot as lying in the future,
      and could not restore. */
  lemma UntimelyComesFromRestore<P(!new)>(host: Host<P>, graph: Dir -> bool, s: State, c: Call)
    requires Commits(host, graph, s, c)
    ensures NewPointer(host, s.pointers, c).Some?
    ensures !Timely(NewPointer(host, s.pointers, c).value) ==> !Stands(host, s.pointers, c) && c.restoreRaises
  {
    hide Ready, ChannelPointer, WholeSeconds;
    ReadyReads(host, graph, s.releases, s.pointers, c);
    var m := Read(host, c.staged.value).manifest;
    MadePointer(m, c.channel, PriorOf(s.pointers, c.channel, m.releaseId), c.reason, c.now);
  }

  /** What one call of a run does, in the state that the calls before it leave. */
  ghost function Effect<P(!new)>(host: Host<P>, graph: Dir -> bool, calls: seq<Call>, i: nat): After
    requires i < |calls|
  {
    var before := RunOf(host, graph, calls[..i]);
    Publish(host, graph, before.releases, before.pointers, calls[i])
  }

  /** A call of the run on this channel that raised, and whose restore failed. */
  ghost predicate FailedRestore<P(!new)>(host: Host<P>, graph: Dir -> bool, calls: seq<Call>, channel: string, i: nat)
    requires i < |calls|
  {
    calls[i].channel == channel && calls[i].restoreRaises && Effect(host, graph, calls, i).raised
  }

  /** After any run the next call finds every channel valid, unless the restore of some call on it
      failed. */
  lemma {:induction false} OpenUnlessRestoreFailed<P(!new)>(host: Host<P>, graph: Dir -> bool, calls: seq<Call>,
      channel: string)
    ensures var s := RunOf(host, graph, calls);
      || ExistingOk(host, graph, s.releases, s.pointers, channel)
      || exists i: nat :: i < |calls| && FailedRestore(host, graph, calls, channel, i)
  {
    hide Publish, Commits, Timely, ExistingOk;
    RunsStaySound(host, graph, calls, channel);
    if calls == [] {
      NothingThere(host, graph, State(map[], map[], map[]), channel);
    } else {
      var last := |calls| - 1;
      var s := RunOf(host, graph, calls[..last]);
      OpenUnlessRestoreFailed(host, graph, calls[..last], channel);
      RunsStaySound(host, graph, calls[..last], channel);
      if i: nat :| i < last && FailedRestore(host, graph, calls[..last], channel, i) {
        assert calls[..last][..i] == calls[..i];
        assert FailedRestore(host, graph, calls, channel, i);
      } else if calls[last].channel == channel && Commits(host, graph, s, calls[last]) {
        CommitFails(host, graph, s, calls[last]);
        assert Effect(host, graph, calls, last) == Publish(host, graph, s.releases, s.pointers, calls[last]);
        if !Timely(RunOf(host, graph, calls).pointers[channel].pointer) {
          assert FailedRestore(host, graph, calls, channel, last);
        }
      } else {
        SamePointer(host, graph, s, calls[last], channel);
        if channel !in s.pointers { NothingThere(host, graph, RunOf(host, graph, calls), channel); }
      }
    }
  }

  lemma NothingThere<P(!new)>(host: Host<P>, graph: Dir -> bool, s: State, channel: string)
    requires channel !in s.pointers
    ensures ExistingOk(host, graph, s.releases, s.pointers, channel)
  {
  }

  /** A call that leaves an untimely pointer raised. */
  lemma CommitFails<P(!new)>(host: Host<P>, graph: Dir -> bool, s: State, c: Call)
    requires Commits(host, graph, s, c)
    ensures var after := Publish(host, graph, s.releases, s.pointers, c);
      && c.channel in after.pointers && after.pointers[c.channel].Written?
      && (!Timely(after.pointers[c.channel].pointer) ==> c.restoreRaises && after.raised)
  {
    hide Ready, NewPointer, Timely, Stands;
    ReadyReads(host, graph, s.releases, s.pointers, c);
    UntimelyComesFromRestore(host, graph, s, c);
  }

  /** An untimely pointer closes its channel: whatever follows, every call on it raises and leaves the
      pointer. */
  lemma {:induction false} UntimelyForever<P(!new)>(host: Host<P>, graph: Dir -> bool, calls: seq<Call>,
      more: seq<Call>, channel: string)
    requires var s := RunOf(host, graph, calls);
      channel in s.pointers && s.pointers[channel].Written? && !Timely(s.pointers[channel].pointer)
    ensures var s, t := RunOf(host, graph, calls), RunOf(host, graph, calls + more);
      channel in t.pointers && t.pointers[channel] == s.pointers[channel]
    ensures forall c: Call | c.channel == channel ::
      var t := RunOf(host, graph, calls + more); Publish(host, graph, t.releases, t.pointers, c).raised
    decreases |more|
  {
    hide Publish, Commits, Timely, ChannelSound, RunOf;
    if more == [] {
      assert calls + more == calls;
    } else {
      var last := |more| - 1;
      UntimelyForever(host, graph, calls, more[..last], channel);
      assert calls + more == (calls + more[..last]) + [more[last]];
      var s := RunOf(host, graph, calls + more[..last]);
      RunOfNext(host, graph, calls + more[..last], more[last]);
      RunsStaySound(host, graph, calls + more[..last], channel);
      if more[last].channel == channel { UntimelyBlocks(host, graph, s, more[last]); }
      SamePointer(host, graph, s, more[last], channel);
    }
    var t := RunOf(host, graph, calls + more);
    RunsStaySound(host, graph, calls + more, channel);
    forall c: Call | c.channel == channel ensures Publish(host, graph, t.releases, t.pointers, c).raised {
      UntimelyBlocks(host, graph, t, c);
    }
  }

  /** A call one second before its snapshot, rejected by its own validation, whose restore fails. */
  function EarlyCall(): Call {
    Call("staging", SECOND, 0, None, Some(TinyDir()), false, Swapped, false, true, false)
  }

  lemma EarlyCallCommits(s: State)
    requires s == State(map[], map[], map[])
    ensures var after := Publish(TinyHost(), TinyGraph, s.releases, s.pointers, EarlyCall());
      && "staging" in after.pointers && after.pointers["staging"].Written?
      && !Timely(after.pointers["staging"].pointer)
  {
    hide ReleaseOk, ChannelOk, TinyManifest;
    TinyReleaseIsOk(0);
    TinyChannelIsOk();
    TinySnapshot();
    var c := EarlyCall();
    assert Ready(TinyHost(), TinyGraph, s.releases, s.pointers, c);
    ReadyReads(TinyHost(), TinyGraph, s.releases, s.pointers, c);
    assert Read(TinyHost(), TinyDir()) == Whole(TinyManifest());
    assert NewPointer(TinyHost(), s.pointers, c).Some?;
    assert !Stands(TinyHost(), s.pointers, c);
  }

  /** One such call on an empty site, and the channel is closed for good. */
  lemma EarlyCallClosesItsChannel(more: seq<Call>, c: Call)
    requires c.channel == "staging"
    ensures var t := RunOf(TinyHost(), TinyGraph, [EarlyCall()] + more);
      && "staging" in t.pointers && t.pointers["staging"].Written? && !Timely(t.pointers["staging"].pointer)
      && Publish(TinyHost(), TinyGraph, t.releases, t.pointers, c).raised
  {
    hide ReleaseOk, ChannelOk, TinyManifest, Timely, Publish, Commits, ChannelSound;
    var s := State(map[], map[], map[]);
    assert [EarlyCall()][..0] == [];
    EarlyCallCommits(s);
    UntimelyForever(TinyHost(), TinyGraph, [EarlyCall()], more, "staging");
  }

  lemma RunOfNext<P(!new)>(host: Host<P>, graph: Dir -> bool, calls: seq<Call>, c: Call)
    ensures RunOf(host, graph, calls + [c]) == Next(host, graph, RunOf(host, graph, calls), c)
  {
    hide Next;
    assert (calls + [c])[..|calls|] == calls;
  }

  lemma UntimelyBlocks<P(!new)>(host: Host<P>, graph: Dir -> bool, s: State, c: Call)
    requires ChannelSound(host, graph, s.releases, s.pointers, c.channel)
    requires c.channel in s.pointers && !Timely(s.pointers[c.channel].pointer)
    ensures Publish(host, graph, s.releases, s.pointers, c).raised && !Commits(host, graph, s, c)
  {
    hide ExistingOk, Timely;
    assert !ExistingOk(host, graph, s.releases, s.pointers, c.channel);
    assert !Ready(host, graph, s.releases, s.pointers, c);
  }

  // ---- A site ----

  /** A site that starts empty and serves any calls is in the state of their run, and the calls that
      raise are those of the run. */
  method ServeAll<P(!new)>(site: Site<P>, calls: seq<Call>) returns (raised: seq<bool>)
    requires site.releases == map[] && site.pointers == map[]
    modifies site
    ensures site.releases == RunOf(site.host, site.graph, calls).releases
    ensures site.pointers == RunOf(site.host, site.graph, calls).pointers
    ensures |raised| == |calls|
    ensures forall i | 0 <= i < |calls| :: raised[i] == Effect(site.host, site.graph, calls, i).raised
  {
    hide Publish, Commits;
    raised := [];
    for i := 0 to |calls|
      invariant |raised| == i
      invariant forall j | 0 <= j < i :: raised[j] == Effect(site.host, site.graph, calls, j).raised
      invariant site.releases == RunOf(site.host, site.graph, calls[..i]).releases
      invariant site.pointers == RunOf(site.host, site.graph, calls[..i]).pointers
    {
      assert calls[..i + 1][..i] == calls[..i];
      var r := site.BuildSearchRelease(calls[i]);
      raised := raised + [r];
    }
    assert calls[..|calls|] == calls;
  }
}
