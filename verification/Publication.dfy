/** Publishing a release: stage, validate, name the directory, swap the channel pointer, validate
    again, restore on any exception (scripts/generate_docs_search_index.py, `build_search_release`;
    scripts/docs_search_release.py). */
module Publication {
  import opened ReleaseManifest
  import opened ReleaseBuild
  import opened Wrappers

  const PRODUCTION: string := "production"
  const SECOND: int := 1_000_000
  /** 48 hours, in microseconds. */
  const PRODUCTION_MAX_SNAPSHOT_AGE: int := 172_800 * SECOND

  // ---- Channel pointers ----

  datatype Pointer = Pointer(channel: string, releaseId: ReleaseId, rootDigest: RootDigest, snapshotAt: Timestamp,
    manifestOf: ReleaseId, prior: Option<ReleaseId>, degraded: Option<string>, promotedAt: int, ageSeconds: int)

  /** A pointer file: canonical bytes of a pointer, or anything else. */
  datatype PointerFile = Written(pointer: Pointer) | Raw(bytes: Bytes)

  predicate ChannelChar(c: char) { 'a' <= c <= 'z' || '0' <= c <= '9' }

  predicate ChannelOk(channel: string) {
    && 1 <= |channel| <= 63 && ChannelChar(channel[0]) && ChannelChar(channel[|channel| - 1])
    && forall i | 0 <= i < |channel| :: ChannelChar(channel[i]) || channel[i] == '-'
  }

  /** A reason for a stale release, already stripped of blanks. */
  predicate ReasonOk(reason: Option<string>) { reason.Some? ==> 1 <= |reason.value| <= 500 }

  /** `int(delta.total_seconds())`, which truncates toward zero. */
  function WholeSeconds(micros: int): int { if micros >= 0 then micros / SECOND else -(-micros / SECOND) }

  /** The whole seconds that fit between the instants, with the sign of their difference. */
  lemma WholeSecondsMean(micros: int)
    ensures var s := WholeSeconds(micros);
      && (micros >= 0 ==> s >= 0 && s * 1_000_000 <= micros < (s + 1) * 1_000_000)
      && (micros <= 0 ==> s <= 0 && (s - 1) * 1_000_000 < micros <= s * 1_000_000)
      && (s < 0 <==> micros <= -1_000_000)
  {
  }

  /** `channel_pointer`; nothing stands for the raised error. */
  function ChannelPointer(m: Manifest, channel: string, prior: Option<ReleaseId>, degraded: Option<string>,
      promotedAt: int): Option<Pointer>
  {
    if !ChannelOk(channel) || prior == Some(m.releaseId) || !ReasonOk(degraded) || !m.body.snapshotAt.Canonical?
    then None
    else
      var age := WholeSeconds(promotedAt - m.body.snapshotAt.micros);
      Some(Pointer(channel, m.releaseId, m.rootDigest, m.body.snapshotAt, m.releaseId, prior, degraded, promotedAt,
        if age < 0 then 0 else age))
  }

  /** A pointer names the manifest it was made from, on its channel, with the age of the snapshot at the
      time of promotion in whole seconds, and never the release as its own prior. */
  lemma PointerMeans(m: Manifest, channel: string, prior: Option<ReleaseId>, degraded: Option<string>, promotedAt: int)
    ensures var p := ChannelPointer(m, channel, prior, degraded, promotedAt);
      p.Some? ==>
      && p.value.channel == channel && p.value.releaseId == p.value.manifestOf == m.releaseId
      && p.value.rootDigest == m.rootDigest && p.value.snapshotAt == m.body.snapshotAt
      && p.value.prior == prior != Some(m.releaseId) && p.value.degraded == degraded
      && p.value.promotedAt == promotedAt && m.body.snapshotAt.Canonical?
      && var age := promotedAt - m.body.snapshotAt.micros;
      && (age < 0 ==> p.value.ageSeconds == 0)
      && (age >= 0 ==> p.value.ageSeconds * 1_000_000 <= age < (p.value.ageSeconds + 1) * 1_000_000)
  {
    hide ChannelOk, ReasonOk, WholeSeconds;
    if m.body.snapshotAt.Canonical? { WholeSecondsMean(promotedAt - m.body.snapshotAt.micros); }
  }

  // ---- The site ----

  type Releases = map<ReleaseId, Dir>
  type Pointers = map<string, PointerFile>

  /** `validate_release` for a directory of the site, or for the stage when `home` is nothing. */
  ghost predicate ReleaseOk<P(!new)>(host: Host<P>, graph: Dir -> bool, dir: Dir, home: Option<ReleaseId>,
      maxAge: Option<int>, now: int)
  {
    && Read(host, dir).Whole? && graph(dir)
    && Accepts(host, dir, Read(host, dir).manifest, home,
      Policy(maxAge, MAX_RELEASE_FILES, MAX_RELEASE_FILE_BYTES), now)
  }

  /** The production channel never allows snapshots older than 48 hours. */
  function EffectiveAge(channel: string, maxAge: Option<int>): Option<int> {
    if channel == PRODUCTION && (maxAge.None? || maxAge.value > PRODUCTION_MAX_SNAPSHOT_AGE)
    then Some(PRODUCTION_MAX_SNAPSHOT_AGE)
    else maxAge
  }

  predicate PointerOk(p: Pointer, channel: string) {
    && p.channel == channel && p.manifestOf == p.releaseId && p.prior != Some(p.releaseId) && ReasonOk(p.degraded)
    && p.ageSeconds >= 0
    && (p.snapshotAt.Canonical? ==> p.ageSeconds == WholeSeconds(p.promotedAt - p.snapshotAt.micros))
  }

  /** `validate_publication`, with the graph of rights required. */
  ghost predicate ChannelValid<P(!new)>(host: Host<P>, graph: Dir -> bool, releases: Releases, pointers: Pointers,
      channel: string, maxAge: Option<int>, now: int)
  {
    && ChannelOk(channel) && channel in pointers && pointers[channel].Written?
    && var p := pointers[channel].pointer;
    && PointerOk(p, channel)
    && p.releaseId in releases
    && ReleaseOk(host, graph, releases[p.releaseId], Some(p.releaseId),
      if p.degraded.Some? then None else EffectiveAge(channel, maxAge), now)
    && (p.prior.Some?
      ==> p.prior.value in releases && ReleaseOk(host, graph, releases[p.prior.value], p.prior, None, now))
    && var m := Read(host, releases[p.releaseId]).manifest;
    && p.rootDigest == m.rootDigest && p.snapshotAt == m.body.snapshotAt
  }

  /** Without an age limit, the clock does not matter. */
  lemma ReleaseOkAnyTime<P(!new)>(host: Host<P>, graph: Dir -> bool, dir: Dir, home: Option<ReleaseId>,
      maxAge: Option<int>, now: int, later: int)
    requires ReleaseOk(host, graph, dir, home, maxAge, now)
    ensures ReleaseOk(host, graph, dir, home, None, later)
  {
    hide ShapeOk, Closed;
  }

  /** A validated stage is valid under its own name. */
  lemma StageOkAtHome<P(!new)>(host: Host<P>, graph: Dir -> bool, dir: Dir, maxAge: Option<int>, now: int)
    requires ReleaseOk(host, graph, dir, None, maxAge, now)
    ensures ReleaseOk(host, graph, dir, Some(Read(host, dir).manifest.releaseId), maxAge, now)
  {
    hide ShapeOk, Closed, Sized;
  }

  lemma OkManifest<P(!new)>(host: Host<P>, graph: Dir -> bool, dir: Dir, home: Option<ReleaseId>, maxAge: Option<int>,
      now: int)
    requires ReleaseOk(host, graph, dir, home, maxAge, now)
    ensures Read(host, dir).Whole?
    ensures var m := Read(host, dir).manifest;
      m.body.snapshotAt.Canonical? && (home.Some? ==> m.releaseId == home.value)
  {
    hide ShapeOk, Closed, Sized;
  }

  /** Two valid directories with one release id are the same directory. */
  lemma SameNameSameDir<P(!new)>(host: Host<P>, graph: Dir -> bool, a: Dir, b: Dir, homeA: Option<ReleaseId>,
      homeB: Option<ReleaseId>, ageA: Option<int>, ageB: Option<int>, now: int)
    requires ReleaseOk(host, graph, a, homeA, ageA, now) && ReleaseOk(host, graph, b, homeB, ageB, now)
    requires Read(host, a).manifest.releaseId == Read(host, b).manifest.releaseId
    ensures a == b
  {
    hide Accepts;
    ReleaseIdDeterminesContent(host, a, b, Read(host, a).manifest, Read(host, b).manifest, homeA, homeB,
      Policy(ageA, MAX_RELEASE_FILES, MAX_RELEASE_FILE_BYTES), Policy(ageB, MAX_RELEASE_FILES, MAX_RELEASE_FILE_BYTES),
        now, now);
  }

  // ---- One call ----

  datatype Swap = Swapped | RaisesBefore | RaisesAfter

  /** What a call is asked, and what the outside does to it: each flag is a step that raises. */
  datatype Call = Call(channel: string, maxAge: int, now: int, reason: Option<string>,
    staged: Option<Dir>, renameRaises: bool, swap: Swap, checkRaises: bool, restoreRaises: bool, exitRaises: bool)

  predicate ArgumentsOk(c: Call) {
    && c.maxAge > 0 && (c.channel == PRODUCTION ==> c.maxAge <= PRODUCTION_MAX_SNAPSHOT_AGE)
    && c.reason != Some("")
  }

  function ReleaseAge(c: Call): Option<int> { if c.reason.Some? then None else Some(c.maxAge) }

  /** The pointer before the call is absent, or valid as of its own promotion. */
  ghost predicate ExistingOk<P(!new)>(host: Host<P>, graph: Dir -> bool, releases: Releases, pointers: Pointers,
      channel: string)
  {
    channel in pointers ==>
      && pointers[channel].Written?
      && ChannelValid(host, graph, releases, pointers, channel, None, pointers[channel].pointer.promotedAt)
  }

  /** The directory that already has the name of the stage, if any, is valid too. */
  ghost predicate StageOk<P(!new)>(host: Host<P>, graph: Dir -> bool, releases: Releases, c: Call) {
    && c.staged.Some? && ReleaseOk(host, graph, c.staged.value, None, ReleaseAge(c), c.now)
    && var id := Read(host, c.staged.value).manifest.releaseId;
    && (id in releases ==> ReleaseOk(host, graph, releases[id], Some(id), ReleaseAge(c), c.now))
  }

  function PriorOf(pointers: Pointers, channel: string, id: ReleaseId): Option<ReleaseId> {
    if channel in pointers && pointers[channel].Written? then
      var p := pointers[channel].pointer;
      if p.releaseId == id then p.prior else Some(p.releaseId)
    else None
  }

  /** After the swap the channel validates exactly when the snapshot does not lie in the future by a
      second or more: everything else was established before. */
  lemma SwappedIsValid<P(!new)>(host: Host<P>, graph: Dir -> bool, releases: Releases, pointers: Pointers, c: Call,
      p: Pointer)
    requires ArgumentsOk(c) && ExistingOk(host, graph, releases, pointers, c.channel)
      && StageOk(host, graph, releases, c)
    requires var m := Read(host, c.staged.value).manifest;
      Some(p) == ChannelPointer(m, c.channel, PriorOf(pointers, c.channel, m.releaseId), c.reason, c.now)
    ensures var m := Read(host, c.staged.value).manifest;
      ChannelValid(host, graph, Named(releases, m.releaseId, c.staged.value), pointers[c.channel := Written(p)],
        c.channel, ReleaseAge(c), c.now)
      <==> WholeSeconds(c.now - m.body.snapshotAt.micros) >= 0
  {
    hide ReleaseOk, ChannelOk, ReasonOk, WholeSeconds;
    var dir := c.staged.value;
    OkManifest(host, graph, dir, None, ReleaseAge(c), c.now);
    var m := Read(host, dir).manifest;
    var id := m.releaseId;
    var after := Named(releases, id, dir);
    StageOkAtHome(host, graph, dir, ReleaseAge(c), c.now);
    if id in releases {
      OkManifest(host, graph, releases[id], Some(id), ReleaseAge(c), c.now);
      SameNameSameDir(host, graph, dir, releases[id], None, Some(id), ReleaseAge(c), ReleaseAge(c), c.now);
    }
    assert after[id] == dir;
    assert ReleaseOk(host, graph, after[id], Some(id),
      if p.degraded.Some? then None else EffectiveAge(c.channel, ReleaseAge(c)), c.now);
    if p.prior.Some? { PriorIsValid(host, graph, releases, pointers, c, id); }
  }

  /** The directory takes its name unless it is taken. */
  function Named(releases: Releases, id: ReleaseId, dir: Dir): Releases {
    if id in releases then releases else releases[id := dir]
  }

  lemma PriorIsValid<P(!new)>(host: Host<P>, graph: Dir -> bool, releases: Releases, pointers: Pointers, c: Call,
      id: ReleaseId)
    requires ExistingOk(host, graph, releases, pointers, c.channel)
    requires PriorOf(pointers, c.channel, id).Some?
    ensures var prior := PriorOf(pointers, c.channel, id).value;
      prior != id && prior in releases && ReleaseOk(host, graph, releases[prior], Some(prior), None, c.now)
  {
    hide ReleaseOk, ChannelOk, ReasonOk, WholeSeconds;
    var was := pointers[c.channel].pointer;
    var prior := PriorOf(pointers, c.channel, id).value;
    if was.releaseId == id {
      ReleaseOkAnyTime(host, graph, releases[prior], Some(prior), None, was.promotedAt, c.now);
    } else {
      ReleaseOkAnyTime(host, graph, releases[prior], Some(prior),
        if was.degraded.Some? then None else EffectiveAge(c.channel, None), was.promotedAt, c.now);
    }
  }

  /** The state a call leaves: the named releases, the pointers, and whether it raised. */
  datatype After = After(releases: Releases, pointers: Pointers, raised: bool)

  ghost predicate Ready<P(!new)>(host: Host<P>, graph: Dir -> bool, releases: Releases, pointers: Pointers, c: Call) {
    && ArgumentsOk(c) && ExistingOk(host, graph, releases, pointers, c.channel) && StageOk(host, graph, releases, c)
    && (c.renameRaises ==> Read(host, c.staged.value).manifest.releaseId in releases)
  }

  /** The pointer a ready call would write. */
  ghost function NewPointer<P(!new)>(host: Host<P>, pointers: Pointers, c: Call): Option<Pointer>
    requires c.staged.Some? && Read(host, c.staged.value).Whole?
  {
    var m := Read(host, c.staged.value).manifest;
    ChannelPointer(m, c.channel, PriorOf(pointers, c.channel, m.releaseId), c.reason, c.now)
  }

  ghost predicate Replaces<P(!new)>(host: Host<P>, pointers: Pointers, c: Call)
    requires c.staged.Some? && Read(host, c.staged.value).Whole?
  {
    NewPointer(host, pointers, c).Some? && !c.swap.RaisesBefore?
  }

  /** The second validation passes, and nothing raises around it. */
  ghost predicate Stands<P(!new)>(host: Host<P>, pointers: Pointers, c: Call)
    requires c.staged.Some? && Read(host, c.staged.value).Whole?
  {
    && Replaces(host, pointers, c) && c.swap.Swapped? && !c.checkRaises
    && WholeSeconds(c.now - NewPointer(host, pointers, c).value.snapshotAt.micros) >= 0
  }

  lemma ReadyReads<P(!new)>(host: Host<P>, graph: Dir -> bool, releases: Releases, pointers: Pointers, c: Call)
    requires Ready(host, graph, releases, pointers, c)
    ensures c.staged.Some? && Read(host, c.staged.value).Whole?
    ensures NewPointer(host, pointers, c).Some? ==>
      var p := NewPointer(host, pointers, c).value;
      && p.snapshotAt.Canonical? && p.snapshotAt == Read(host, c.staged.value).manifest.body.snapshotAt
      && p.releaseId == Read(host, c.staged.value).manifest.releaseId
      && p.prior == PriorOf(pointers, c.channel, p.releaseId)
  {
    hide Accepts, ExistingOk, ChannelOk, ReasonOk;
  }

  /** What a call does to the site. */
  ghost function Publish<P(!new)>(host: Host<P>, graph: Dir -> bool, releases: Releases, pointers: Pointers,
      c: Call): After
  {
    if !Ready(host, graph, releases, pointers, c) then After(releases, pointers, true)
    else
      ReadyReads(host, graph, releases, pointers, c);
      var named := Named(releases, Read(host, c.staged.value).manifest.releaseId, c.staged.value);
      if !Replaces(host, pointers, c) then After(named, pointers, true)
      else if Stands(host, pointers, c) || c.restoreRaises then
        After(named, pointers[c.channel := Written(NewPointer(host, pointers, c).value)],
          !Stands(host, pointers, c) || c.exitRaises)
      else After(named, pointers, true)
  }

  class Site<P(!new)> {
    const host: Host<P>
    /** The rights graph of a release directory. */
    const graph: Dir -> bool
    var releases: Releases
    var pointers: Pointers

    constructor (host: Host<P>, graph: Dir -> bool)
      ensures this.host == host && this.graph == graph && releases == map[] && pointers == map[]
    {
      this.host, this.graph, releases, pointers := host, graph, map[], map[];
    }

    method Validates(dir: Dir, home: Option<ReleaseId>, maxAge: Option<int>, now: int) returns (ok: bool)
      ensures ok <==> ReleaseOk(host, graph, dir, home, maxAge, now)
    {
      hide Accepts;
      var policy := Policy(maxAge, MAX_RELEASE_FILES, MAX_RELEASE_FILE_BYTES);
      var errors := ValidateRelease(host, graph, true, dir, home, policy, now);
      ok := errors == [];
    }

    /** `validate_publication`. */
    method ValidatePublication(channel: string, maxAge: Option<int>, now: int) returns (ok: bool)
      ensures ok <==> ChannelValid(host, graph, releases, pointers, channel, maxAge, now)
      ensures ok && channel == "production" && pointers[channel].pointer.degraded.None? ==>
        var m := Read(host, releases[pointers[channel].pointer.releaseId]).manifest;
        m.body.snapshotAt.Canonical? && now - m.body.snapshotAt.micros <= 172_800_000_000
    {
      hide ReleaseOk, ChannelOk, PointerOk;
      if !ChannelOk(channel) || channel !in pointers || pointers[channel].Raw? { return false; }
      var p := pointers[channel].pointer;
      if !PointerOk(p, channel) || p.releaseId !in releases { return false; }
      ok := Validates(releases[p.releaseId], Some(p.releaseId),
        if p.degraded.Some? then None else EffectiveAge(channel, maxAge), now);
      if !ok { return; }
      if p.prior.Some? {
        if p.prior.value !in releases { return false; }
        ok := Validates(releases[p.prior.value], p.prior, None, now);
        if !ok { return; }
      }
      ReadsWhole(host, graph, releases[p.releaseId], Some(p.releaseId),
        if p.degraded.Some? then None else EffectiveAge(channel, maxAge), now);
      ReleaseIsYoung(host, graph, releases[p.releaseId], Some(p.releaseId),
        if p.degraded.Some? then None else EffectiveAge(channel, maxAge), now);
      var m := Read(host, releases[p.releaseId]).manifest;
      ok := p.rootDigest == m.rootDigest && p.snapshotAt == m.body.snapshotAt;
    }

    /** `_restore_channel_pointer`. */
    method Restore(channel: string, content: Option<PointerFile>)
      modifies this`pointers
      ensures pointers == if content.None? then old(pointers) - {channel} else old(pointers)[channel := content.value]
    {
      if content.None? {
        pointers := pointers - {channel};
      } else {
        pointers := pointers[channel := content.value];
      }
    }

    /** `build_search_release`. */
    method BuildSearchRelease(c: Call) returns (raised: bool)
      modifies this
      ensures After(releases, pointers, raised) == Publish(host, graph, old(releases), old(pointers), c)
      ensures !raised && c.reason.None? ==>
        && c.staged.Some? && Read(host, c.staged.value).Whole?
        && var snapshotAt := Read(host, c.staged.value).manifest.body.snapshotAt;
        && snapshotAt.Canonical? && c.now - snapshotAt.micros <= c.maxAge
        && (c.channel == "production" ==> c.now - snapshotAt.micros <= 172_800_000_000)
    {
      hide ReleaseOk, ChannelValid, ChannelPointer, WholeSeconds;
      if !ArgumentsOk(c) { return true; }
      var existing := if c.channel in pointers then Some(pointers[c.channel]) else None;
      if existing.Some? {
        if existing.value.Raw? { return true; }
        var valid := ValidatePublication(c.channel, None, existing.value.pointer.promotedAt);
        if !valid { return true; }
      }
      if c.staged.None? { return true; }
      var stage := c.staged.value;
      var ok := Validates(stage, None, ReleaseAge(c), c.now);
      if !ok { return true; }
      OkManifest(host, graph, stage, None, ReleaseAge(c), c.now);
      ReleaseIsYoung(host, graph, stage, None, ReleaseAge(c), c.now);
      var m := Read(host, stage).manifest;
      var id := m.releaseId;
      if id in releases {
        ok := Validates(releases[id], Some(id), ReleaseAge(c), c.now);
        if !ok { return true; }
        OkManifest(host, graph, releases[id], Some(id), ReleaseAge(c), c.now);
        SameNameSameDir(host, graph, stage, releases[id], None, Some(id), ReleaseAge(c), ReleaseAge(c), c.now);
        assert releases[id] == stage;
      } else {
        if c.renameRaises { return true; }
        releases := releases[id := stage];
      }
      assert Ready(host, graph, old(releases), old(pointers), c);
      ReadyReads(host, graph, old(releases), old(pointers), c);
      raised := SwapPointer(c, m, existing, old(releases));
    }

    /** The swap and the second validation, inside the `try`. */
    method SwapAndCheck(c: Call, m: Manifest, ghost before: Releases) returns (accepted: bool)
      requires Ready(host, graph, before, pointers, c)
      requires c.staged.Some? && Read(host, c.staged.value) == Whole(m)
      requires releases == Named(before, m.releaseId, c.staged.value)
      modifies this`pointers
      ensures accepted <==> Stands(host, old(pointers), c)
      ensures Replaces(host, old(pointers), c) ==>
        pointers == old(pointers)[c.channel := Written(NewPointer(host, old(pointers), c).value)]
      ensures !Replaces(host, old(pointers), c) ==> pointers == old(pointers)
    {
      hide ReleaseOk, ChannelValid, ChannelPointer, WholeSeconds, ExistingOk, StageOk, PriorOf, Named;
      var prior := PriorOf(pointers, c.channel, m.releaseId);
      var pointer := ChannelPointer(m, c.channel, prior, c.reason, c.now);
      ReadyReads(host, graph, before, pointers, c);
      if pointer.None? || c.swap.RaisesBefore? { return false; }
      SwappedIsValid(host, graph, before, pointers, c, pointer.value);
      pointers := pointers[c.channel := Written(pointer.value)];
      if c.swap.RaisesAfter? || c.checkRaises { return false; }
      accepted := ValidatePublication(c.channel, ReleaseAge(c), c.now);
    }

    /** The `try` around the swap, and the exit from the `with` blocks. */
    method SwapPointer(c: Call, m: Manifest, existing: Option<PointerFile>, ghost before: Releases)
      returns (raised: bool)
      requires Ready(host, graph, before, pointers, c)
      requires c.staged.Some? && Read(host, c.staged.value) == Whole(m)
      requires releases == Named(before, m.releaseId, c.staged.value)
      requires existing == if c.channel in pointers then Some(pointers[c.channel]) else None
      modifies this`pointers
      ensures After(releases, pointers, raised) == Publish(host, graph, before, old(pointers), c)
    {
      hide Ready, NewPointer, Named;
      var accepted := SwapAndCheck(c, m, before);
      if !accepted && !c.restoreRaises {
        Restore(c.channel, existing);
      }
      raised := !accepted || c.exitRaises;
    }
  }

  lemma ReleaseIsYoung<P(!new)>(host: Host<P>, graph: Dir -> bool, dir: Dir, home: Option<ReleaseId>,
      maxAge: Option<int>, now: int)
    requires ReleaseOk(host, graph, dir, home, maxAge, now)
    ensures Read(host, dir).Whole?
    ensures var snapshotAt := Read(host, dir).manifest.body.snapshotAt;
      snapshotAt.Canonical? && (maxAge.Some? ==> now - snapshotAt.micros <= maxAge.value)
  {
    hide ShapeOk, Closed, Sized, SelfNamed;
  }

  lemma ReadsWhole<P(!new)>(host: Host<P>, graph: Dir -> bool, dir: Dir, home: Option<ReleaseId>, maxAge: Option<int>,
      now: int)
    requires ReleaseOk(host, graph, dir, home, maxAge, now)
    ensures Read(host, dir).Whole?
  {
  }
}
