/** What a valid channel is, and what a call that returns has done, in plain terms
    (scripts/docs_search_release.py, `validate_publication`; scripts/generate_docs_search_index.py,
    `build_search_release`). */
module PublicationMeaning {
  import opened Publication
  import opened ReleaseBuild
  import opened ReleaseManifest
  import opened ReleaseMeaning
  import opened Wrappers

  /** `age` in whole seconds, truncated toward zero. */
  predicate WholePart(seconds: int, micros: int) {
    if micros >= 0 then seconds * 1_000_000 <= micros < (seconds + 1) * 1_000_000
    else (seconds - 1) * 1_000_000 < micros <= seconds * 1_000_000
  }

  lemma WholePartMeans(seconds: int, micros: int)
    ensures seconds == WholeSeconds(micros) <==> WholePart(seconds, micros)
  {
    WholeSecondsMean(micros);
  }

  /** Lower-case letters, digits and inner hyphens, at most 63 of them. */
  ghost predicate ChannelName(channel: string) {
    && 1 <= |channel| <= 63 && channel[0] != '-' && channel[|channel| - 1] != '-'
    && forall c | c in channel :: c == '-' || 'a' <= c <= 'z' || '0' <= c <= '9'
  }

  lemma ChannelNameMeans(channel: string)
    ensures ChannelOk(channel) <==> ChannelName(channel)
  {
    if ChannelName(channel) {
      forall i | 0 <= i < |channel| ensures ChannelChar(channel[i]) || channel[i] == '-' {
        assert channel[i] in channel;
      }
    }
  }

  /** The pointer speaks of this channel and of one release, which is not its own prior, gives no empty or
      overlong reason, and tells the age of the snapshot at the time of promotion. */
  predicate PointerTrue(p: Pointer, channel: string) {
    && p.channel == channel && p.releaseId == p.manifestOf && (p.prior.Some? ==> p.prior.value != p.releaseId)
    && (p.degraded.Some? ==> 1 <= |p.degraded.value| <= 500)
    && p.ageSeconds >= 0
    && (p.snapshotAt.Canonical? ==> WholePart(p.ageSeconds, p.promotedAt - p.snapshotAt.micros))
  }

  lemma PointerTrueMeans(p: Pointer, channel: string)
    ensures PointerOk(p, channel) <==> PointerTrue(p, channel)
  {
    hide WholeSeconds, WholePart;
    if p.snapshotAt.Canonical? { WholePartMeans(p.ageSeconds, p.promotedAt - p.snapshotAt.micros); }
  }

  /** `m` is the manifest of a valid release in this directory, of at most 18000 files under 24 mebibytes,
      with its rights graph; its snapshot is at most `limit` old, when there is a limit. */
  ghost predicate ValidRelease<P(!new)>(host: Host<P>, graph: Dir -> bool, dir: Dir, m: Manifest,
      home: Option<ReleaseId>, limit: Option<int>, now: int)
  {
    && graph(dir) && "manifest.json" in dir
    && host.decode(dir["manifest.json"]) == Whole(m) && dir["manifest.json"] == host.encode(m)
    && WellFormed(m) && Complete(host, dir, m)
    && |dir| <= 18_000 && (forall p | p in dir :: |dir[p]| < 25_165_824)
    && m.releaseId.body == m.body && m.rootDigest.value.body == m.body
    && (home.Some? ==> m.releaseId == home.value)
    && m.body.snapshotAt.Canonical? && (limit.Some? ==> now - m.body.snapshotAt.micros <= limit.value)
  }

  lemma ValidReleaseMeans<P(!new)>(host: Host<P>, graph: Dir -> bool, dir: Dir, home: Option<ReleaseId>,
      limit: Option<int>, now: int)
    ensures ReleaseOk(host, graph, dir, home, limit, now)
      <==> exists m :: ValidRelease(host, graph, dir, m, home, limit, now)
    ensures forall m | ValidRelease(host, graph, dir, m, home, limit, now) :: Read(host, dir) == Whole(m)
    ensures ReleaseOk(host, graph, dir, home, limit, now) ==>
      ValidRelease(host, graph, dir, Read(host, dir).manifest, home, limit, now)
  {
    hide Accepts, WellFormed, Complete;
    var policy := Policy(limit, MAX_RELEASE_FILES, MAX_RELEASE_FILE_BYTES);
    forall m ensures Accepts(host, dir, m, home, policy, now) && graph(dir)
      <==> ValidRelease(host, graph, dir, m, home, limit, now)
    {
      AcceptsMeans(host, dir, m, home, policy, now);
    }
  }

  /** The age allowed: none for a degraded release, at most 48 hours on production. */
  function Limit(channel: string, degraded: bool, maxAge: Option<int>): Option<int> {
    if degraded then None
    else if channel != "production" then maxAge
    else if maxAge.Some? && maxAge.value <= 172_800_000_000 then maxAge
    else Some(172_800_000_000)
  }

  /** A channel is valid exactly when it has a true pointer to a valid release, whose root and snapshot it
      repeats, and to a valid prior release, if it names one. */
  lemma ChannelMeans<P(!new)>(host: Host<P>, graph: Dir -> bool, releases: Releases, pointers: Pointers,
      channel: string, maxAge: Option<int>, now: int)
    ensures ChannelValid(host, graph, releases, pointers, channel, maxAge, now) <==>
      && ChannelName(channel) && channel in pointers && pointers[channel].Written?
      && var p := pointers[channel].pointer;
      && PointerTrue(p, channel) && p.releaseId in releases
      && (exists m ::
        && ValidRelease(host, graph, releases[p.releaseId], m, Some(p.releaseId),
          Limit(channel, p.degraded.Some?, maxAge), now)
        && p.rootDigest == m.rootDigest && p.snapshotAt == m.body.snapshotAt)
      && (p.prior.Some? ==>
        && p.prior.value in releases
        && exists m :: ValidRelease(host, graph, releases[p.prior.value], m, Some(p.prior.value), None, now))
  {
    hide ReleaseOk, ValidRelease, ChannelOk, ChannelName, PointerOk, PointerTrue;
    ChannelNameMeans(channel);
    if channel in pointers && pointers[channel].Written? {
      var p := pointers[channel].pointer;
      PointerTrueMeans(p, channel);
      if p.releaseId in releases {
        LimitMeans(channel, p.degraded.Some?, maxAge);
        ValidReleaseMeans(host, graph, releases[p.releaseId], Some(p.releaseId),
          Limit(channel, p.degraded.Some?, maxAge), now);
      }
      if p.prior.Some? && p.prior.value in releases {
        ValidReleaseMeans(host, graph, releases[p.prior.value], p.prior, None, now);
      }
    }
  }

  lemma LimitMeans(channel: string, degraded: bool, maxAge: Option<int>)
    ensures Limit(channel, degraded, maxAge) == if degraded then None else EffectiveAge(channel, maxAge)
  {
  }

  /** The release that the channel named, or before it, if that was this one already. */
  function Former(pointers: Pointers, channel: string, id: ReleaseId): Option<ReleaseId> {
    if channel !in pointers || pointers[channel].Raw? then None
    else if pointers[channel].pointer.releaseId != id then Some(pointers[channel].pointer.releaseId)
    else pointers[channel].pointer.prior
  }

  /** A call that returns was given sound arguments and a valid stage, found its channel valid or absent,
      has named the stage by the id of its manifest and pointed the channel, and nothing else, at it; the
      snapshot is neither too old nor in the future by a second. */
  lemma ReturnMeans<P(!new)>(host: Host<P>, graph: Dir -> bool, releases: Releases, pointers: Pointers, c: Call)
    requires !Publish(host, graph, releases, pointers, c).raised
    ensures c.maxAge > 0 && c.reason != Some("") && (c.channel == "production" ==> c.maxAge <= 172_800_000_000)
    ensures c.channel in pointers ==>
      && pointers[c.channel].Written?
      && ChannelValid(host, graph, releases, pointers, c.channel, None, pointers[c.channel].pointer.promotedAt)
    ensures c.staged.Some? && Read(host, c.staged.value).Whole?
    ensures var m, after := Read(host, c.staged.value).manifest, Publish(host, graph, releases, pointers, c);
      && ValidRelease(host, graph, c.staged.value, m, None, if c.reason.Some? then None else Some(c.maxAge), c.now)
      && after.releases == releases[m.releaseId := c.staged.value]
      && after.pointers.Keys == pointers.Keys + {c.channel}
      && (forall other | other in pointers && other != c.channel :: after.pointers[other] == pointers[other])
      && after.pointers[c.channel].Written?
      && var p := after.pointers[c.channel].pointer;
      && PointerTrue(p, c.channel) && p.releaseId == m.releaseId && p.rootDigest == m.rootDigest
      && p.snapshotAt == m.body.snapshotAt && p.prior == Former(pointers, c.channel, m.releaseId)
      && p.degraded == c.reason && p.promotedAt == c.now
      && c.now - m.body.snapshotAt.micros > -1_000_000
  {
    hide ReleaseOk, ValidRelease, ChannelOk, ChannelValid, PointerTrue, WholeSeconds, ReasonOk;
    ReadyReads(host, graph, releases, pointers, c);
    var dir := c.staged.value;
    var m := Read(host, dir).manifest;
    ValidReleaseMeans(host, graph, dir, None, ReleaseAge(c), c.now);
    OkManifest(host, graph, dir, None, ReleaseAge(c), c.now);
    WholeSecondsMean(c.now - m.body.snapshotAt.micros);
    if m.releaseId in releases {
      OkManifest(host, graph, releases[m.releaseId], Some(m.releaseId), ReleaseAge(c), c.now);
      SameNameSameDir(host, graph, dir, releases[m.releaseId], None, Some(m.releaseId), ReleaseAge(c), ReleaseAge(c),
        c.now);
    }
    NewPointerIsTrue(host, pointers, c);
  }

  lemma NewPointerIsTrue<P(!new)>(host: Host<P>, pointers: Pointers, c: Call)
    requires c.staged.Some? && Read(host, c.staged.value).Whole? && NewPointer(host, pointers, c).Some?
    requires var m := Read(host, c.staged.value).manifest;
      m.body.snapshotAt.Canonical? && WholeSeconds(c.now - m.body.snapshotAt.micros) >= 0
    ensures var p, m := NewPointer(host, pointers, c).value, Read(host, c.staged.value).manifest;
      && PointerTrue(p, c.channel) && p.releaseId == m.releaseId && p.rootDigest == m.rootDigest
      && p.snapshotAt == m.body.snapshotAt && p.prior == Former(pointers, c.channel, m.releaseId)
      && p.degraded == c.reason && p.promotedAt == c.now
  {
    hide WholeSeconds, ChannelOk;
    var m := Read(host, c.staged.value).manifest;
    WholeSecondsMean(c.now - m.body.snapshotAt.micros);
  }

  // ---- Exactly when a call returns ----

  /** The arguments are in range, the channel has no pointer or one that was valid when it was promoted. */
  ghost predicate Welcome<P(!new)>(host: Host<P>, graph: Dir -> bool, releases: Releases, pointers: Pointers, c: Call) {
    && c.maxAge > 0 && (c.channel == "production" ==> c.maxAge <= 172_800_000_000) && c.reason != Some("")
    && (c.channel in pointers ==>
      && pointers[c.channel].Written?
      && ChannelValid(host, graph, releases, pointers, c.channel, None, pointers[c.channel].pointer.promotedAt))
  }

  /** `m` is the manifest of a valid stage, whose name is free or stands for a valid release. */
  ghost predicate Staged<P(!new)>(host: Host<P>, graph: Dir -> bool, releases: Releases, c: Call, m: Manifest) {
    && c.staged.Some?
    && var age := if c.reason.Some? then None else Some(c.maxAge);
    && ValidRelease(host, graph, c.staged.value, m, None, age, c.now)
    && if m.releaseId in releases
       then exists n :: ValidRelease(host, graph, releases[m.releaseId], n, Some(m.releaseId), age, c.now)
       else !c.renameRaises
  }

  lemma ReadyMeans<P(!new)>(host: Host<P>, graph: Dir -> bool, releases: Releases, pointers: Pointers, c: Call)
    ensures Ready(host, graph, releases, pointers, c)
      <==> Welcome(host, graph, releases, pointers, c) && exists m :: Staged(host, graph, releases, c, m)
    ensures Ready(host, graph, releases, pointers, c) ==>
      && c.staged.Some? && Read(host, c.staged.value).Whole?
      && Read(host, c.staged.value).manifest.body.snapshotAt.Canonical?
    ensures forall m | Staged(host, graph, releases, c, m) :: Read(host, c.staged.value) == Whole(m)
  {
    hide ReleaseOk, ValidRelease, ChannelValid, WholeSeconds;
    if c.staged.Some? {
      ValidReleaseMeans(host, graph, c.staged.value, None, ReleaseAge(c), c.now);
      if Read(host, c.staged.value).Whole? {
        var m := Read(host, c.staged.value).manifest;
        if m.releaseId in releases {
          ValidReleaseMeans(host, graph, releases[m.releaseId], Some(m.releaseId), ReleaseAge(c), c.now);
        }
        if Ready(host, graph, releases, pointers, c) {
          OkManifest(host, graph, c.staged.value, None, ReleaseAge(c), c.now);
          assert Staged(host, graph, releases, c, m);
        }
      }
    }
  }

  /** A ready call can write its pointer exactly on a channel with a proper name, for a short reason. */
  lemma PointerCanBeMade<P(!new)>(host: Host<P>, graph: Dir -> bool, releases: Releases, pointers: Pointers, c: Call)
    requires Ready(host, graph, releases, pointers, c)
    requires c.staged.Some? && Read(host, c.staged.value).Whole?
      && Read(host, c.staged.value).manifest.body.snapshotAt.Canonical?
    ensures NewPointer(host, pointers, c).Some?
      <==> ChannelName(c.channel) && (c.reason.Some? ==> 1 <= |c.reason.value| <= 500)
  {
    hide ReleaseOk, ChannelOk, ChannelName, WholeSeconds, StageOk;
    ChannelNameMeans(c.channel);
  }

  /** A call returns exactly when its arguments, its channel and its stage are in order and nothing raises,
      for a snapshot that lies less than a second in the future. */
  lemma ReturnsExactlyWhen<P(!new)>(host: Host<P>, graph: Dir -> bool, releases: Releases, pointers: Pointers, c: Call)
    ensures !Publish(host, graph, releases, pointers, c).raised <==>
      && Welcome(host, graph, releases, pointers, c)
      && ChannelName(c.channel) && (c.reason.Some? ==> |c.reason.value| <= 500)
      && (exists m ::
        && Staged(host, graph, releases, c, m) && m.body.snapshotAt.Canonical?
        && c.now - m.body.snapshotAt.micros > -1_000_000)
      && c.swap.Swapped? && !c.checkRaises && !c.exitRaises
  {
    hide Ready, ChannelName, Staged, WholeSeconds, NewPointer, ChannelValid;
    ReadyMeans(host, graph, releases, pointers, c);
    if Ready(host, graph, releases, pointers, c) {
      PointerCanBeMade(host, graph, releases, pointers, c);
      ReadyReads(host, graph, releases, pointers, c);
      WholeSecondsMean(c.now - Read(host, c.staged.value).manifest.body.snapshotAt.micros);
    }
  }
}
