# OpenOpps publication model

OpenOpps publishes job data as content-addressed releases, packs them into recovery archives, records
Kaggle publications in a ledger, and keeps an HTTP cache whose purged bytes must not stay on disk. This
project models the code behind those promises and proves what they rest on: what every step of the
protocols keeps, what one operation undoes of another, and exactly when a check accepts.

Verify it with `dafny verify dfyconfig.toml`.

## How the model is cut

| part of the system | modules |
|---|---|
| shared vocabulary | `Wrappers`, `Hashing`, `Orders`, `Text`, `Numerals` |
| HTTP cache and its scrub generations | `ScrubProtocol`, `RequestKey`, `RequestAgreement`, `HttpCache`, `ScrubRefinement` |
| release manifests and publication | `ReleaseManifest`, `ReleaseMeaning`, `ReleaseBuild`, `Publication`, `PublicationMeaning`, `PublicationRuns` |
| delivery: tree digest, recovery archive, rollout | `TreeDigest`, `DigestMeaning`, `PathOrders`, `RecoveryArchive`, `RecoveryRestore`, `RecoveryMeaning`, `RecoveryBuild`, `RecoveryRoundTrip`, `RecoverySample`, `Rollout` |
| release artifacts: archive names, SBOM scan trees | `ArchiveNames`, `ArchiveMeaning`, `ScanTree` |
| search index: shards, chunks, lineage | `DetailShards`, `JobChunks`, `LineageTables`, `LineageConservation` |
| Kaggle ledger | `Ledger`, `LedgerMeaning`, `LedgerSize`, `KagglePublication` |
| strict JSON and JSON Pointer | `JsonLimits`, `JsonPrinter`, `JsonNormal`, `JsonSorted`, `JsonParser`, `JsonStrict`, `JsonRoundTrip`, `JsonCanonical`, `JsonSample`, `JsonPointer` |

Code that updates objects, files or dictionaries step by step is modelled by classes and loops, each
proved against a function of its input or of the old state; what the system promises is then proved
about that function. Code that only computes values is modelled by functions.

What a check accepts is stated twice: once the way the code computes it, and once in plain terms, with
the constants written out and no use of the functions of the first statement. A theorem connects the two
(`RequestAgreement.KeysAgree`, `RecoveryArchive.StreamMeans`, and the modules whose name ends in `Meaning`).

### Assumptions

- SHA-256 is injective: a digest is a value that holds what was hashed.
- One rename, one SQLite commit and one `os.replace` are atomic. Everything between two of them may be
  interrupted.
- Archives are sequences of named byte strings, and a directory is a map from paths to bytes.
- The collision key of archive names (NFC, then case folding) acts component by component.
- JSON codecs of manifests, case folding outside ASCII, UTF-8, and what is read off a payload file are
  functions of the host. Where a proof needs something of them, the lemma says so in its `requires`:
  `Codec`, `RoundTrips`, `Ordinary`, `Sha256Host`.
- Times are integers, in microseconds where the code truncates to seconds. The clock is a parameter.
- Inputs from outside (subprocesses, remote services, the file system failing) are parameters of the
  method that meets them, one outcome for every step.

### What turned out not to hold as promised

- The recovery archive lists its files in `pathlib` order, component by component, while the inspector
  demands string order. The built archive is accepted exactly when the two orders agree
  (`RecoveryRoundTrip.AcceptedIffOrdersAgree`). They do not agree on `jobs/latest.json` and
  `jobs-detail-ids.json`, which every generated release holds, so a stage with them is refused
  (`RecoveryRoundTrip.ReleasesAreRefused`, with an instance in `RecoverySample.RestoreBoth`).
- A publication that raises leaves the pointer as it was, except when the restore raises itself, or when
  leaving the `with` blocks raises after the new pointer was accepted
  (`PublicationRuns.RaisingKeepsPointer`, with instances in `PublicationRuns.FailedRestoreLeavesPointer` and
  `PublicationRuns.InterruptedExitLeavesPointer`).
- A pointer is written with its age clamped to zero but validated without the clamp, so publishing a
  snapshot that lies a second or more in the future always fails and is undone
  (`Publication.SwappedIsValid`). When that restore raises, the pointer that stays is one no later call
  accepts, and its channel is closed for good (`PublicationRuns.UntimelyForever`, with an instance in
  `PublicationRuns.EarlyCallClosesItsChannel`).
- The ledger is bounded in entries but not in bytes when it is written: it loads again exactly when it
  is not too long (`KagglePublication.UpsertedLoads`), and fifty-two dry runs of valid runtime plans can
  leave one that is (`LedgerSize.DryRunsLoseTheLedger`). No later call changes it, and all raise
  (`KagglePublication.PublishAll`).
- A cleanup that raises after a verified readback makes the publication raise although the ledger says
  verified, because the ledger refuses the handler's entry (`LedgerSize.UntidyPublication`; for every other
  outcome of the call, `KagglePublication.CleanupAfterReadback`).
- Archive names may contain NUL, which the name check accepts and the SBOM reader refuses
  (`ScanTree.LayOutAndVerify`, with an instance in `ScanTree.ReadNulArchive`). Such a name can only come
  from the pax header of an sdist: zip readers cut a member name at NUL.
- A purge that returns leaves no residue only under the lock (`ScrubProtocol.ReturnLeavesNoResidue`,
  `ScrubProtocol.ReturnWithoutLockMayLeaveResidue`).
- The pointer of the empty path is "/", which names the key "" (`JsonPointer.ResolveEmptyPointer`).

## Model

| member | source | states |
|---|---|---|
| `ScrubProtocol.ScrubIsNeverForgotten` | src/openopps/cache.py:252-271 | in every state of every run of any number of processes, with crashes at any step and with or without the lock, completed never passes pending, and deleted bytes still on disk mean a pending generation that is not completed, or one never initialised |
| `ScrubProtocol.PendingNeverDecreases` | src/openopps/cache.py:423-439 | the pending generation never decreases along a run |
| `ScrubProtocol.BytesComeAndGo` | src/openopps/cache.py:252-271 | deleted bytes arise in the transaction that advances the generation, under a generation above all before, and leave the file only by a checkpoint after a vacuum |
| `ScrubProtocol.AnyoneMayStop` | src/openopps/cache.py:337-399 | a process may be stopped at any point, and one may enter again once nobody is inside |
| `ScrubProtocol.ReturnLeavesNoResidue` | src/openopps/cache.py:337-399 | with the lock, a purge or a construction that returns normally leaves no deleted byte and nothing pending |
| `ScrubProtocol.ReturnWithoutLockMayLeaveResidue` | src/openopps/cache.py:455-467 | a ten-state run of two start-ups without the lock in which one returns while deleted bytes of the other are on disk |
| `RequestKey.UnquoteUndoesQuote` | src/openopps/cache.py:540-556 | percent-decoding with plus for blank undoes percent-encoding, byte by byte |
| `RequestKey.ParseUndoesEncode` | src/openopps/cache.py:540-556 | parsing an encoded query gives back exactly its pairs, blank values included |
| `RequestKey.KeyDeterminesSlot` | src/openopps/cache.py:496-518 | the slot can be read back from the key, so different slots never share a key |
| `RequestKey.KeySeesBags` | src/openopps/cache.py:521-556 | the key depends only on the bag of query pairs and the bag of headers |
| `RequestKey.KeyIgnoresPlacement` | src/openopps/cache.py:540-556 | neither the order of the pairs nor whether one stands in the URL or in `params` changes the key |
| `RequestKey.KeysAgreeIffSlotsDo` | src/openopps/cache.py:496-537 | two requests share a key exactly when they agree on namespace and normalised request; what that comes to is the next theorem |
| `RequestAgreement.KeysAgree` | src/openopps/cache.py:496-586 | two requests share a key exactly when they agree on namespace, body, identity and user, on verb, scheme and host up to the case of letters, on the path with none read as `/`, on the port with none read as the default one, on how often each pair is asked for, and on the nine headers that count |
| `RequestAgreement.QueriesAgree` | src/openopps/cache.py:540-556 | the sorted queries are equal exactly when each pair is asked for equally often, in the URL or in `params`, every item of a list value counting once |
| `RequestAgreement.HeadersAgree` | src/openopps/cache.py:572-586 | the header maps are equal exactly when each of the nine names is sent with the same value, or by neither, whatever the case of its letters; of several spellings the last in sorted order counts |
| `RequestAgreement.PlacesAgree` | src/openopps/cache.py:540-569 | scheme, user, host, port and path are normalised to the same exactly when the two URLs name the same place |
| `RequestAgreement.QueryDivides` | src/openopps/cache.py:540-556 | a query is read piece by piece between ampersands, empty pieces skipped |
| `RequestAgreement.QueryRead` | src/openopps/cache.py:540-556 | one query with a bare name, an empty piece, a blank, escapes in either case and a second equals sign, as it is read |
| `HttpCache.ViewPut` | src/openopps/cache.py:135-223 | storing a row under a key updates the plain map at one slot and nowhere else |
| `HttpCache.ViewPurge` | src/openopps/cache.py:252-271 | the rows that survive a purge stand for the plain map without the covered slots |
| `HttpCache.ViewRefresh` | src/openopps/cache.py:225-250 | an update in place renews the times of one slot, and of none when the row is gone |
| `HttpCache.HttpCache.InitDb` | src/openopps/cache.py:337-399 | start-up, whatever generations it finds, keeps exactly the rows of schema `v2` that show no location and scrubs as declared: when anything was due and it returns, no residue and nothing pending is left, and it raises only for a busy reader, still pending |
| `HttpCache.HttpCache.PutJson` | src/openopps/cache.py:135-223 | a put that passes its guard sets one slot of the plain map; one whose guard raises changes nothing |
| `HttpCache.HttpCache.RefreshJson` | src/openopps/cache.py:225-250 | a refresh that passes its guard sets the times of its slot to now and now plus the lifetime, and changes nothing else; one whose guard raises changes nothing |
| `HttpCache.HttpCache.GetJson` | src/openopps/cache.py:64-94 | a lookup hits exactly when it does not refresh and the plain map holds a record at the slot that expires later than now, and yields that record, not stale |
| `HttpCache.HttpCache.GetStaleJson` | src/openopps/cache.py:96-133 | a stale lookup hits exactly when the plain map holds a record at the slot that allows staleness, or any is asked for, expired or not, and yields it as stale |
| `HttpCache.HttpCache.Purge` | src/openopps/cache.py:252-271 | the slots of the namespace, or all of them when none is named, are gone and counted even when the compaction raises, and the file is scrubbed as declared: a normal return leaves no residue, when a row was deleted or residue was there only while pending |
| `HttpCache.HttpCache.Advance` | src/openopps/cache.py:423-439 | the new generation is above both old ones |
| `HttpCache.HttpCache.Complete` | src/openopps/cache.py:441-453 | a generation is completed only while it is still the pending one |
| `HttpCache.HttpCache.Compact` | src/openopps/cache.py:455-467 | a compaction raises exactly while a reader is busy, and otherwise leaves no deleted byte |
| `HttpCache.HttpCache.Settle` | src/openopps/cache.py:267-270 | raises exactly when a generation is due and a reader is busy; a due generation it can compact is completed |
| `HttpCache.HttpCache.Read` | src/openopps/cache.py:312-335 | a read finds a record exactly when the plain map holds one at the slot of the key, and then that one |
| `HttpCache.ServeAll` | src/openopps/cache.py:64-271 | any sequence of puts, refreshes, lookups and purges answers exactly as the plain map does |
| `HttpCache.UnsettledStays` | src/openopps/cache.py:225-250 | calls that neither put nor purge a slot leave its record, with the times of its last refresh |
| `HttpCache.HistoryDecides` | src/openopps/cache.py:64-271 | after any run a slot holds the record of the last put since the last purge over it, with the times of its last refresh since, or nothing |
| `ScrubRefinement.ScrubExtends` | src/openopps/cache.py:252-271 | every start-up and purge of the cache, with its outcome, is a sequence of steps of the scrub protocol under the lock |
| `ScrubRefinement.CallsAreRuns` | src/openopps/cache.py:252-399 | whatever start-ups and purges any number of processes run one after the other, the protocol has a run to the same generations, residue and holders of a cache |
| `ScrubRefinement.CallsScrub` | src/openopps/cache.py:252-399 | so after any such calls deleted bytes on disk are pending, and a call that returns leaves none |
| `ReleaseManifest.CheckListing` | scripts/docs_search_release.py:251-288 | the entry loop reports nothing exactly when every item names a safe path other than the manifest and no two differ in case only |
| `ReleaseManifest.CheckFile` | scripts/docs_search_release.py:305-345 | no error exactly when size, digest, media type, role, count and payload of one file match its entry |
| `ReleaseManifest.CheckFiles` | scripts/docs_search_release.py:299-345 | the file loop totals the sizes on disk and reports nothing exactly when every present file matches its entry |
| `ReleaseManifest.CheckContent` | scripts/docs_search_release.py:251-356 | no content error exactly when the listing is sound, the file sets agree, every file matches, and counts and totals are right |
| `ReleaseManifest.CheckGenerator` | scripts/docs_search_release.py:988-1006 | accepts exactly non-empty component lists with safe, distinct paths and a safe entry point |
| `ReleaseManifest.ValidateRelease` | scripts/docs_search_release.py:197-369 | no error exactly when the directory meets the declared condition; of a directory that is valid without an age limit, exactly when now is at most the snapshot plus the limit |
| `ReleaseManifest.AgeDecides` | scripts/docs_search_release.py:1009-1037 | a directory valid without an age limit is valid under one up to the microsecond at which its snapshot reaches that age, and never after |
| `ReleaseMeaning.AcceptsMeans` | scripts/docs_search_release.py:197-369 | a directory is accepted exactly when its manifest is the canonical bytes of schema 7, names itself by the digest of its body, describes well-formed provenance, lists every other file once at a tame path that differs from all others in more than case, tells each size, digest, media type, role and count, gives number and sum, holds nothing private, and neither files, sizes nor age pass the policy |
| `ReleaseBuild.BuildReleaseManifest` | scripts/docs_search_release.py:158-188 | raises exactly when a manifest is already there or a JSON file does not decode; otherwise lists exactly the payload, in ascending order of paths, whatever the walk order |
| `ReleaseBuild.DescribedClosed` | scripts/docs_search_release.py:158-194 | the written manifest closes over the directory exactly when the payload is publishable |
| `ReleaseBuild.BuiltManifestValidates` | scripts/docs_search_release.py:158-369 | builder and validator agree: the built manifest validates exactly when paths are safe and case-distinct, JSON holds nothing private, provenance is well formed, sizes fit and the snapshot is recent |
| `ReleaseBuild.ReleaseIdDeterminesContent` | scripts/docs_search_release.py:1040-1058 | two directories that both validate under one release id hold the same paths and bytes |
| `Publication.SwappedIsValid` | scripts/docs_search_release.py:463-635 | after the swap the channel validates exactly when the snapshot is not in the future by a second or more: all else was checked before |
| `Publication.PointerMeans` | scripts/docs_search_release.py:372-419 | a pointer names the manifest it was made from, on its channel, with the age of the snapshot at promotion in whole seconds, and never the release as its own prior |
| `Publication.WholeSecondsMean` | scripts/docs_search_release.py:372-419 | the whole seconds between two instants, negative only from one second on |
| `Publication.PriorIsValid` | scripts/generate_docs_search_index.py:466-473 | the prior release that the new pointer will name is a different one, present and valid |
| `Publication.SameNameSameDir` | scripts/generate_docs_search_index.py:443-462 | a valid directory already standing under the stage's release id is the stage itself, so the collision check never fires |
| `Publication.Site.ValidatePublication` | scripts/docs_search_release.py:463-635 | accepts exactly when the pointer is canonical and well formed, its release and prior release are present and valid, and their digests and snapshot agree; so an undegraded production pointer that is accepted has a snapshot of at most 172800000000 microseconds, whatever age is allowed |
| `Publication.Site.Restore` | scripts/generate_docs_search_index.py:503-523 | puts back the old pointer, or removes the new one when there was none |
| `Publication.Site.SwapAndCheck` | scripts/generate_docs_search_index.py:473-493 | the pointer is replaced exactly when it can be written, and the check passes exactly when nothing raises and the snapshot is not in the future |
| `Publication.Site.SwapPointer` | scripts/generate_docs_search_index.py:473-500 | after the `try` the pointers and the outcome are the declared ones, restored unless the restore raises |
| `Publication.Site.BuildSearchRelease` | scripts/generate_docs_search_index.py:251-500 | one call has exactly the declared effect on releases, pointers and outcome, whatever step raises; a return without a reason means a snapshot within the age asked for, and on `production` within 172800000000 microseconds |
| `PublicationMeaning.ChannelMeans` | scripts/docs_search_release.py:463-635 | a channel is valid exactly when it has a lower-case name of at most 63 characters, its pointer file is canonical, names a present release that is valid within the age allowed and another present release as prior, if any, repeats root digest and snapshot of the manifest, and tells its age at promotion in whole seconds |
| `PublicationMeaning.ReturnMeans` | scripts/generate_docs_search_index.py:251-500 | a call that returns had its arguments in range, found its channel absent or valid as of its own promotion, and was given a valid stage within the age asked for; it has named the stage by the id of its manifest, pointed its channel at it with the former release as prior, and changed nothing else, and the snapshot lies less than a second in the future |
| `PublicationMeaning.ReturnsExactlyWhen` | scripts/generate_docs_search_index.py:251-500 | a call returns exactly when its arguments are in range, its channel has a proper name and no pointer or one that was valid when promoted, the stage is valid and its name free or that of a valid release, the reason has at most 500 characters, the snapshot lies less than a second in the future, and nothing raises |
| `PublicationMeaning.NewPointerIsTrue` | scripts/generate_docs_search_index.py:466-493 | the pointer that a call writes for a snapshot not a second in the future tells the truth about the release it names, and names as prior the release that the channel named before |
| `PublicationRuns.NamedReleasesStay` | scripts/generate_docs_search_index.py:441-464 | no call changes a named release; a new one is the stage under its own id |
| `PublicationRuns.OtherChannelsStay` | scripts/generate_docs_search_index.py:473-481 | a call touches the pointer of its own channel only |
| `PublicationRuns.RaisingKeepsPointer` | scripts/generate_docs_search_index.py:473-500 | a call that raises leaves the pointers as they were, except in exactly two ways, in which the new pointer stays |
| `PublicationRuns.ReturnsExactlyWhenItStands` | scripts/generate_docs_search_index.py:251-500 | a call returns exactly when everything before the swap was in order, the pointer could be written and validated, and nothing raised |
| `PublicationRuns.FailedRestoreLeavesPointer` | scripts/generate_docs_search_index.py:494-499 | a concrete call that raises and leaves the new pointer, because its restore fails |
| `PublicationRuns.InterruptedExitLeavesPointer` | scripts/generate_docs_search_index.py:473-500 | a concrete call that raises after its new pointer was accepted, and leaves it |
| `PublicationRuns.LastOtherIsMostRecent` | scripts/generate_docs_search_index.py:466-472 | what the prior release is computed as is the most recent different release of the history |
| `PublicationRuns.RunsStayTracked` | scripts/generate_docs_search_index.py:251-500 | after any calls on any channels every pointer names a present release and, as prior, the most recent different release of its channel |
| `PublicationRuns.ReleasesAreForever` | scripts/generate_docs_search_index.py:441-464 | a release named at some point of a run is there unchanged ever after |
| `PublicationRuns.RunsStaySound` | scripts/generate_docs_search_index.py:301-336 | after any calls the pointer of every channel passes the validation that the next call begins with exactly when its snapshot does not lie in the future of its promotion by a second or more |
| `PublicationRuns.OpenUnlessRestoreFailed` | scripts/generate_docs_search_index.py:473-500 | after any calls every channel is valid for the next call, unless some call on it raised and could not restore |
| `PublicationRuns.UntimelyComesFromRestore` | scripts/generate_docs_search_index.py:494-499 | the only call that leaves a pointer with a future snapshot rejected it itself and could not restore |
| `PublicationRuns.UntimelyForever` | scripts/generate_docs_search_index.py:251-500 | such a pointer stays whatever calls follow, and every later call on its channel raises |
| `PublicationRuns.EarlyCallClosesItsChannel` | scripts/generate_docs_search_index.py:473-500 | one concrete call on an empty site, after which every call on the channel raises, whatever calls come between |
| `PublicationRuns.ServeAll` | scripts/generate_docs_search_index.py:251-500 | a site that starts empty is, after any calls, in the state of their run, and exactly the calls that raise in the run have raised |
| `TreeDigest.ParseUndoesStream` | scripts/docs_search_delivery.py:1982-1995 | the hashed stream parses back to the one list of records it was written from |
| `TreeDigest.FrameLayout` | scripts/docs_search_delivery.py:1982-1995 | a frame is four bytes of path length, the path, eight bytes of size and the digest, numbers with the weightiest byte first |
| `TreeDigest.StreamUndoesParse` | scripts/docs_search_delivery.py:1982-1995 | whatever parses is the stream of what it parses to |
| `TreeDigest.FindCaseCollision` | scripts/docs_search_delivery.py:1920-1929 | the case dictionary finds a collision exactly when two different spellings fold together |
| `TreeDigest.WalkTree` | scripts/docs_search_delivery.py:1893-1930 | the walk sorts entries into files and directories and is safe exactly when it met nothing else |
| `TreeDigest.FeedDigest` | scripts/docs_search_delivery.py:1982-1995 | feeding frame by frame yields the stream, or fails exactly on an entry too long to frame |
| `TreeDigest.DeliveryTreeStream` | scripts/docs_search_delivery.py:1893-1995 | the delivery digest feeds the stream of the sorted files, or fails on an unsafe tree or an entry too long to frame |
| `TreeDigest.BootstrapTreeStream` | scripts/docs_search_bootstrap.py:586-619 | the bootstrap digest feeds the same stream of the sorted files for every tree it accepts |
| `TreeDigest.SortUnderRoot` | scripts/docs_search_bootstrap.py:586-619 | sorting absolute paths under a root and sorting relative paths give the same order |
| `TreeDigest.WalkOrderIsInvisible` | scripts/docs_search_delivery.py:1893-1995 | the stream does not depend on the order of the directory walk |
| `TreeDigest.StreamDeterminesTree` | scripts/docs_search_delivery.py:1982-1995 | equal streams mean equal files, sizes and digests |
| `DigestMeaning.DeliveryMeans` | scripts/docs_search_delivery.py:1893-1995 | the delivery script digests exactly the trees of files and folders whose names differ in more than case and whose files fit their frames |
| `DigestMeaning.BootstrapMeans` | scripts/docs_search_bootstrap.py:586-619 | the bootstrap script digests exactly the trees of files and folders with one link to every file, whatever their names, whose files fit their frames |
| `DigestMeaning.StreamFramesFiles` | scripts/docs_search_delivery.py:1982-1995 | the stream parses to one record for each regular file, of its path, length and digest, in ascending order of paths compared component by component |
| `Orders.PathLeqMeans` | scripts/docs_search_delivery.py:1986 | `pathlib` order is decided by the first component in which two paths differ |
| `PathOrders.OrdersDisagree` | scripts/docs_search_delivery.py:980-1011 | path order and string order differ on two paths exactly when, where they first differ, one component extends the other by a character below the slash |
| `PathOrders.SortedNamesAscend` | scripts/docs_search_delivery.py:1072 | the path-sorted names ascend as strings exactly when no pair of paths is so inverted |
| `PathOrders.JobFilesInvert` | scripts/generate_docs_search_index.py:895 | `jobs/latest.json` and `jobs-detail-ids.json` of one release are such a pair |
| `RecoveryArchive.InspectStream` | scripts/docs_search_delivery.py:1278-1381 | the streaming pass accepts exactly the member lists that meet the declared condition, and reports them all; what that comes to is the next theorem |
| `RecoveryArchive.StreamMeans` | scripts/docs_search_delivery.py:1278-1414 | the streaming pass accepts exactly at most 20004 members and four gibibytes, strictly ascending as strings, no two folding to one name, each a regular file with canonical metadata that is one of the four documents or lies strictly below `assets/`, whose path leads from any directory to itself, with at most 255 bytes in a component and 4096 in all, and whose size is that of its content and within 16777216, 67108864 or 25165823 bytes |
| `RecoveryArchive.ClimbingIsRefused` | scripts/docs_search_delivery.py:1384-1414 | whatever the host, an archive with a member `assets/../x` is refused |
| `RecoveryArchive.ParseSums` | scripts/docs_search_delivery.py:1353-1363 | the checksum lines are read exactly when each is well formed and no name repeats |
| `RecoveryArchive.CheckSums` | scripts/docs_search_delivery.py:1349-1369 | the checksum lines are accepted exactly when they list every other member once, with its digest |
| `RecoveryRestore.ReadLines` | scripts/docs_search_delivery.py:1478-1497 | the manifest list is read exactly when its lines are well formed and strictly ascending |
| `RecoveryRestore.CheckSbom` | scripts/docs_search_delivery.py:1604-1647 | the SPDX list is accepted exactly when it repeats the manifest list |
| `RecoveryRestore.InspectArchive` | scripts/docs_search_delivery.py:1278-1381 | an archive is inspected successfully exactly when stream, checksums, manifest, SPDX and provenance all close, and its identity is then reported |
| `RecoveryRestore.ExtractAssets` | scripts/docs_search_delivery.py:1756-1823 | extraction of an inspected archive yields exactly the tree of its asset members, or fails exactly when one asset is an ancestor of another |
| `RecoveryRestore.ManifestListsTree` | scripts/docs_search_delivery.py:1478-1518 | the files of the manifest are exactly those of the extracted tree, with their sizes and digests |
| `RecoveryRestore.RestoreRecoveryArchive` | scripts/docs_search_delivery.py:1148-1241 | a restore that returns holds exactly the manifest's files and nothing else, from an accepted archive of the expected identities, and every path of it leads from any directory to itself below that directory |
| `RecoveryMeaning.AcceptedMeans` | scripts/docs_search_delivery.py:1278-1381 | in an accepted archive every member but the list has its own checksum line and there is no other, the manifest lists every asset with true length and digest in ascending order and nothing else, counts and sums are right, two distinct releases and the stage are named by 64 hexadecimal digits, the provenance attests schema, revision, stage, tools and both control files, and the SPDX document repeats the list |
| `RecoveryMeaning.TreeMeans` | scripts/docs_search_delivery.py:1756-1823 | the restored tree holds the content of every member below `assets/` at its name without that folder, and nothing else |
| `RecoveryMeaning.LinesDivide` | scripts/docs_search_delivery.py:1353-1363 | text is cut at each of the eleven line breaks, a carriage return with a line feed counting as one |
| `RecoveryMeaning.LastLine` | scripts/docs_search_delivery.py:1353-1363 | a last line needs no break, and an empty one is none |
| `RecoveryBuild.BuildRecoveryArchive` | scripts/docs_search_delivery.py:963-1104 | builds exactly the declared members in string order, or raises exactly on an unbuildable stage |
| `RecoveryBuild.BuiltStreams` | scripts/docs_search_delivery.py:963-1104 | whatever is built from a valid stage within the budgets passes the streaming inspector |
| `RecoveryRoundTrip.SumsRead` | scripts/docs_search_delivery.py:1043-1051 | the checksum lines written are the lines read back |
| `RecoveryRoundTrip.SumsCloseOnBuilt` | scripts/docs_search_delivery.py:1349-1369 | the checksums of a built archive close over its members |
| `RecoveryRoundTrip.LinesAscendIffOrdersAgree` | scripts/docs_search_delivery.py:980-1011 | the manifest list is in the inspector's order exactly when the two path orders agree on the stage |
| `RecoveryRoundTrip.AcceptedIffOrdersAgree` | scripts/docs_search_delivery.py:1278-1381 | the archive built from a valid stage within the budgets passes inspection exactly when the two path orders agree |
| `RecoveryRoundTrip.ExtractionUndoesBuild` | scripts/docs_search_delivery.py:1756-1823 | extracting what was built gives back the stage, path for path and byte for byte |
| `RecoveryRoundTrip.BuildThenRestore` | scripts/docs_search_delivery.py:1148-1241 | building and restoring gives the stage back exactly when the two path orders agree |
| `RecoveryRoundTrip.ReleasesAreRefused` | scripts/docs_search_delivery.py:980-1011 | a stage with the latest jobs and the detail ids of one release is built into an archive that inspection refuses |
| `RecoverySample.RestoreSample` | scripts/docs_search_delivery.py:963-1241 | for every set of short portable paths, the stage of empty files at them meets every condition of the round trip and comes back exactly when the two orders agree |
| `RecoverySample.RestoreBoth` | scripts/docs_search_delivery.py:963-1241 | of two concrete stages, the one of the control files alone comes back and the one with a release does not |
| `Rollout.NextStaysValid` | scripts/docs_search_delivery.py:880-917 | an accepted action leads to a valid state, recorded at the end of the history with the version it deploys, the previous one exactly for a rollback, at 100 percent |
| `Rollout.NextMeans` | scripts/docs_search_delivery.py:880-917 | an action is accepted exactly when the state is valid and the action is the next one of promote, rollback, repromote |
| `Rollout.ValidMeans` | scripts/docs_search_delivery.py:2098-2161 | a state is valid exactly when it names two distinct versions, its history is a beginning of that course at 100 percent each, and its phase says how far it has come |
| `Rollout.UuidMeans` | scripts/docs_search_delivery.py:2098-2161 | a version is 36 hexadecimal digits and dashes, the dashes exactly at 8, 13, 18 and 23 |
| `Rollout.ValidIsReachable` | scripts/docs_search_delivery.py:2098-2161 | the states that validation accepts are exactly those that rollouts reach |
| `ArchiveNames.RecordMember` | scripts/verify_release_artifacts.py:374-432 | one iteration accepts exactly when the member fits those before it, and keeps the three dictionaries right |
| `ArchiveNames.RecordPrefixes` | scripts/verify_release_artifacts.py:388-403 | the prefix loop accepts exactly when no prefix is a file or has a second spelling, and records every prefix |
| `ArchiveNames.VerifyArchiveNames` | scripts/verify_release_artifacts.py:374-432 | the single pass accepts exactly when an order-free condition on the members holds |
| `ArchiveMeaning.CollisionlessMeans` | scripts/verify_release_artifacts.py:374-468 | an archive is accepted exactly when every name, but for the slash that ends a directory, leads from any directory to itself, has no backslash, no component that ends in a blank or a dot or names a device, none of the seven local-only components and no `.draft` at its end, no two members fold to the same components, none lies below a file, and every folder is spelled in one way |
| `ArchiveMeaning.NameMeans` | scripts/verify_release_artifacts.py:435-468 | a member name is canonical exactly when it is sound in these terms, and then its path is its components |
| `ArchiveNames.VerdictIsOrderFree` | scripts/verify_release_artifacts.py:374-468 | every permutation of a member list gets the same verdict |
| `ScanTree.ReadTree` | scripts/release_sbom.py:187-287 | an accepted archive is read into its tree, unless a name holds NUL |
| `ScanTree.AddParents` | scripts/release_sbom.py:290-294 | the parent loop adds exactly the proper prefixes |
| `ScanTree.DepthOrder` | scripts/release_sbom.py:297-304 | every directory once, none before a shorter one |
| `ScanTree.Disk.Mkdir` | scripts/release_sbom.py:297-304 | making a directory needs its parent and no file in the way |
| `ScanTree.Disk.WriteNew` | scripts/release_sbom.py:297-304 | an exclusive open fails exactly when anything is already there |
| `ScanTree.MakeDirectories` | scripts/release_sbom.py:297-304 | parents first, every directory finds its parent already made |
| `ScanTree.WriteFiles` | scripts/release_sbom.py:297-304 | every file finds its parent and no node in its place, and the disk then holds exactly the tree |
| `ScanTree.VerifyScanTree` | scripts/release_sbom.py:307-327 | the readback accepts exactly when the disk holds the expected tree, spelled as expected |
| `ScanTree.AcceptedTreeFits` | scripts/release_sbom.py:290-304 | the tree of every accepted archive is closed under parents and free of clashes on every volume that folds no more than the collision key |
| `ScanTree.LayOutAndVerify` | scripts/release_sbom.py:187-327 | an archive the name check accepts is laid out and read back successfully exactly when no name holds NUL, and then the disk holds every file member at its components with its content, every folder of a member as a directory, and nothing else |
| `ScanTree.NulNameIsAccepted` | scripts/verify_release_artifacts.py:374-432 | a concrete archive, of one member with NUL in its name, that the name check accepts |
| `ScanTree.ReadNulArchive` | scripts/release_sbom.py:187-287 | and that the reader refuses |
| `ScanTree.SdistMetadataFits` | scripts/release_sbom.py:243-287 | adding the metadata file beside the single source root keeps the archive acceptable |
| `Numerals.PaddedIsInjective` | scripts/generate_docs_search_index.py:1876-1880 | padded numerals name one number each, however wide |
| `DetailShards.DetailBucket` | scripts/generate_docs_search_index.py:1876-1880 | the loop masked to 32 bits yields the bucket of the unbounded base-31 polynomial modulo 1024 |
| `DetailShards.BucketMeans` | scripts/generate_docs_search_index.py:1876-1880 | the bucket of an id is the sum of its characters, each weighing 31 to the number of characters after it, modulo 1024, in two hexadecimal digits at least |
| `DetailShards.BucketNames` | scripts/generate_docs_search_index.py:1876-1880 | the names of four buckets, in lower-case hexadecimal digits and at least two of them |
| `DetailShards.TotalGrows` | scripts/generate_docs_search_index.py:1937-1943 | putting a new id into its bucket adds one to the sum of the bucket counts |
| `DetailShards.FillBuckets` | scripts/generate_docs_search_index.py:1935-1945 | the buckets partition the records: each id is found in the bucket of its hash and nowhere else |
| `DetailShards.WriteDetailShards` | scripts/generate_docs_search_index.py:1916-1976 | looking a job up in its bucket finds it exactly when it is published, open when only open jobs are, as the shaped record in the second tier exactly for indexable ids; bucket counts, tiers and the id index give one total |
| `JobChunks.ChunkFilesDiffer` | scripts/generate_docs_search_index.py:1979-1996 | no chunk file overwrites another |
| `JobChunks.ChunkNames` | scripts/generate_docs_search_index.py:1979-2038 | the names of two chunk files, with four digits at least |
| `JobChunks.WriteJobChunks` | scripts/generate_docs_search_index.py:1979-1996 | reading the chunks in index order gives the job list back, and every chunk but the last holds 1000 rows |
| `JobChunks.ColumnarValues` | scripts/generate_docs_search_index.py:1999-2004 | the column lists are the transposed kept columns, absent cells filled |
| `JobChunks.WriteColumnarJobChunks` | scripts/generate_docs_search_index.py:2007-2038 | every columnar chunk transposes its slice of the job list |
| `JobChunks.CellOfJob` | scripts/generate_docs_search_index.py:1999-2038 | of each row the columns 0 to 14 and 17 to 21 are kept: kept column c of job n is entry n % 1000 of column c in chunk n / 1000, or absent when the row is shorter |
| `LineageTables.Lineage.AddBoard` | scripts/generate_docs_search_index.py:2354-2374 | a board row adds exactly its events to the six dictionaries |
| `LineageTables.Lineage.AddProvider` | scripts/generate_docs_search_index.py:2376-2434 | a provider row adds exactly its events to the six dictionaries |
| `LineageTables.Lineage.AddJob` | scripts/generate_docs_search_index.py:2436-2529 | a job row adds exactly its events to the six dictionaries, one set per source occurrence |
| `LineageTables.Lineage.AddSources` | scripts/generate_docs_search_index.py:2490-2529 | the inner loop counts a job once per occurrence of a source, on the node and on its edges |
| `LineageTables.Aggregate` | scripts/generate_docs_search_index.py:2272-2529 | after the three loops the dictionaries hold what all rows add up to |
| `LineageConservation.NodesCountRows` | scripts/generate_docs_search_index.py:2566-2594 | every counter of every node, supported and rated routes among them, is the number of times the rows name that node with that property |
| `LineageConservation.NodeJobsSplit` | scripts/generate_docs_search_index.py:2566-2594 | on every node jobs are open plus closed jobs, and the rows that name it |
| `LineageConservation.EdgeSumBump` | scripts/generate_docs_search_index.py:2417-2434 | one event changes the sum over the edges at one end by what it adds |
| `LineageConservation.NodesBalanceEdges` | scripts/generate_docs_search_index.py:2376-2529 | a node's jobs, open jobs and routes are those on its edges plus those of rows without the other end |
| `LineageConservation.BoardRoutesAreOnEdges` | scripts/generate_docs_search_index.py:2406-2434 | a board's routes are the sum over its provider edges |
| `LineageConservation.SourceRoutesAreOnEdges` | scripts/generate_docs_search_index.py:2385-2401 | a source's routes are the sum over its provider edges |
| `LineageConservation.EdgesCountRows` | scripts/generate_docs_search_index.py:2417-2434 | routes, jobs and open jobs of every edge are the rows that name both its ends, jobs once per occurrence of the source |
| `LineageConservation.EdgesMirrorNeighbours` | scripts/generate_docs_search_index.py:2354-2529 | an edge is there exactly when each end lists the other among its neighbours |
| `Ledger.ValidateFiles` | scripts/openopps_kaggle/publication.py:1368-1395 | the file loop accepts exactly non-empty, bounded, distinct, safe and sorted lists |
| `Ledger.ValidateEntry` | scripts/openopps_kaggle/publication.py:1329-1506 | accepts exactly the declared condition, readback present exactly in `readback-verified` and error exactly in failure phases |
| `LedgerMeaning.EntryMeans` | scripts/openopps_kaggle/publication.py:1329-1506 | an entry is valid exactly when its files are, its id is the digest of its plan, its plan and commands publish these very files as the first version or the next one, a readback is there exactly in `readback-verified` and repeats version, digest, number and volume of the files, and an error type is there exactly in the two failure phases |
| `LedgerMeaning.FilesMean` | scripts/openopps_kaggle/publication.py:1368-1395 | one to two hundred files at ASCII paths of at most 1024 characters without escapes, drives or controls that lead straight to the file, each before the next |
| `Ledger.LoadLedger` | scripts/openopps_kaggle/publication.py:1305-1326 | loads exactly the files that are short enough, bounded, valid and without repeated plan ids |
| `LedgerMeaning.LedgerMeans` | scripts/openopps_kaggle/publication.py:1305-1326 | a stored ledger loads exactly when it is at most 8388608 bytes long and holds at most 100 valid entries, one for each plan; a missing one is empty |
| `Ledger.UpsertedIsOk` | scripts/openopps_kaggle/publication.py:1288-1302 | an upsert keeps a ledger valid: distinct plans, at most 100 entries, each valid |
| `Ledger.UpsertDropsAtMostTheOldest` | scripts/openopps_kaggle/publication.py:1288-1302 | an upsert ends with the new entry, keeps the others in order and drops one exactly when the ledger was full, then the oldest |
| `Ledger.UpsertedTwice` | scripts/openopps_kaggle/publication.py:1288-1302 | upserting one plan twice is upserting its last entry once, so a plan costs at most one other plan in all its phases |
| `LedgerSize.WideLedgerIsReached` | scripts/openopps_kaggle/publication.py:1288-1302 | upserts of the wide plans lead, one at a time, to a ledger of them all |
| `LedgerSize.WideFilesAreOk` | scripts/openopps_kaggle/publication.py:880-896 | the wide file list is one that the verification of a runtime stage expects and the ledger accepts: both control files, 198 files below the package directory, no component over 255 characters |
| `LedgerSize.ValidEntriesOutgrowTheFile` | scripts/openopps_kaggle/publication.py:1305-1326 | fifty-two valid entries of runtime plans whose file can no longer be loaded, under every encoding that writes paths out |
| `LedgerSize.DryRunsLoseTheLedger` | scripts/openopps_kaggle/publication.py:247-333 | from a missing ledger, dry runs of valid runtime plans in which nothing else raises leave a ledger that no longer loads |
| `LedgerSize.UntidyPublication` | scripts/openopps_kaggle/publication.py:334-401 | a concrete publication that raises in its cleanup while the ledger it leaves loads and says verified |
| `KagglePublication.LedgerOnDisk.Upsert` | scripts/openopps_kaggle/publication.py:1288-1302 | the file changes exactly when the entry is valid, the ledger loads and the write gets through, and then to the upserted list |
| `KagglePublication.Record` | scripts/openopps_kaggle/publication.py:1288-1302 | another upsert of the same plan replaces its entry and costs no further plan; it succeeds when the entry is valid, the write gets through and the ledger as last written still loads, and fails when that is too long |
| `KagglePublication.UpsertedLoads` | scripts/openopps_kaggle/publication.py:1305-1326 | a written ledger loads again exactly when it is not too long |
| `KagglePublication.TrackedLoads` | scripts/openopps_kaggle/publication.py:1288-1326 | what a call leaves is the old file, or has valid entries and loads again exactly when the list written last is not too long |
| `KagglePublication.HandledIsOk` | scripts/openopps_kaggle/publication.py:395-401 | the handler's entry is valid exactly when no readback was set and the type name is acceptable |
| `KagglePublication.Body` | scripts/openopps_kaggle/publication.py:334-394 | the phases reach the disk only in order, and none without the steps that earn it; a normal return means that mutation, wait and readback succeeded, and the status check of an update; when the writes get through and the lists this call loads again are short enough, the first error and its phase are the declared ones; a staged list that is too long ends the call there |
| `KagglePublication.Handle` | scripts/openopps_kaggle/publication.py:395-401 | the handler leaves a valid ledger of this plan in an allowed phase; it changes the phase exactly for a caught error with an acceptable type name that comes before the readback |
| `KagglePublication.Execute` | scripts/openopps_kaggle/publication.py:330-401 | from the staged entry on, the call returns only with a verified readback on disk, and only when credentials, candidate, status, mutation, wait, readback and cleanup all succeeded; the final phase and whether it raises are exactly the declared ones when the ledger works |
| `KagglePublication.FateMeans` | scripts/openopps_kaggle/publication.py:334-401 | outcome by outcome, which error the call raises and which phase the ledger is left in: preflight failed before the mutation was recorded and readback failed after it, for caught errors with an acceptable name, and else the phase that was there |
| `KagglePublication.CleanupAfterReadback` | scripts/openopps_kaggle/publication.py:334-401 | a cleanup that raises after a verified readback makes the call raise, and the phase on disk stays verified |
| `KagglePublication.PreparePublication` | scripts/openopps_kaggle/publication.py:247-401 | a normal execution means that every step outside succeeded, `readback-verified` on disk that mutation, wait and readback did; a caught error with an acceptable name of candidate, status or mutation leaves `preflight-failed`, of wait or readback `readback-failed`, and is raised; whatever raises, the ledger is the old one or the old one with this plan upserted in a valid phase, phases follow one another as allowed, and it loads again exactly when the list written last is not too long; when the writes get through and the lists of this call are short enough, final phase and outcome are exactly the declared ones |
| `KagglePublication.PublishAll` | scripts/openopps_kaggle/publication.py:247-401 | after any calls, whatever raises in them, the ledger is the one that was there or holds distinct valid entries, at most 100, and then loads exactly when it is not too long; from the first time it does not load, no call changes it and all raise |
| `KagglePublication.WaitForVersion` | scripts/openopps_kaggle/publication.py:1200-1226 | no reading before the last shows the version ready, a later version or the deadline, the last one shows one of them, and the wait succeeds exactly when it shows the version ready; the polls take less than the time left plus one polling interval |
| `JsonLimits.ValidateJsonLimits` | scripts/smoke_wheel_catalog.py:666-686 | the explicit-stack walk terminates and accepts exactly values of at most 100000 nodes, none deeper than 128, and of allowed types |
| `JsonParser.ObjectFromPairs` | scripts/smoke_wheel_catalog.py:658-663 | the pair hook accepts exactly lists without a repeated key |
| `JsonStrict.ReadIsStrict` | scripts/smoke_wheel_catalog.py:642-663 | whatever is read holds no float and no object with a key twice, at any depth |
| `JsonStrict.NumbersAreWhole` | scripts/smoke_wheel_catalog.py:642-656 | a number that is read is spelled as it would be printed, so without leading zeros or a negative zero, in at most 4300 digits, and neither a fraction nor an exponent follows it |
| `JsonNormal.NormalizeIsStable` | scripts/smoke_wheel_catalog.py:689-699 | sorting the keys of a printable value keeps it printable, and a second sorting changes nothing |
| `JsonNormal.NormalizeKeepsLimits` | scripts/smoke_wheel_catalog.py:666-699 | sorting keys neither brings a value within the limits nor out of them |
| `JsonSorted.NormalizeAscends` | scripts/smoke_wheel_catalog.py:689-699 | in a normalised value, at every depth, of two members in order the first key is a proper prefix of the second or has the smaller code point where they first differ |
| `JsonSorted.FixedMeansAscending` | scripts/smoke_wheel_catalog.py:689-699 | sorting keys changes nothing exactly when the keys ascend so already |
| `JsonRoundTrip.TextRead` | scripts/smoke_wheel_catalog.py:689-726 | reading a printed string gives back its code points |
| `JsonRoundTrip.ValueRead` | scripts/smoke_wheel_catalog.py:689-726 | reading a printed value gives it back, whatever follows it that cannot continue a number |
| `JsonRoundTrip.DecodeJsonBytes` | scripts/smoke_wheel_catalog.py:702-726 | the decoder accepts exactly UTF-8 of at most 16777216 bytes without a byte order mark that reads as one value within the limits, and where demanded is its canonical form |
| `JsonRoundTrip.DecodeUndoesCanonical` | scripts/smoke_wheel_catalog.py:689-726 | decoding canonical bytes gives back the value with its keys ascending by code point at every depth, for every printable value within the limits |
| `JsonRoundTrip.CanonicalBijection` | scripts/smoke_wheel_catalog.py:702-726 | with canonical bytes required, accepted documents and values within the limits whose keys ascend by code point at every depth stand in bijection |
| `JsonRoundTrip.CanonicalIffAscending` | scripts/smoke_wheel_catalog.py:689-726 | of the documents printed without blanks, canonical decoding accepts exactly those whose keys ascend |
| `JsonSample.DocumentIsCanonical` | scripts/smoke_wheel_catalog.py:689-699 | one object with its keys out of order, nested values, escapes and a control character, as canonical bytes |
| `JsonCanonical.SameIsNormalEquality` | scripts/smoke_wheel_catalog.py:689-699 | two values differ only in member order, at any depth, exactly when they sort to the same value |
| `JsonCanonical.CanonicalSeesValues` | scripts/smoke_wheel_catalog.py:689-699 | canonical bytes are equal exactly for values that differ only in member order |
| `JsonPointer.WritePointer` | scripts/verify_agent_plugins.py:76-82 | the loop writes the escaped parts joined by slashes |
| `JsonPointer.EscapeMeans` | scripts/verify_agent_plugins.py:76-82 | a tilde is escaped as `~0`, a slash as `~1`, and any other character as itself |
| `JsonPointer.PointerGrows` | scripts/verify_agent_plugins.py:76-82 | one key more is a slash and the escaped key more |
| `JsonPointer.ResolveRef` | scripts/verify_agent_plugins.py:92-103 | a reference resolves to the object at the end of its unescaped path, and to nothing otherwise |
| `JsonPointer.UnescapeUndoesEscape` | scripts/verify_agent_plugins.py:76-103 | the two unescaping passes undo the two escaping passes |
| `JsonPointer.PointerSplitsBack` | scripts/verify_agent_plugins.py:76-103 | the pointer of a non-empty path splits back into exactly that path |
| `JsonPointer.ResolvePointer` | scripts/verify_agent_plugins.py:76-103 | resolving the pointer of a non-empty path walks exactly that path |
| `JsonPointer.ResolveEmptyPointer` | scripts/verify_agent_plugins.py:76-103 | the pointer of the empty path resolves to the member named "" |
| `JsonPointer.PointersAgree` | scripts/verify_agent_plugins.py:76-82 | distinct paths have distinct pointers, apart from the empty path and the path of one empty key |

## Left out

- Symbolic links, hard links, file modes, fsync, gzip, tar and zip encodings: directories and archives are maps and sequences of bytes.
- The archive handle is the same bytes in every pass: the reopening and re-hashing of the file between inspection and extraction is not modelled.
- Subprocess, network and remote-service calls: only their outcomes are modelled.
- ReleaseManifest.ValidateRelease: the graph of search manifest and rights policy is a predicate parameter, and of what is reported only the kind of each problem is modelled.
- ReleaseManifest.Manifest: fields of the wrong JSON type appear only as a document of the wrong shape, and a number equal to an integer but written as a float is not modelled.
- ReleaseManifest.Host: media type by suffix, semantic role, semantic count and the search for private keys, secrets and credential-bearing URLs are functions of the host; builder and validator use the same ones.
- Publication.Call: rights-policy building and index generation are one step, which yields a staged directory or raises; a process killed outright between swap and validation is not a call that raises.
- Publication.Site: the build lock serialises calls, so calls do not interleave.
- RequestKey.CacheKey: a URL is the parts that `urlsplit` yields, query text is bytes, and host and method change case in ASCII only.
- HttpCache.HttpCache: SQLite is a map of rows; the redaction of stored locations and the status report are not modelled.
- ScrubProtocol.ScrubIsNeverForgotten: a compaction is three steps on generations of bytes, not on pages of the file.
- RecoveryArchive.InspectStream: header checks that do not depend on other members are one predicate per member.
- RecoveryRestore.RestoreRecoveryArchive: the rename of the finished directory is the last atomic step; what an interrupted restore leaves behind is not modelled.
- Ledger.Entry: the data set id and the CLI version follow from the kind and are not fields; commands are the parameters they are rendered from.
- KagglePublication.PreparePublication: the entry is given; the argument checks and the verification of the stage that come before it are not modelled.
- KagglePublication.WaitForVersion: a status reading that raises is an outcome of the wait in `World`.
- LineageTables.Totals: labels, names, domains, the owning source of a board and the latest observation time are not modelled, nor is the finishing of nodes and edges into sorted lists.
- DetailShards.WriteDetailShards: the selection of public fields for a shard is a function parameter.
- JsonParser.ParseValue: Python's limit on recursion is not modelled; it lies above the depth limit that refuses such documents anyway.
- JsonPointer.Pointer: list indices enter a path as their decimal text.
- Wheel RECORD checks, bounded tar reading, SPDX field checks, provenance key sets and schema instance validation: comparisons of fields with little state.
- SQLite queries, HTML stripping, dashboards, coverage, health, enrichment and export modules: data plumbing that would only add easy members.
