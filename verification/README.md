# Release warming, coverage and the blob cache: a Dafny model

`regcachectl` keeps a fleet of pull-through registry caches. This project models the parts of it whose
correctness depends on state and interleaving, and proves what they promise:

- **Warming a release** (`WarmPool`, `WarmTheorems`, `WarmOutcomes`, `IndexWalk`, `SharedBlobs`, `Payload`, `Release`,
  `Convergence`, `ReleasePull`). The release image is read through its cache; then a pool of workers pulls every image of
  the payload, sharing a map of claimed blobs; then the caches' disks are checked, and what they did not keep
  is warmed again, at most twice.
- **The check on disk** (`Manifests`, `Coverage`, `DiskView`, `LayerSearch`). It decides from the stores
  alone whether an image is complete, through a view that lists each directory once, and it reads the
  release's payload list without going upstream.
- **The digest-keyed blob cache** (`BlobProxy`, `ProxyTheorems`, `ProxyProgress`, `ProxyOutcomes`,
  `Sidecars`). Request handlers interleave
  over one directory; small files remember which names were asked for.
- **Parsers and garbage collection** (`Text`, `Ordering`, `Refs`, `Platforms`, `Challenge`,
  `ChallengeRoundTrip`, `ChallengeExact`, `GarbageCollection`).

`dafny verify dfyconfig.toml` checks everything.

## How it is modelled

Concurrent code is a state machine. `WarmPool.Next` and `BlobProxy.Next` say what one worker or handler does
in one atomic step, `Apply` what that step does to the shared state, and `Run` is any interleaving of such
steps with any answers from the network or the file system. Invariants are proved for every reachable state;
the theorems are in `WarmTheorems`, `WarmOutcomes`, `SharedBlobs`, `ProxyTheorems`, `ProxyProgress` and
`ProxyOutcomes`. A claim (`LoadOrStore`), the end of a
fetch, a `Delete`, the store of a result and the counting of it are separate steps, so every race between
them is covered. Code that is sequential in the source is a method with the source's loops, specified by a function
or by a property; objects whose fields change (`DiskView`, `PullClient`, `Recorder`, `Engine`) are classes.

Idealisations:

- SHA-256 is a function parameter. It is assumed injective only where a lemma says so.
- JSON bodies are already decoded: a `Document` says what decoding it as a manifest and as an index yields,
  `None` where the decoder fails. A tar layer is a sequence of entries.
- A manifest named by digest has one content (`Config.pinned`, `Store.docs`). Manifests named by tag may be
  anything at every request.
- The network, the proxies' decision whether to store what they stream, and the outcome of every command are
  unconstrained. How the pool of each round ends and what is on disk at each check are parameters; only the
  convergence and monotonicity statements assume that stores grow.
- Each check of `Release` and `Coverage` looks at one `Store`. `DiskView.CompleteThroughView` closes the gap
  to a view filled while the disk grows.
- Temporary files of the blob cache get fresh numbers. The source removes its temporary name once more after
  a successful rename; were the name given to another download in between, that download's file would go.
- No index leads back to itself (its children rank below it), which content addressing gives.
- Characters are Latin-1 where white space matters and ASCII where case does.

## Where the code differs from what one might expect

The model follows the code. These are the places where a promise holds only under a condition, each with the
lemma that states the condition.

- One image's success does not mean that its blobs were fetched: another worker may hold the claim and fail
  later. Whether it does can be told from the call's arguments (`SharedBlobs.ReliableIff`, and
  `UnpinnedReliableIff` and `PinnedReliableIff` for the two pure cases). It is true of the whole pool
  (`WarmTheorems.SuccessIsGlobal`).
- Warming skips a layer without digest, the check asks for it. Warming an index for all platforms succeeds
  when it lists nothing, the check wants a match. Both kinds of image never become complete
  (`Manifests.FullIffWarmedContentHeld`, and `Convergence.CleanRoundStoresImage` for what that means after a
  faultless round).
- The final error counts the release image too, so it may say "5 of 4 payload images"
  (`Release.Honest`, ensured by `WarmAndVerify`); the count of verified images is exact all the same.
- A payload or a release with a reference that no registry cache serves is accepted and can never be verified
  (`ReleasePull.VerifiableIff`, `UnservedNeverVerified`).
- Pulling a multi-arch release for all platforms reads one child of its index only, while the check demands
  all of them, so that even a faultless first warm leaves it incomplete (`ReleasePull.ReleaseCompleteIff`).
- `list --okd-release` takes a payload tag for a digest and counts it as missing; pull-release looks the tag
  up. The two lists are equal exactly when no tag points at a complete image (`Coverage.ChecksAgree`).
- Below an index, the local resolver descends again (for linux/amd64, whatever platform was asked) where the
  remote one stops (`LayerSearch.ResolversAgree`).
- A failed `ls` is kept as an empty listing, so the repository looks empty until a new view is made
  (`DiskView.FailedListingKept`).
- A child without operating system passes for another platform when its architecture and variant read like
  it (`Platforms.MatchesAnyVariant` has the exact condition, `EmptyOsIsMistaken` an instance).
- A name with white space at an edge is appended to its sidecar at every request (`Sidecars.RecordedOnce`).
- A challenge's quoted values lose quotes at their ends, and a quote inside a value, the escape before it not
  being interpreted, can turn a comma of the value into a separator (`ChallengeRoundTrip.ValueKept`,
  `ChallengeExact.ParsesBackIff`).
- A `stop` that fails although the container stopped (as when it is cancelled) leaves that cache stopped: the
  deferred start is only registered after a stop without error (`GarbageCollection.OneCache`,
  `FleetKeptRunning`).

## Model

| member | source | states |
|---|---|---|
| `WarmTheorems.ClaimMap` | internal/cache/pull.go:253-256 | In every reachable state the claim map is the disjoint union of the initial claims, the blobs fetched (each once) and the claims held by one worker each; at the end its size is the initial claims plus the blobs fetched. What the initial claims are in pull-release is `ReleasePull.ReadRelease`. |
| `WarmTheorems.ClaimsAreExclusive` | internal/cache/pull.go:311-323 | A step starts a fetch only of a blob nobody fetches or has fetched, deletes only the worker's own claim, and leaves the others' claims alone. |
| `WarmTheorems.StaleClaimsAreSkipped` | internal/cache/pull.go:311-316 | A blob claimed before the pool starts is never fetched by it. |
| `WarmTheorems.SuccessIsGlobal` | internal/cache/pull.go:311-323 | When the pool has ended, each blob a successful result stands for was fetched (or claimed beforehand), or some other result failed on that very blob. |
| `WarmTheorems.NoErrorMeansAllFetched` | internal/cache/release.go:220-256 | If no result is an error, everything every image needs was fetched; for pinned manifests this is exactly what `Walked` and `ManifestNames` say. |
| `WarmOutcomes.WarmSucceedsIff` | internal/cache/pull.go:134-181 | In every run, whatever the schedule and the network do, warming an image of known manifests succeeds iff these make an image that can be warmed and no request made for it is answered with an error; errors met by others do not count, not even on blobs it shares with them. |
| `WarmOutcomes.MovesOf` | internal/cache/release.go:235-254 | Every run of the pool is made by moves of its workers and the answers they get, which is what the statement above speaks of. |
| `IndexWalk.WarmableIff` | internal/cache/pull.go:139-181 | What can be warmed: a decodable image manifest; or a decodable index of which every wanted child is one and, if a platform is asked for, some child is wanted. |
| `IndexWalk.WarmedChildren` | internal/cache/pull.go:157-180 | A successful warm of a pinned index has walked, in order, exactly the children of the operating system, architecture and variant asked for; without a variant those of that operating system and architecture; and without a platform all of them. |
| `SharedBlobs.ReliableIff` | internal/cache/pull.go:311-323 | Success means fetched, image by image in every run, iff there is one worker, or no image can claim an unclaimed blob that another one needs. |
| `SharedBlobs.UnpinnedReliableIff` | internal/cache/pull.go:259-264 | With nothing pinned: iff there is one worker, or no two references are pulled from the same repository of the same cache. |
| `SharedBlobs.PinnedReliableIff` | internal/cache/pull.go:311-323 | With everything pinned: iff there is one worker, or no image that can succeed shares, within a repository, an unclaimed blob with another image that can begin it. |
| `SharedBlobs.SuccessMayMislead` | internal/cache/pull.go:313-315 | For any references, at least two jobs and any such conflict there is a run in which the image succeeds and the blob it needs is never fetched. |
| `SharedBlobs.NoConflictHolds` | internal/cache/pull.go:311-323 | An image in no conflict succeeds only with all its blobs fetched, whatever becomes of the others. |
| `SharedBlobs.AloneHolds` | internal/cache/release.go:224-226 | With one worker every success means that the image's blobs were fetched or claimed beforehand. |
| `SharedBlobs.Drain` | internal/cache/release.go:235-255 | From any reachable state, failing requests alone bring the pool to its end, fetch nothing more and leave every stored result as it is. |
| `WarmTheorems.PoolDone` | internal/cache/release.go:222-256 | At the end there is one result for each index, with its reference, and the counter went through 1, 2, ..., n. |
| `WarmTheorems.PoolBounded` | internal/cache/release.go:224-231 | At most `jobs` references are in progress, one if `jobs` is below 1, each with one worker. |
| `WarmTheorems.ResultStoredOnce` | internal/cache/release.go:238 | A worker that stores a result finds its slot empty and fills only that one. |
| `WarmTheorems.NeverStuck` | internal/cache/release.go:235-254 | A worker that has not exited can always take a step. |
| `WarmTheorems.PoolTerminates` | internal/cache/release.go:250-255 | Every schedule of the workers ends, as long as each request does. |
| `WarmPool.StepInv` | internal/cache/pull.go:139-181 | Every step of every worker keeps the invariant: the partition of the claims, the blame for failed blobs, what each phase promises about the blobs walked, which manifests it stands for, and who owns which index. |
| `WarmPool.RunInv` | internal/cache/release.go:222-256 | The invariant holds throughout every run. |
| `Manifests.ParseIndex` | internal/cache/pull.go:189-215 | One entry for each child, in order, with its digest; the entry is wanted by an empty platform in any case, by one with a variant iff the child's three parts are its own, and by one without iff operating system and architecture are (or stand one place further on). |
| `Manifests.ListBlobs` | internal/cache/pull.go:302-310 | The blobs a warm walks: exactly the config and the layers that have a digest, the config first, in order. |
| `Manifests.NonEmptyMembers` | internal/cache/pull.go:306-310 | Exactly the layers with a digest are walked. |
| `Manifests.BlobsOnDisk` | internal/cache/coverage.go:159-180 | True iff the manifest decodes and its config (if any) and every layer are stored. |
| `Manifests.ImageOnDisk` | internal/cache/coverage.go:127-157 | Full iff manifest, every wanted child (at least one) and all their blobs are stored and readable; manifest iff the top one is stored. |
| `Manifests.ChildrenOnDisk` | internal/cache/coverage.go:143-156 | True iff some child is wanted and every wanted child is held. |
| `Manifests.FullIffWarmedContentHeld` | internal/cache/coverage.go:127-180 | Over any store, an image is full iff its warm can succeed, it has a wanted child, no layer lacks its digest, and the manifests and blobs the warm fetches are in the store. |
| `Manifests.FullIffHeld` | internal/cache/coverage.go:127-180 | Over any store at all, full means held: the store has, and can read back, every manifest a warm reads, that warm can succeed, some child is wanted, and config and every layer of each walked manifest are stored. |
| `Manifests.HeldIffFetched` | internal/cache/coverage.go:127-180 | Where no blob is stored without a digest, held means that the store has all the manifests and blobs the warm fetches and no layer lacks its digest. |
| `Manifests.FullIsMonotone` | internal/cache/coverage.go:124-127 | A full image stays full while the store grows. |
| `Manifests.FullForAllIsFullForEach` | internal/cache/coverage.go:143-149 | Full for all platforms implies full for each platform the image has. |
| `Payload.ParseImageReferences` | internal/cache/release.go:407-439 | Succeeds iff the payload decodes, is an ImageStream and some tag of it names an image by DockerImage; then gives the distinct image names. |
| `Payload.PayloadInOrder` | internal/cache/release.go:405-438 | Exactly the listed image names, ordered by where each is first listed. |
| `Release.MissingOnDisk` | internal/cache/release.go:155-189 | An error iff a reference's target lies in a store that cannot be read; otherwise exactly the references, in order, that are not on disk in full: without a target, or whose digest (their own, or the one their tag points at on disk) names no image that is held. |
| `Release.JudgeIff` | internal/cache/release.go:158-187 | The verdict on each reference is settled by whether its store can be read and by what is held there, for digests and for tags alike. |
| `Release.AbsentRefsMembers` | internal/cache/release.go:152-155 | A reference is reported iff it is asked for and its image is not complete on disk. |
| `Release.Account` | internal/cache/release.go:96-102 | After a round, `warmErr` holds a reference iff its latest warm attempt failed, with that failure. |
| `Release.ReportFailures` | internal/cache/release.go:137-150 | The lines logged are in order and name each failed image exactly once with its reason; there is an error iff something failed, and it counts those lines. |
| `Release.AccountFirst` | internal/cache/release.go:79-87 | After the first round `warmErr` holds the failures, as many as there are failed results, and the sum is that of the blobs the successes report. |
| `Release.LastAttemptRound` | internal/cache/release.go:93-103 | The latest attempt at a reference is that of the last round in which it was warmed, with the outcome of its own place there; there is none iff it was warmed in no round. |
| `Release.WarmRounds` | internal/cache/release.go:79-104 | At most two re-warms, each only after a check that found something missing; it stops before that only when nothing is missing or a store cannot be read, and ends with the last check's findings and the failures of the latest attempts. |
| `Release.WarmAndVerify` | internal/cache/release.go:79-125 | At most two re-warms. A verified report has no error iff release and payload are all on disk in full; it is honest: the count is the number of payload images on disk, each missing image is named, in the causes and in the lines logged, with the failure of its last attempt. An unverified one says what the warm saw. |
| `Release.HonestMeans` | internal/cache/release.go:106-124 | In terms of what the disk holds: a verified report has no error iff everything is there, names exactly what is not, counts what is, and gives as a cause the failure of the last attempt, or none if that did not fail. |
| `Release.VerifiedReport` | internal/cache/release.go:111-124 | The final count and the named causes follow from the last check alone, also where the release is one of its own payload images. |
| `Release.MissingCounts` | internal/cache/release.go:119-123 | How the missing list, its distinct members and the payload images on disk add up. |
| `ReleasePull.PullRelease` | internal/cache/release.go:38-125 | Refused exactly by its guards, or when the payload list cannot be found or a blob of the release image not be read; otherwise the claims handed to the first pool are the release's blobs, and rounds, counts and honest report follow. |
| `ReleasePull.ReadRelease` | internal/cache/release.go:50-69 | The claims left by reading and warming the release image are exactly the blobs it has read to the end; it succeeds iff the list is found and every blob of the image read. |
| `ReleasePull.ReleaseTarget` | internal/cache/release.go:42-56 | A release of a registry cache is looked for, warmed again and judged under the name it was read by. |
| `ReleasePull.SummaryCounts` | internal/cache/release.go:79-87 | The counts logged after the first warm: the successes, the blob references of the documents they stand for, and the number of different blobs fetched for release and payload together. |
| `ReleasePull.AttemptsAreOwn` | internal/cache/release.go:79-85 | What a round takes the attempt at its i-th reference to have ended in is the pool's own result for that reference. |
| `ReleasePull.ReleaseCompleteIff` | internal/cache/release.go:53-69 | What reading the release image has read makes it complete on disk iff the child that was read is the only one wanted and no layer of it lacks its digest. |
| `ReleasePull.CleanFirstWarmCompletes` | internal/cache/release.go:71-92 | After a faultless first warm whose fetches, and those of the reading, are all kept, everything is on disk at the first check, for pinned, well-formed images and a release whose one child is the only one wanted. |
| `ReleasePull.NothingMissing` | internal/cache/release.go:91-125 | With everything on disk at the first check there is no re-warm, and pull-release returns without an error. |
| `Convergence.CleanRoundStoresImage` | internal/cache/release.go:86-104 | After a round without errors whose fetches are all kept, a pinned image is complete on disk iff it is well-formed. |
| `Convergence.StaleClaimRepairsNothing` | internal/cache/release.go:96 | With a claim left from an earlier round on a blob that was not kept, no image needing it becomes complete: the fresh claim map is needed. |
| `Convergence.CleanRoundConverges` | internal/cache/release.go:91-104 | For pinned, well-formed images, one clean re-warm round ends the loop with nothing missing. |
| `Convergence.CleanRoundReportsSuccess` | internal/cache/release.go:91-125 | Then pull-release returns without an error. |
| `ReleasePull.VerifiableIff` | internal/cache/release.go:158-170 | Some content of the caches makes every reference pass the check iff a registry cache serves each of them. |
| `ReleasePull.UnservedNeverVerified` | internal/cache/release.go:258-269 | A reference that no registry cache serves, the release's own or one of the payload, is named in the error of every verified run. |
| `ReleasePull.BlobCacheReleaseNeverVerified` | internal/cache/release.go:46-49 | So a release on the blob cache's registry, which the guards accept, is always reported missing. |
| `Coverage.CoverPayload` | internal/cache/coverage.go:100-121 | An error iff a reference cannot be parsed; otherwise it counts the images of other registries, those held, and those of which only the top manifest is stored, and lists in order those of its registry that are not held; total = full + missing + elsewhere. |
| `Coverage.KindIff` | internal/cache/coverage.go:100-120 | An image counts as elsewhere, complete, manifest-only or missing exactly by its registry, by what is held of it, and by whether its top manifest is stored. |
| `Coverage.ReadPayload` | internal/cache/coverage.go:80-99 | The payload the release image on disk lists; only content the store has confirmed is read. |
| `Coverage.TaggedPayload` | internal/cache/coverage.go:83-90 | A release tag is resolved on disk: its payload is that of the digest it points at, none without. |
| `Coverage.ReleaseCoverage` | internal/cache/coverage.go:78-122 | Succeeds iff the payload can be read on disk and parsed, and then gives the images of each kind by number, the missing ones in a list, and accounts for all of them. |
| `Coverage.MissingInOrder` | internal/cache/coverage.go:110-120 | The missing list is an ordered subsequence of the payload. |
| `Coverage.KindsAgree` | internal/cache/coverage.go:110-120 | For a digest-pinned reference the coverage and the check of pull-release judge alike; a tag is always counted as missing. |
| `Coverage.ReferencesPlacedAlike` | internal/cache/release.go:158-170 | Both checks look for a reference of the cache's registry in the same place. |
| `Coverage.ChecksAgree` | internal/cache/release.go:152-155 | The two missing lists are equal iff no reference is a tag that points at a complete image. |
| `LayerSearch.FileInLayer` | internal/cache/release.go:350-381 | Found iff the layer can be opened and its first regular entry of that path (with or without `./`) can be read, with that entry's content; absent iff there is no such entry and the layer is not gzip or is sound gzip to its end; an error in exactly the other cases. |
| `LayerSearch.SelectChild` | internal/cache/release.go:291-296 | The first child that is wanted and no attestation; none iff there is none. |
| `LayerSearch.PlatformManifestIff` | internal/cache/release.go:275-298 | Of an index: the manifest of its first eligible child, if that is served, for linux/amd64 where no platform is asked for. |
| `LayerSearch.DefaultChild` | internal/cache/release.go:287-298 | Asked for no platform it is the first child whose parts say linux and amd64, or the first without operating system whose other two do. |
| `LayerSearch.PullClient.FileInBlob` | internal/cache/release.go:327-345 | A blob is marked seen iff it was read to the end without an error. |
| `LayerSearch.PullClient.FindFileInLayers` | internal/cache/release.go:303-323 | The result of the search from the top layer down; exactly the layers scanned are fetched and marked seen. |
| `LayerSearch.PullClient.WarmManifestBlobs` | internal/cache/pull.go:290-325 | Succeeds iff every blob is claimed already or can be read; then all are claimed. Every new claim is a blob read to the end, also where it stops at a failure. |
| `LayerSearch.TopmostLayerWins` | internal/cache/release.go:300-323 | A content is returned iff it is the file, told by the layer's entries, of the topmost layer that has it, all layers above being read through without it. |
| `LayerSearch.ScannedIff` | internal/cache/release.go:300-345 | The layers marked seen are exactly those that can be read to the end, with or without the file, all layers above being readable without it; also where the search fails. |
| `LayerSearch.ScannedDownTo` | internal/cache/release.go:300-302 | Then exactly that layer and those above it were drained and marked. |
| `LayerSearch.LocalPlatformManifest` | internal/cache/coverage.go:182-207 | Ends on every acyclic store, reads only manifests the store has confirmed, never returns an index. |
| `LayerSearch.LocalFileInLayers` | internal/cache/coverage.go:209-237 | The local search, with the blobs it reads. |
| `LayerSearch.LocalSearch` | internal/cache/coverage.go:218-236 | Only blobs the store has confirmed are read. |
| `LayerSearch.TopmostStoredWins` | internal/cache/coverage.go:218-236 | On disk a content is returned iff it is the file of the topmost layer that has it, all layers above being stored and readable without it: no missing layer is passed over. |
| `LayerSearch.ResolversAgree` | internal/cache/coverage.go:182-207 | The local resolver returns what the remote one does iff the child they select is not itself an index. |
| `LayerSearch.SearchesAgree` | internal/cache/coverage.go:209-237 | Over layers held on disk the two layer searches give the same. |
| `LayerSearch.LocalRefinesRemote` | internal/cache/coverage.go:33-36 | Reading the release on disk finds the file that reading it through the cache finds, or none where that finds none. |
| `DiskView.LayoutInverted` | internal/cache/coverage.go:259-262 | Taking a blob's path apart gives back its digest. |
| `DiskView.FoundIsStored` | internal/cache/coverage.go:253-265 | The digests read from the listing, in whatever order it prints, are those of the blobs stored. |
| `DiskView.LinkedIsLinked` | internal/cache/coverage.go:283-287 | The digests read from a listing of links are those linked; none when the listing failed. |
| `DiskView.DiskView.LoadBlobs` | internal/cache/coverage.go:253-265 | The view's blobs become those listed; a failure changes nothing. |
| `DiskView.DiskView.Links` | internal/cache/coverage.go:279-290 | A repository is listed once, a failed listing is kept as empty, and nothing else changes. |
| `DiskView.DiskView.Has` | internal/cache/coverage.go:267-276 | Links are listed only for content that is stored; the answer is what the view then holds. |
| `DiskView.KeptIsFirstListing` | internal/cache/coverage.go:278-289 | After any queries the view keeps, for each repository, the first listing made, and no other. |
| `DiskView.AnswerSettled` | internal/cache/coverage.go:267-290 | On a growing disk an answer is settled by the listing of blobs and the first listing of the repository's links. |
| `DiskView.AnswersBetween` | internal/cache/coverage.go:267-276 | A yes means stored and linked now; what was stored and linked when the view was made gets a yes, unless a listing failed. |
| `DiskView.AnswersExact` | internal/cache/coverage.go:267-276 | On an unchanging disk every answer is right, whatever was asked before. |
| `DiskView.AnswersByKind` | internal/cache/coverage.go:267-276 | And a blob is then looked for among the repository's layers, a manifest among its revisions. |
| `DiskView.FailedListingKept` | internal/cache/coverage.go:283-288 | After a failed listing every query of that repository is answered no. |
| `DiskView.CompleteThroughView` | internal/cache/coverage.go:127-157 | An image found complete by questions spread over a growing disk is complete on it at the end. |
| `BlobProxy.CommittedOnlyByRename` | internal/blobcache/blobcache.go:298-305 | Only a rename that works changes the committed files, and it commits bytes that hash to the digest. That sound downloads get there is `ProxyOutcomes.CommittedIff`. |
| `BlobProxy.StepInv` | internal/blobcache/blobcache.go:266-306 | Every step keeps: committed files hash to their names, each temporary file belongs to one live handler and holds what it copied. |
| `ProxyTheorems.CacheIntegrity` | internal/blobcache/blobcache.go:262-306 | For any interleaving, truncation, mismatch and hang-up every committed file hashes to its name, and handlers that have ended leave no temporary file. |
| `ProxyTheorems.UncommittedLeavesNoTrace` | internal/blobcache/blobcache.go:262-265 | A handler that has ended without committing has in none of its steps changed the committed files. |
| `ProxyTheorems.EndedLeavesNoTemp` | internal/blobcache/blobcache.go:282-283 | However a handler has ended, a temporary file it had at any time is no longer there. |
| `ProxyTheorems.StepRefines` | internal/blobcache/blobcache.go:293-305 | With an injective hash the directory only ever gains a digest with its bytes, even when two misses rename over one another. |
| `ProxyTheorems.AppendOnly` | internal/blobcache/blobcache.go:293-305 | A committed blob is never removed or altered. |
| `ProxyTheorems.RunHitsRight` | internal/blobcache/blobcache.go:203-214 | A hit serves the committed bytes with a Content-Length equal to their length. |
| `ProxyTheorems.LaterHandlersStayLocal` | internal/blobcache/blobcache.go:203-215 | A handler that looks after the commit goes upstream only if looking at or opening the file failed. |
| `ProxyTheorems.CommittedBlobIsServed` | internal/blobcache/blobcache.go:200-215 | So every later request for a committed blob that can open it gets its bytes without asking upstream. |
| `ProxyProgress.MissCommits` | internal/blobcache/blobcache.go:262-306 | However upstream cuts a body that hashes to the digest, a request left to itself commits it, and nothing else on disk has changed then. |
| `ProxyProgress.HitServes` | internal/blobcache/blobcache.go:200-215 | A request that finds its blob and is left to itself is served the blob under its length. |
| `ProxyProgress.MissThenHit` | internal/blobcache/blobcache.go:200-306 | From every reachable state a request that has turned to upstream has such a run, and the next request for the blob then gets the same bytes from the cache. |
| `ProxyOutcomes.RunKnown` | internal/blobcache/blobcache.go:200-306 | In every run each handler is where its own events have brought it, whatever the others do. |
| `ProxyOutcomes.EndsAsTold` | internal/blobcache/blobcache.go:200-306 | A request that has ended did so as its events say; in particular a download is not cached only if copying failed, a write was torn, the bytes do not hash to the digest, or the rename failed, and it goes upstream for a blob on disk only after its own look or open failed. |
| `ProxyOutcomes.CommittedIff` | internal/blobcache/blobcache.go:293-305 | It committed its blob iff upstream's body ended and the rename worked: no sound download goes uncached. |
| `ProxyOutcomes.UpstreamOnlyAfterFailure` | internal/blobcache/blobcache.go:203-215 | Once a blob is committed, a later request for it turns to upstream only if its own look at the file or its opening failed. |
| `ProxyOutcomes.MovesOf` | internal/blobcache/blobcache.go:200-306 | Every run is made by arrivals and events of handlers, which is what these statements speak of. |
| `Sidecars.ReadRepos` | internal/blobcache/blobcache.go:149-166 | Every non-empty trimmed line once, sorted. |
| `Sidecars.Recorder.RecordRepo` | internal/blobcache/blobcache.go:125-146 | The digest's file gains the repository unless it lists it already or cannot be written; all other files stay. |
| `Sidecars.Recorder.RecordTag` | internal/blobcache/blobcache.go:177-198 | The repository's file gains the tag in the same way; an empty repository changes nothing. |
| `Sidecars.NamesAppended` | internal/blobcache/blobcache.go:145 | Appending a line adds exactly its trimmed text to the names read back. |
| `Sidecars.RecordedOnce` | internal/blobcache/blobcache.go:132-136 | Recording a name again changes nothing iff the name is trimmed. |
| `Sidecars.SidecarIsTheSet` | internal/blobcache/blobcache.go:125-166 | After any calls the file lists each recorded name on one line, in order of first recording, and the names read back are those recorded. |
| `Sidecars.EachFileItsCalls` | internal/blobcache/blobcache.go:125-198 | After any mixture of requests about many blobs and repositories, each file is what the requests that concern it make of it. |
| `Sidecars.EachFileItsNames` | internal/blobcache/blobcache.go:125-198 | And it reads back as exactly the names requested for it: repositories for a blob, tags for a repository that has a name. |
| `Sidecars.ReadBackDependsOnNamesOnly` | internal/blobcache/blobcache.go:149-166 | Two histories that record the same names read back the same sorted list. |
| `Ordering.SortSorts` | internal/blobcache/blobcache.go:164 | Sorting distinct names gives the same names in increasing order. |
| `Ordering.LeqIff` | internal/blobcache/blobcache.go:164 | The order sorted by: a prefix first, otherwise the first difference decides. |
| `Ordering.SortOrders` | internal/cache/release.go:145 | Sorting any list orders it and loses nothing. |
| `Refs.ParseRef` | internal/cache/pull.go:43-71 | Hosts and repositories it yields are well-formed: a recognisable slash-free host, a non-empty repository without `@`, two segments for docker.io. |
| `Refs.UpstreamIndexForHost` | internal/cache/pull.go:73-80 | The first cache whose registry is the host. |
| `Refs.UpstreamIndex` | internal/cache/pull.go:73-80 | The first cache of the fleet for the registry; none iff there is none. |
| `Refs.ParseFullyWritten` | internal/cache/pull.go:43-71 | `host/repo@digest` comes back as its three parts (a bare docker.io repository under library/) for any first segment with a dot, a colon or localhost, and is refused iff the repository is empty and not docker.io's. |
| `Refs.ParseTagged` | internal/cache/pull.go:55-62 | The same for `host/repo:tag`. |
| `Refs.HostRecognised` | internal/cache/pull.go:46-54 | A first segment is taken for the registry iff it has a dot or a colon or is localhost; else it begins a docker.io repository. |
| `Refs.FullFormParsesBack` | internal/cache/pull.go:43-71 | Whatever form a reference was written in, its full form parses to the same triple. |
| `Refs.ImplicitHost` | internal/cache/pull.go:46-54 | Without a registry docker.io is meant. |
| `Refs.ImplicitTag` | internal/cache/pull.go:55-62 | Without tag or digest latest is meant. |
| `Refs.ImplicitLibrary` | internal/cache/pull.go:63-65 | Without a namespace library/ is meant. |
| `Refs.WarmTarget` | internal/cache/release.go:258-271 | A reference is warmed only through the registry cache of its parsed host. |
| `Refs.SeenKeyInjective` | internal/cache/pull.go:259-264 | Claims of different caches, repositories or digests never share a key. |
| `Platforms.MatchesAnyVariant` | internal/cache/pull.go:217-228 | A want without a variant takes a child, of whose slash-free parts any may be empty, iff operating system and architecture agree, or the child names no operating system and its architecture and variant stand in their places. |
| `Platforms.MatchesOneVariant` | internal/cache/pull.go:217-228 | A want with a variant takes a child iff all three parts agree, whatever parts of the child are empty. |
| `Platforms.NamedPlatform` | internal/cache/pull.go:205-211 | The platform string keeps all parts of a child that names its operating system; only unknown/unknown is an attestation. |
| `Platforms.NamelessPlatform` | internal/cache/pull.go:205-211 | Without an operating system, architecture and variant take the first two places; without a variant too, no slash is left. |
| `Platforms.EmptyOsIsMistaken` | internal/cache/pull.go:205 | A child without operating system can pass for another platform. |
| `Challenge.ParseChallenge` | internal/cache/pull.go:432-456 | The loop with its builder and quote flag collects the parameters of the parts cut at every comma preceded by no open quote. |
| `Challenge.ReadParts` | internal/cache/pull.go:435-455 | The same for any reading of the parts. |
| `Challenge.OddQuotes` | internal/cache/pull.go:445-447 | A quote is open iff an odd number of quotes was read. |
| `Challenge.PartsMore` | internal/cache/pull.go:444-453 | One more character begins a part or extends the last. |
| `ChallengeRoundTrip.ParsedKeysLower` | internal/cache/pull.go:440 | No key is read with a capital in it. |
| `ChallengeRoundTrip.CaseIgnored` | internal/cache/pull.go:440 | Keys that differ in case only are read alike. |
| `ChallengeRoundTrip.PlainKeyIff` | internal/cache/pull.go:440 | A key in the normal form used below is a trimmed one without capitals and separators. |
| `ChallengeRoundTrip.ReadBackIff` | internal/cache/pull.go:430-456 | Printed parameters with plain keys and any values, joined by commas and white space, are read back one by one in order iff no value has a quote at either end or a comma behind an odd number of quotes, and all but the last have an even number of quotes. |
| `ChallengeExact.ParsesBackIff` | internal/cache/pull.go:430-456 | With distinct plain keys, and any values, the printed list parses to exactly its map iff that same condition holds. |
| `ChallengeExact.NoPartToSpare` | internal/cache/pull.go:444-455 | A text that parses to the map of the list it prints is cut into as many parts as the list has parameters, each read as one of them. |
| `ChallengeExact.PartsJoined` | internal/cache/pull.go:444-453 | The parts joined by commas are the text. |
| `ChallengeRoundTrip.ParsesBack` | internal/cache/pull.go:430-456 | Then they parse to exactly their map, the last of a repeated key winning. |
| `ChallengeRoundTrip.QuoteFreeSurvives` | internal/cache/pull.go:430-431 | Values without quotes meet the condition: their commas, equals signs and edge spaces are kept. |
| `ChallengeRoundTrip.AsMapOfDistinct` | internal/cache/pull.go:440 | With distinct keys that map holds exactly the parameters listed. |
| `ChallengeRoundTrip.AsMapLast` | internal/cache/pull.go:440 | Of several parameters of one key the last counts. |
| `ChallengeRoundTrip.ValueKept` | internal/cache/pull.go:432-456 | One printed parameter, of any plain key and any value, parses to exactly itself iff the value has no quote at either end and no comma behind an odd number of quotes. |
| `GarbageCollection.Engine.GcOne` | internal/cache/cache.go:466-497 | Succeeds iff the image is found and the cache stopped, collected (or found empty) and started; otherwise the first failure is the error, the start's coming last. Every collection it runs carries the flag given. The commands and the caches then running, for every pattern of outcomes. |
| `GarbageCollection.Engine.GC` | internal/cache/cache.go:440-462 | The same for the fleet, ending at the first error: without one the caches that ran still run; every collection carries the flag given; only registry caches that ran are given any command. |
| `GarbageCollection.OneCache` | internal/cache/cache.go:466-497 | A cache is left stopped iff its stop failed but took effect or its start had none, and that is always reported. |
| `GarbageCollection.FleetKeptRunning` | internal/cache/cache.go:440-462 | The run fails iff some visit does; without an error the running set is unchanged; with one only the cache where it ended can be left stopped, with the exact condition. |
| `GarbageCollection.FleetSafe` | internal/cache/cache.go:432-497 | In every run collection happens only while the cache is stopped, every successful stop is followed by a start that cancellation does not reach, the blob cache is never touched, and untagged manifests are deleted iff that was asked. |
| `GarbageCollection.AllCollected` | internal/cache/cache.go:440-462 | A run without error collects every running registry cache once, in fleet order, and no other. |
| `GarbageCollection.EndsHere` | internal/cache/cache.go:458-460 | The run ends at a visit that fails. |

## Left out

- HTTP transport, TLS, the reverse proxy and the token exchange: a request ends in an answer or an error.
- The runtime's command line beyond the stop, collect and start of garbage collection; port discovery, volumes, `Up`, `Down`, `Status`.
- internal/cache/transfer.go, internal/cache/registries.go, internal/cache/list.go, main.go and systemd.go: streaming, text templates, display and flag handling.
- `Pull` and `pullOne` (internal/cache/pull.go): a sequential loop around the warm of one image, with printing.
- JSON, gzip and tar decoding and SHA-256 itself: datatypes and a function parameter.
- `stats` (internal/blobcache/blobcache.go): a listing of the directory with a sum and a sort, which would only add an easy member.
- `recordRepo` when its sidecar exists but cannot be read (it then appends a name again) and appends torn by a crash: files are read and appended whole.
- `tagDigest` (internal/cache/coverage.go): one file read; `Store.tags` says where each tag points.
- Wall-clock items and log wording, except the counts reported and the lines that name failed images.
- Unicode white space and case folding outside Latin-1 and ASCII.
- `path.Dir` and `path.Base` on paths with empty or dot segments, which the registry's layout has not.
- Other processes that stop or start containers during garbage collection.
