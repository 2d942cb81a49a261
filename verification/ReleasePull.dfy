/** pull-release as a whole (release.go, PullRelease): it reads the release image through its cache, warms
    that image and then the payload it lists, checks and warms again, and reports. */
module ReleasePull {
  import opened Text
  import opened Ordering
  import opened Platforms
  import opened Refs
  import opened Manifests
  import opened Payload
  import opened WarmPool
  import opened WarmTheorems
  import opened Release
  import opened Convergence
  import L = LayerSearch

  // ----- reading the release image ------------------------------------------------------------------

  /** What the cache answers while the release image is read and warmed, and the decoder of its payload list;
      readable says which blobs of it can be read to the end when it is warmed. */
  datatype Reading = Reading(net: L.Served, decode: string -> Option<ImageStream>, readable: string -> bool)

  function ReadPayload(rd: Reading, top: Name, platform: string): Option<seq<string>> {
    match L.RemoteFile(rd.net, top, platform, IMAGE_REFERENCES)
    case None => None
    case Some(raw) => Listed(rd.decode(raw))
  }

  /** The layers that searching the manifest for the payload list reads. */
  function Searched(rd: Reading, top: Name, m: Manifest): set<Name> {
    L.Scanned(rd.net, top.cache, top.repo, m.layers, IMAGE_REFERENCES)
  }

  /** Every blob of the release image that the search has not read can be read now. */
  predicate CanWarm(rd: Reading, top: Name, m: Manifest) {
    forall d :: d in BlobsToWarm(m) ==> Name(top.cache, top.repo, d) in Searched(rd, top, m) || rd.readable(d)
  }

  function ReleaseBlobs(rd: Reading, top: Name, m: Manifest): set<Name> {
    Searched(rd, top, m) + L.NamesIn(top.cache, top.repo, BlobsToWarm(m))
  }

  /** The manifest of the release image for the platform; None where it cannot be had or decoded. */
  function ReleaseManifest(rd: Reading, top: Name, platform: string): Option<Manifest> {
    match L.PlatformManifest(rd.net, top, platform)
    case None => None
    case Some(doc) => doc.manifest
  }

  /** The payload list is found and every blob of the release image is read. */
  predicate CanRead(rd: Reading, top: Name, platform: string) {
    && ReleaseManifest(rd, top, platform).Some? && ReadPayload(rd, top, platform).Some?
    && CanWarm(rd, top, ReleaseManifest(rd, top, platform).value)
  }

  /** The part of pull-release before it warms the payload. The claims it leaves are exactly the blobs it has
      read to the end; it succeeds iff the payload list is found and every blob of the release image read. */
  method ReadRelease(rd: Reading, top: Name, platform: string) returns (refs: Option<seq<string>>, claims: set<Name>, ghost fetched: set<Name>)
    ensures claims == fetched
    ensures refs.Some? <==> CanRead(rd, top, platform)
    ensures refs.Some? ==> refs == ReadPayload(rd, top, platform) && Distinct(refs.value)
    ensures refs.Some? ==> claims == ReleaseBlobs(rd, top, ReleaseManifest(rd, top, platform).value)
  {
    var pc := new L.PullClient(top.cache, top.repo);
    var doc := L.PlatformManifest(rd.net, top, platform);
    if doc.None? {
      return None, pc.seen, pc.fetched;
    }
    var raw := pc.FindFileInLayers(rd.net, doc.value, IMAGE_REFERENCES);
    if raw.None? {
      return None, pc.seen, pc.fetched;
    }
    refs := ParseImageReferences(rd.decode(raw.value));
    if refs.None? {
      return None, pc.seen, pc.fetched;
    }
    var warmed := pc.WarmManifestBlobs(doc.value, rd.readable);
    if !warmed {
      return None, pc.seen, pc.fetched;
    }
    return refs, pc.seen, pc.fetched;
  }

  // ----- the whole ----------------------------------------------------------------------------------

  /** The guards of pull-release: a positive number of jobs and a release of a registry the fleet knows. */
  predicate Accepts(ref: string, jobs: int) {
    jobs >= 1 && ParseRef(ref).Some? && UpstreamIndex(ParseRef(ref).value.host).Some?
  }

  /** Where the release image is read. */
  function ReleaseName(ref: string, jobs: int): (n: Name)
    requires Accepts(ref, jobs)
    ensures n.cache < |UPSTREAMS|
  {
    var p := ParseRef(ref).value;
    Name(UpstreamIndex(p.host).value, p.repo, p.ref)
  }

  /** A release of a registry cache is looked for, warmed again and judged where it was read. */
  lemma ReleaseTarget(ref: string, refs: seq<string>, jobs: int)
    requires Accepts(ref, jobs)
    ensures WarmTarget(ref).Some? <==> !UPSTREAMS[ReleaseName(ref, jobs).cache].blobcache
    ensures WarmTarget(ref).Some? ==> var at := TargetsOf([ref] + refs); ref in at && at[ref] == ReleaseName(ref, jobs)
  {
    assert ref in [ref] + refs;
  }

  /** pull-release; claims is what the shared map holds when the payload's pool starts. */
  method PullRelease(w: World, rd: Reading, ref: string, platform: string, jobs: int)
      returns (report: Report, n: nat, warmErr: map<string, Outcome>, summary: Summary, claims: set<Name>)
    ensures report.Refused? <==>
            || jobs < 1 || ParseRef(ref).None? || UpstreamIndex(ParseRef(ref).value.host).None?
            || !CanRead(rd, ReleaseName(ref, jobs), platform)
    ensures !report.Refused? ==>
            var top := ReleaseName(ref, jobs);
            var refs := ReadPayload(rd, top, platform).value; var all := [ref] + refs; var at := TargetsOf(all);
            && claims == ReleaseBlobs(rd, top, ReleaseManifest(rd, top, platform).value)
            && summary == SummaryOf(w, refs)
            && ReWarms(w, at, all, platform, n)
            && LatestFailures(warmErr, Attempts(w, at, refs, all, platform, n))
            && if FailsAt(w, at, all, platform, n)
               then report.Unverified? && Names(report.lines, FailureTexts(w, warmErr))
                    && report.err == if warmErr == map[] then None else Some(Failure(|warmErr|, |refs|))
               else report.Verified? && Honest(w, at, ref, refs, platform, n, report)
  {
    report, n, warmErr, summary, claims := Refused, 0, map[], Summary(0, 0, 0), {};
    if jobs < 1 {
      return;
    }
    var rf := ParseRef(ref);
    if rf.None? {
      return;
    }
    var idx := UpstreamIndexForHost(rf.value.host);
    if idx.None? {
      return;
    }
    var refs;
    ghost var fetched;
    refs, claims, fetched := ReadRelease(rd, Name(idx.value, rf.value.repo, rf.value.ref), platform);
    if refs.None? {
      return;
    }
    report, n, warmErr, summary := WarmAndVerify(w, TargetsOf([ref] + refs.value), ref, refs.value, platform);
  }

  /** The payload's pool is a complete run, starting from the claims that reading the release left. */
  ghost predicate FirstPool(w: World, c: Config) {
    Reachable(c, w.pool(0)) && Terminal(w.pool(0))
  }

  /** What a round's attempt at its i-th reference is taken to have ended in is the pool's own result for that
      reference. */
  lemma AttemptsAreOwn(w: World, k: nat, c: Config)
    requires Reachable(c, w.pool(k)) && Terminal(w.pool(k))
    ensures forall i :: 0 <= i < |c.refs| ==>
              && i in w.pool(k).results && RoundResults(w, k, c.refs)[i] == w.pool(k).results[i]
              && w.pool(k).results[i].ref == c.refs[i] && OutcomeIn(w.pool(k), i) == w.pool(k).results[i].outcome
  {
    PoolDone(c, w.pool(k));
  }

  /** The counts that the first warm logs: the successes, the blob references of the documents they stand for,
      and the number of different blobs fetched so far, for the release image and for its payload. */
  lemma SummaryCounts(w: World, c: Config)
    requires FirstPool(w, c)
    ensures var s, refs := w.pool(0), c.refs;
            && SummaryOf(w, refs).images == Successes(RoundResults(w, 0, refs))
            && SummaryOf(w, refs).references == References(RoundResults(w, 0, refs))
            && SummaryOf(w, refs).fetched == |c.claimed + Members(s.fetched)|
            && c.claimed !! Members(s.fetched)
  {
    var s := w.pool(0);
    ClaimMap(c, s);
    NothingHeld(s);
    var results := RoundResults(w, 0, c.refs);
    forall i | 0 <= i < |results| && results[i].outcome.Warmed?
      ensures results[i].outcome.blobs == BlobReferences(results[i].outcome.docs)
    {
      ReachableResults(c, s, i);
    }
    SumsAgree(results);
  }

  function Successes(results: seq<WarmResult>): nat {
    if results == [] then 0
    else Successes(results[..|results| - 1]) + if results[|results| - 1].outcome.Warmed? then 1 else 0
  }

  lemma {:induction false} SumsAgree(results: seq<WarmResult>)
    requires forall i :: 0 <= i < |results| && results[i].outcome.Warmed? ==>
               results[i].outcome.blobs == BlobReferences(results[i].outcome.docs)
    ensures BlobSum(results) == References(results) && |results| - Failures(results) == Successes(results)
  {
    if results != [] {
      SumsAgree(results[..|results| - 1]);
    }
  }

  // ----- what a faultless first warm leaves ---------------------------------------------------------

  /** The child that was read is the only one the check asks for. */
  predicate OnlyChild(doc: Document, platform: string)
    requires doc.index ==> doc.children.Some?
  {
    doc.index ==>
      var entries := Entries(doc.children.value);
      var first := L.FirstChild(entries, L.Wanted(platform));
      first.Some? && forall e :: e in entries && PlatformMatches(platform, e.plat) ==> e.digest == first.value.digest
  }

  /** The index does not list itself. */
  predicate NotItsOwnChild(doc: Document, n: Name)
    requires doc.index ==> doc.children.Some?
  {
    doc.index ==> forall e :: e in Entries(doc.children.value) ==> Name(n.cache, n.repo, e.digest) != n
  }

  /** The store holds of the release image exactly what reading it has read; stored is the name under which
      its manifest is kept, which differs from the one asked for where that is a tag. */
  ghost predicate HoldsWhatWasRead(rd: Reading, top: Name, platform: string, s: Store, stored: Name)
    requires CanRead(rd, top, platform)
  {
    var named, child := rd.net.manifests[top], L.Selected(rd.net.manifests[top], top, platform);
    && stored.cache == top.cache && stored.repo == top.repo && NotItsOwnChild(named, stored)
    && s.manifests == {stored} + (if child.Some? then {child.value} else {})
    && s.blobs == ReleaseBlobs(rd, top, ReleaseManifest(rd, top, platform).value)
    && stored in s.docs && s.docs[stored] == named
    && (child.Some? ==> child.value in s.docs && child.value in rd.net.manifests && s.docs[child.value] == rd.net.manifests[child.value])
  }

  lemma {:induction false} ScannedServed(net: L.Served, cache: nat, repo: string, layers: seq<string>, path: string)
    ensures forall n :: n in L.Scanned(net, cache, repo, layers, path) ==> n in net.blobs
  {
    if layers != [] {
      ScannedServed(net, cache, repo, layers[..|layers| - 1], path);
    }
  }

  /** Blobs without digest are never served. */
  predicate DigestsServed(net: L.Served) {
    forall n :: n in net.blobs ==> n.digest != ""
  }

  /** The blobs of the manifest that was read are held iff no layer of it lacks its digest. */
  lemma OwnBlobsHeld(rd: Reading, top: Name, platform: string, s: Store, doc: Document)
    requires CanRead(rd, top, platform) && DigestsServed(rd.net) && L.PlatformManifest(rd.net, top, platform) == Some(doc)
    requires s.blobs == ReleaseBlobs(rd, top, doc.manifest.value)
    ensures HoldsBlobs(s, top.cache, top.repo, doc) <==> LayersNamed([doc])
  {
    var m := doc.manifest.value;
    ScannedServed(rd.net, top.cache, top.repo, m.layers, IMAGE_REFERENCES);
    NonEmptyMembers(m.layers);
    HoldsBlobsIff(s, top.cache, top.repo, doc);
    assert BlobNames(top.cache, top.repo, [doc]) <= s.blobs;
  }

  /** Reading and warming the release image does not make it complete on disk by itself: of an index only one
      child is read, while the check asks for all that are wanted. What was read being all there is, the
      image is complete iff that child is the only one wanted and no layer of it lacks its digest. */
  lemma ReleaseCompleteIff(rd: Reading, top: Name, platform: string, s: Store, stored: Name)
    requires CanRead(rd, top, platform) && DigestsServed(rd.net) && HoldsWhatWasRead(rd, top, platform, s, stored)
    ensures Full(s, stored, platform) <==>
            OnlyChild(rd.net.manifests[top], platform) && LayersNamed([L.PlatformManifest(rd.net, top, platform).value])
  {
    var named, doc := rd.net.manifests[top], L.PlatformManifest(rd.net, top, platform).value;
    OwnBlobsHeld(rd, top, platform, s, doc);
    if named.index {
      IndexCompleteIff(rd, top, platform, s, stored);
    }
  }

  lemma IndexCompleteIff(rd: Reading, top: Name, platform: string, s: Store, stored: Name)
    requires CanRead(rd, top, platform) && DigestsServed(rd.net) && HoldsWhatWasRead(rd, top, platform, s, stored)
    requires rd.net.manifests[top].index
    ensures var doc := L.PlatformManifest(rd.net, top, platform).value;
            Full(s, stored, platform) <==> OnlyChild(rd.net.manifests[top], platform) && HoldsBlobs(s, top.cache, top.repo, doc)
  {
    var named := rd.net.manifests[top];
    var entries := Entries(named.children.value);
    var first := L.FirstChild(entries, L.Wanted(platform)).value;
    assert PlatformMatches(platform, first.plat);
    forall e | e in entries && PlatformMatches(platform, e.plat)
      ensures HoldsChild(s, top.cache, top.repo, e) <==>
              e.digest == first.digest && HoldsBlobs(s, top.cache, top.repo, L.PlatformManifest(rd.net, top, platform).value)
    {
      assert Name(top.cache, top.repo, e.digest) != stored;
    }
  }

  // ----- convergence without a re-warm --------------------------------------------------------------

  /** The name a reference is judged by: what its tag points at. */
  function StoredAs(n: Name, s: Store): Name {
    if !DigestPinned(n.digest) && n in s.tags then n.(digest := s.tags[n]) else n
  }

  /** The first warm goes without a fault: no result of its pool is an error, and the caches have kept what
      the pool and the reading of the release read in full. */
  ghost predicate CleanFirstWarm(w: World, rd: Reading, top: Name, platform: string, c: Config, read: Store)
    requires CanRead(rd, top, platform)
  {
    var s, store := w.pool(0), w.disk(0).store;
    && FirstPool(w, c) && AllWarmed(s) && Kept(s, store)
    && c.claimed == ReleaseBlobs(rd, top, ReleaseManifest(rd, top, platform).value)
    && HoldsWhatWasRead(rd, top, platform, read, StoredAs(top, store)) && Grows(read, store)
    && (DigestPinned(top.digest) || top in store.tags)
  }

  ghost predicate AllPresent(d: Disk, at: Targets, all: seq<string>, platform: string) {
    forall r :: r in all ==> Judge(d, at, r, platform).Present?
  }

  /** Then everything is on disk at the first check, if the payload's images are pinned and well-formed, and the
      release's one child that is read is the only one wanted. */
  lemma CleanFirstWarmCompletes(w: World, rd: Reading, top: Name, ref: string, at: Targets, platform: string, c: Config, read: Store)
    requires CanRead(rd, top, platform) && DigestsServed(rd.net) && CleanFirstWarm(w, rd, top, platform, c, read)
    requires OnlyChild(rd.net.manifests[top], platform) && LayersNamed([L.PlatformManifest(rd.net, top, platform).value])
    requires ref in at && at[ref] == top && c.target == at && c.platform == platform
    requires AllPinned(at, c.refs, platform, c.pinned) && Faithful(w.disk(0).store, c.pinned)
    requires !FailsAt(w, at, [ref] + c.refs, platform, 0)
    ensures AllPresent(w.disk(0), at, [ref] + c.refs, platform)
  {
    ReleasePresent(w, rd, top, ref, at, platform, c, read);
    forall r | r in [ref] + c.refs
      ensures Judge(w.disk(0), at, r, platform).Present?
    {
      if r != ref {
        PayloadPresent(w, at, platform, c, r);
      }
      assert !Judge(w.disk(0), at, r, platform).Unreadable?;
    }
  }

  /** With everything on disk at the first check there is no re-warm, and pull-release reports success. */
  lemma NothingMissing(w: World, at: Targets, ref: string, refs: seq<string>, platform: string, n: nat, report: Report)
    requires AllPresent(w.disk(0), at, [ref] + refs, platform) && ReWarms(w, at, [ref] + refs, platform, n)
    requires report.Verified? && Honest(w, at, ref, refs, platform, n, report)
    ensures n == 0 && report.err.None?
  {
    var all := [ref] + refs;
    AbsentRefsMembers(w.disk(0), at, all, platform);
    forall r | r in all
      ensures !Judge(w.disk(0), at, r, platform).Absent?
    {
      assert Judge(w.disk(0), at, r, platform).Present?;
    }
    assert MissingAt(w, at, all, platform, 0) == [];
  }

  lemma ReleasePresent(w: World, rd: Reading, top: Name, ref: string, at: Targets, platform: string, c: Config, read: Store)
    requires CanRead(rd, top, platform) && DigestsServed(rd.net) && CleanFirstWarm(w, rd, top, platform, c, read)
    requires OnlyChild(rd.net.manifests[top], platform) && LayersNamed([L.PlatformManifest(rd.net, top, platform).value])
    requires ref in at && at[ref] == top
    ensures !Judge(w.disk(0), at, ref, platform).Absent?
  {
    var store := w.disk(0).store;
    var stored := StoredAs(top, store);
    ReleaseCompleteIff(rd, top, platform, read, stored);
    FullIsMonotone(read, store, stored, platform);
  }

  lemma PayloadPresent(w: World, at: Targets, platform: string, c: Config, r: string)
    requires FirstPool(w, c) && AllWarmed(w.pool(0)) && Kept(w.pool(0), w.disk(0).store)
    requires c.claimed <= w.disk(0).store.blobs && Faithful(w.disk(0).store, c.pinned)
    requires c.target == at && c.platform == platform && AllPinned(at, c.refs, platform, c.pinned) && r in c.refs
    ensures !Judge(w.disk(0), at, r, platform).Absent?
  {
    var i: nat :| i < |c.refs| && c.refs[i] == r;
    CleanRoundStoresImage(c, w.pool(0), w.disk(0).store, i);
  }

  // ----- what can be verified at all ----------------------------------------------------------------

  /** Whatever the caches hold, a run can be verified only if a registry cache serves every reference, which
      warmRef and missingOnDisk both test; and then there are stores that would satisfy the check. */
  lemma VerifiableIff(all: seq<string>, platform: string)
    ensures (exists d :: AllPresent(d, TargetsOf(all), all, platform)) <==> forall r :: r in all ==> WarmTarget(r).Some?
  {
    var at := TargetsOf(all);
    if forall r :: r in all ==> WarmTarget(r).Some? {
      var d := CompleteDisk(at);
      forall r | r in all
        ensures Judge(d, at, r, platform).Present?
      {
        CompleteDiskHolds(at, r, platform);
      }
      assert AllPresent(d, at, all, platform);
    }
    forall d, r | r in all && WarmTarget(r).None?
      ensures !AllPresent(d, at, all, platform)
    {
      assert Judge(d, at, r, platform).Absent?;
    }
  }

  const EMPTY_IMAGE := Document(false, Some(Manifest("", [])), None)
  const SOME_DIGEST := "sha256:0"

  function Resolved(n: Name): Name {
    if DigestPinned(n.digest) then n else n.(digest := SOME_DIGEST)
  }

  /** A disk on which every target is an image without any blob. */
  function CompleteDisk(at: Targets): Disk {
    var names := set r | r in at :: Resolved(at[r]);
    Disk(Store(names, {}, map n | n in names :: EMPTY_IMAGE, map r | r in at :: at[r] := SOME_DIGEST), set r | r in at :: at[r].cache)
  }

  lemma CompleteDiskHolds(at: Targets, r: string, platform: string)
    requires r in at
    ensures Judge(CompleteDisk(at), at, r, platform).Present?
  {
    var d := CompleteDisk(at);
    assert Resolved(at[r]) in d.store.manifests;
    assert at[r].cache in d.readable;
    assert Full(d.store, Resolved(at[r]), platform);
  }

  /** A reference that no registry cache serves, the release's own or one of the payload, is named in the error
      of every verified run. */
  lemma UnservedNeverVerified(w: World, at: Targets, ref: string, refs: seq<string>, platform: string, n: nat, report: Report, r: string)
    requires at == TargetsOf([ref] + refs) && r in [ref] + refs && WarmTarget(r).None?
    requires report.Verified? && Honest(w, at, ref, refs, platform, n, report)
    ensures report.err.Some? && r in report.causes
  {
    assert Judge(w.disk(n), at, r, platform).Absent?;
  }

  /** So a release on the blob cache's registry, which is accepted, can never be verified. */
  lemma BlobCacheReleaseNeverVerified(w: World, ref: string, refs: seq<string>, platform: string, jobs: int, n: nat, report: Report)
    requires ParseRef(ref).Some? && UpstreamIndex(ParseRef(ref).value.host).Some?
    requires UPSTREAMS[UpstreamIndex(ParseRef(ref).value.host).value].blobcache
    requires report.Verified? && Honest(w, TargetsOf([ref] + refs), ref, refs, platform, n, report)
    ensures jobs >= 1 ==> Accepts(ref, jobs)
    ensures report.err.Some? && ref in report.causes
  {
    assert WarmTarget(ref).None?;
    assert ref in [ref] + refs;
    UnservedNeverVerified(w, TargetsOf([ref] + refs), ref, refs, platform, n, report, ref);
  }
}
