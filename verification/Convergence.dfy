/** When re-warming repairs what the caches did not keep. */
module Convergence {
  import opened Refs
  import opened Manifests
  import opened Ordering
  import opened WarmPool
  import opened WarmTheorems
  import opened Release

  /** The caches kept every manifest and blob that the pool read to the end. */
  predicate Kept(s: State, store: Store) {
    s.read <= store.manifests && Members(s.fetched) <= store.blobs
  }

  /** The image's manifests are fixed by digest, so what it consists of is known. */
  predicate Pinned(c: Config, i: nat) {
    i < |c.refs| && c.refs[i] in c.target && Known(c.pinned, Top(c, i), c.platform)
  }

  /** A wanted child exists and no layer lacks its digest. */
  predicate WellFormed(docs: map<Name, Document>, top: Name, platform: string)
    requires Known(docs, top, platform)
  {
    HasMatch(docs[top], platform) && LayersNamed(Walked(docs, top, platform))
  }

  /** After a round without errors, with no claim standing for a blob the caches lack and everything read in
      full kept, an image is complete on disk exactly when it is well-formed. */
  lemma CleanRoundStoresImage(c: Config, s: State, store: Store, i: nat)
    requires Reachable(c, s) && Terminal(s) && AllWarmed(s) && Pinned(c, i)
    requires c.claimed <= store.blobs && Kept(s, store) && Faithful(store, c.pinned)
    ensures Full(store, Top(c, i), c.platform) <==> WellFormed(c.pinned, Top(c, i), c.platform)
  {
    NoErrorMeansAllFetched(c, s, i);
    FullIffWarmedContentHeld(c.pinned, store, Top(c, i), c.platform);
  }

  /** A claim left from before a round stands in its way: a claimed blob that the caches did not keep is not
      fetched again, so no image that needs it becomes complete by anything the round does. */
  lemma StaleClaimRepairsNothing(c: Config, s: State, before: Store, after: Store, i: nat, n: Name)
    requires Reachable(c, s) && Pinned(c, i) && Faithful(after, c.pinned)
    requires n in c.claimed && n !in before.blobs && after.blobs <= before.blobs + Members(s.fetched)
    requires n in BlobNames(Top(c, i).cache, Top(c, i).repo, Walked(c.pinned, Top(c, i), c.platform))
    ensures !Full(after, Top(c, i), c.platform)
  {
    StaleClaimsAreSkipped(c, s);
    FullIffWarmedContentHeld(c.pinned, after, Top(c, i), c.platform);
    assert n !in Members(s.fetched);
  }

  /** One call of warmAll in a re-warm round: it starts with no claims. */
  function ReWarm(missing: seq<string>, at: Targets, platform: string, jobs: int, pinned: map<Name, Document>): Config {
    Config(missing, at, platform, jobs, {}, pinned)
  }

  /** Every reference names, by digest, a well-formed image of a registry cache. */
  predicate AllPinned(at: Targets, all: seq<string>, platform: string, pinned: map<Name, Document>) {
    forall r :: r in all ==>
      && r in at && DigestPinned(at[r].digest)
      && Known(pinned, at[r], platform) && WellFormed(pinned, at[r], platform)
  }

  /** Round k succeeds throughout: its pool, a run over what was missing, ends without an error, and what was on disk stays while everything read in full is added. */
  ghost predicate CleanRound(w: World, at: Targets, all: seq<string>, platform: string, jobs: int, pinned: map<Name, Document>, k: nat)
    requires k > 0
  {
    var c, s := ReWarm(MissingAt(w, at, all, platform, k - 1), at, platform, jobs, pinned), w.pool(k);
    && Reachable(c, s) && Terminal(s) && AllWarmed(s)
    && Kept(s, w.disk(k).store)
    && Grows(w.disk(k - 1).store, w.disk(k).store)
    && !FailsAt(w, at, all, platform, k)
  }

  /** Convergence: with digest-pinned, well-formed images, one clean re-warm round is enough, whenever it
      comes: the check after it finds nothing missing, so it is the last round. */
  lemma CleanRoundConverges(w: World, at: Targets, all: seq<string>, platform: string, jobs: int, pinned: map<Name, Document>,
                            n: nat, k: nat)
    requires ReWarms(w, at, all, platform, n) && 1 <= k <= n
    requires AllPinned(at, all, platform, pinned) && Faithful(w.disk(k).store, pinned)
    requires CleanRound(w, at, all, platform, jobs, pinned, k)
    ensures MissingAt(w, at, all, platform, k) == [] && n == k
  {
    var before, after := w.disk(k - 1), w.disk(k);
    var missing := MissingAt(w, at, all, platform, k - 1);
    AbsentRefsMembers(before, at, all, platform);
    AbsentRefsMembers(after, at, all, platform);
    forall r | r in all
      ensures !Judge(after, at, r, platform).Absent?
    {
      if r in missing {
        var i :| 0 <= i < |missing| && missing[i] == r;
        CleanRoundStoresImage(ReWarm(missing, at, platform, jobs, pinned), w.pool(k), after.store, i);
      } else {
        StaysPresent(w, at, all, platform, k, r);
      }
    }
  }

  lemma StaysPresent(w: World, at: Targets, all: seq<string>, platform: string, k: nat, r: string)
    requires k > 0 && r in all && r in at && DigestPinned(at[r].digest)
    requires !FailsAt(w, at, all, platform, k - 1) && !Judge(w.disk(k - 1), at, r, platform).Absent?
    requires Grows(w.disk(k - 1).store, w.disk(k).store)
    ensures !Judge(w.disk(k), at, r, platform).Absent?
  {
    FullIsMonotone(w.disk(k - 1).store, w.disk(k).store, at[r], platform);
  }

  /** Then pull-release returns without an error, whatever the rounds before found. */
  lemma CleanRoundReportsSuccess(w: World, at: Targets, ref: string, refs: seq<string>, platform: string, jobs: int,
                                 pinned: map<Name, Document>, n: nat, k: nat, report: Report)
    requires ReWarms(w, at, [ref] + refs, platform, n) && 1 <= k <= n
    requires AllPinned(at, [ref] + refs, platform, pinned) && Faithful(w.disk(k).store, pinned)
    requires CleanRound(w, at, [ref] + refs, platform, jobs, pinned, k)
    requires report.Verified? && Honest(w, at, ref, refs, platform, n, report)
    ensures report.err.None? && report.causes == map[]
  {
    var all := [ref] + refs;
    CleanRoundConverges(w, at, all, platform, jobs, pinned, n, k);
    AbsentRefsMembers(w.disk(n), at, all, platform);
    forall r | r in all
      ensures Judge(w.disk(n), at, r, platform).Present?
    {
      assert !Judge(w.disk(n), at, r, platform).Unreadable?;
    }
  }
}
