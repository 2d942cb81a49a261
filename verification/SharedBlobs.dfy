/** When the success of one image means that its blobs were fetched: exactly when no other image that the
    pool may pull at the same time can hold, and then lose, the claim of one of them. */
module SharedBlobs {
  import opened Text
  import opened Ordering
  import opened Platforms
  import opened Manifests
  import opened WarmPool
  import opened WarmTheorems

  // ----- what an attempt may walk -------------------------------------------------------------------

  /** The entries of an index that are wanted. */
  function WantedEntries(entries: seq<Entry>, platform: string): seq<Entry> {
    if entries == [] then []
    else (if PlatformMatches(platform, entries[0].plat) then [entries[0]] else []) + WantedEntries(entries[1..], platform)
  }

  predicate Agrees(c: Config, n: Name, doc: Document) {
    n in c.pinned ==> doc == c.pinned[n]
  }

  /** An attempt at refs[k] that is served top, and then docs for wanted children, may begin to walk docs. */
  predicate Begun(c: Config, k: nat, top: Document, docs: seq<Document>) {
    && k < |c.refs| && c.refs[k] in c.target && Agrees(c, Top(c, k), top)
    && (forall doc :: doc in docs ==> doc.manifest.Some?)
    && if !top.index then docs == [top]
       else
         && top.children.Some?
         && var wanted := WantedEntries(Entries(top.children.value), c.platform);
         && |docs| <= |wanted|
         && forall i :: 0 <= i < |docs| ==> Agrees(c, Name(Top(c, k).cache, Top(c, k).repo, wanted[i].digest), docs[i])
  }

  /** And it may succeed with them. */
  predicate Completed(c: Config, k: nat, top: Document, docs: seq<Document>) {
    && Begun(c, k, top, docs)
    && (top.index ==>
          && |docs| == |WantedEntries(Entries(top.children.value), c.platform)|
          && (c.platform != "" ==> docs != []))
  }

  /** Some attempt at refs[k] may claim n. */
  ghost predicate MayBegin(c: Config, k: nat, n: Name) {
    exists top, docs :: Begun(c, k, top, docs) && n in BlobNames(Top(c, k).cache, Top(c, k).repo, docs)
  }

  /** Some successful attempt at refs[k] needs n. */
  ghost predicate MayNeed(c: Config, k: nat, n: Name) {
    exists top, docs :: Completed(c, k, top, docs) && n in BlobNames(Top(c, k).cache, Top(c, k).repo, docs)
  }

  /** Refs[i] may claim, and then fail to fetch, a blob that refs[j] needs. */
  ghost predicate Conflict(c: Config, i: nat, j: nat, n: Name) {
    i != j && n !in c.claimed && MayBegin(c, i, n) && MayNeed(c, j, n)
  }

  // ----- every attempt is one of these --------------------------------------------------------------

  /** The job has been served top, and begun its docs; the wanted children that are left are those of rest. */
  ghost predicate Serving(c: Config, job: Job, top: Document) {
    && PullsTarget(c, job) && job.index == top.index && Begun(c, job.i, top, job.docs)
    && (top.index ==> WantedEntries(Entries(top.children.value), c.platform)[|job.docs|..] == WantedEntries(job.rest, c.platform))
  }

  ghost predicate Planned(c: Config, job: Job) {
    exists top :: Serving(c, job, top)
  }

  predicate WalksLast(job: Job, digs: seq<string>) {
    && job.docs != []
    && var last := job.docs[|job.docs| - 1]; last.manifest.Some? && digs == BlobsToWarm(last.manifest.value)
  }

  ghost predicate OutcomePlanned(c: Config, i: nat, outcome: Outcome) {
    match outcome
    case Warmed(_, _, docs) => exists top :: Completed(c, i, top, docs)
    case Failed(_, _, on) => on.Some? ==> MayBegin(c, i, on.value)
  }

  ghost predicate PhasePlanned(c: Config, p: Phase) {
    match p
    case Scan(job) => Planned(c, job) && job.index && job.manifests == |job.docs|
    case Walk(job, digs, k) => Planned(c, job) && WalksLast(job, digs) && job.manifests + 1 == |job.docs|
    case Fetch(job, digs, k, key) =>
      Planned(c, job) && WalksLast(job, digs) && job.manifests + 1 == |job.docs| && k < |digs| && key == Name(job.cache, job.repo, digs[k])
    case Release(job, key) => MayBegin(c, job.i, key)
    case Report(i, outcome) => OutcomePlanned(c, i, outcome)
    case _ => true
  }

  ghost predicate AllPlanned(c: Config, s: State) {
    && (forall w :: 0 <= w < |s.workers| ==> PhasePlanned(c, s.workers[w]))
    && (forall i :: i in s.results ==> OutcomePlanned(c, i, s.results[i].outcome))
  }

  lemma StartPlanned(c: Config, job: Job, doc: Document)
    requires doc.manifest.Some? ==> Planned(c, job.(docs := job.docs + [doc]))
    requires job.manifests == |job.docs|
    ensures PhasePlanned(c, StartWalk(job, doc))
  {
  }

  lemma OpenedPlanned(c: Config, i: nat, doc: Document)
    requires i < |c.refs| && c.refs[i] in c.target && Agrees(c, Top(c, i), doc)
    ensures PhasePlanned(c, Opened(i, Top(c, i), doc))
  {
    var job := Job(i, Top(c, i).cache, Top(c, i).repo, doc.index, [], [], 0, 0);
    if !doc.index {
      if doc.manifest.Some? {
        assert job.docs + [doc] == [doc];
        assert Serving(c, job.(docs := job.docs + [doc]), doc);
      }
      StartPlanned(c, job, doc);
    } else if doc.children.Some? {
      assert Serving(c, job.(rest := Entries(doc.children.value)), doc);
    }
  }

  lemma ScanPlanned(c: Config, next: nat, seen: set<Name>, job: Job, a: Answer)
    requires Ready(c, Scan(job), a) && PhasePlanned(c, Scan(job))
    ensures PhasePlanned(c, Next(c, next, seen, Scan(job), a).0)
  {
    var top :| Serving(c, job, top);
    if job.rest == [] {
      if job.manifests != 0 || c.platform == "" {
        assert Completed(c, job.i, top, job.docs);
      }
    } else {
      var later := job.(rest := job.rest[1..]);
      if !PlatformMatches(c.platform, job.rest[0].plat) {
        assert Serving(c, later, top);
      } else if a.Body? {
        if a.doc.manifest.Some? {
          ServedMore(c, job, top, a.doc);
        }
        StartPlanned(c, later, a.doc);
      }
    }
  }

  lemma ServedMore(c: Config, job: Job, top: Document, doc: Document)
    requires Serving(c, job, top) && top.index && job.rest != [] && PlatformMatches(c.platform, job.rest[0].plat)
    requires doc.manifest.Some? && Agrees(c, Name(job.cache, job.repo, job.rest[0].digest), doc)
    ensures Serving(c, job.(rest := job.rest[1..], docs := job.docs + [doc]), top)
  {
    var wanted := WantedEntries(Entries(top.children.value), c.platform);
    assert wanted[|job.docs|..][0] == job.rest[0];
    assert wanted[|job.docs| + 1..] == wanted[|job.docs|..][1..];
  }

  lemma LastBlobs(job: Job, digs: seq<string>, k: nat)
    requires WalksLast(job, digs) && k < |digs|
    ensures Name(job.cache, job.repo, digs[k]) in BlobNames(job.cache, job.repo, job.docs)
  {
    assert job.docs[|job.docs| - 1] in job.docs;
  }

  lemma WalkPlanned(c: Config, next: nat, seen: set<Name>, job: Job, digs: seq<string>, k: nat)
    requires k <= |digs| && PhasePlanned(c, Walk(job, digs, k))
    ensures PhasePlanned(c, Next(c, next, seen, Walk(job, digs, k), Error).0)
  {
    var top :| Serving(c, job, top);
    if k == |digs| {
      var counted := Counted(job, |digs|);
      assert Serving(c, counted, top);
      if !job.index {
        assert Completed(c, job.i, top, job.docs);
      }
    }
  }

  lemma NextPlanned(c: Config, next: nat, seen: set<Name>, p: Phase, a: Answer)
    requires Ready(c, p, a) && PhasePlanned(c, p)
    ensures PhasePlanned(c, Next(c, next, seen, p, a).0)
  {
    match p
    case Resolve(i) =>
      if a.Body? && c.refs[i] in c.target {
        OpenedPlanned(c, i, a.doc);
      }
    case Scan(job) => ScanPlanned(c, next, seen, job, a);
    case Walk(job, digs, k) => WalkPlanned(c, next, seen, job, digs, k);
    case Fetch(job, digs, k, key) =>
      var top :| Serving(c, job, top);
      LastBlobs(job, digs, k);
      assert Begun(c, job.i, top, job.docs);
    case _ =>
  }

  lemma StepPlanned(c: Config, s: State, w: nat, a: Answer)
    requires Enabled(c, s, w, a) && AllPlanned(c, s)
    ensures AllPlanned(c, Advance(c, s, w, a))
  {
    NextPlanned(c, s.next, s.seen, s.workers[w], a);
    EffectOnOwner(c, s.next, s.seen, s.workers[w], a);
    var (p, e) := Next(c, s.next, s.seen, s.workers[w], a);
    PlannedKept(c, s, Advance(c, s, w, a), w, p, e);
  }

  lemma PlannedKept(c: Config, s: State, s': State, w: nat, p: Phase, e: Effect)
    requires Moved(c, s, s', w, p, e) && AllPlanned(c, s) && PhasePlanned(c, p)
    requires e.Record? ==> s.workers[w] == Report(e.i, e.outcome)
    ensures AllPlanned(c, s')
  {
    assert PhasePlanned(c, s.workers[w]);
    forall v | 0 <= v < |s'.workers|
      ensures PhasePlanned(c, s'.workers[v])
    {
      if v != w {
        assert PhasePlanned(c, s.workers[v]);
      }
    }
  }

  lemma {:induction false} RunPlanned(c: Config, run: seq<State>, k: nat)
    requires Run(c, run) && k < |run|
    ensures AllPlanned(c, run[k])
  {
    if k > 0 {
      RunPlanned(c, run, k - 1);
      assert Step(c, run[k - 1], run[k - 1 + 1]);
      var w, a :| Enabled(c, run[k - 1], w, a) && run[k - 1 + 1] == Advance(c, run[k - 1], w, a);
      StepPlanned(c, run[k - 1], w, a);
    }
  }

  lemma ReachableResultPlanned(c: Config, s: State, i: nat)
    requires Reachable(c, s) && i in s.results
    ensures OutcomePlanned(c, i, s.results[i].outcome)
  {
    var run :| Run(c, run) && run[|run| - 1] == s;
    RunPlanned(c, run, |run| - 1);
  }

  // ----- no conflict, no surprise -------------------------------------------------------------------

  /** A successful result's blobs have been fetched, in this pool or under an earlier claim. */
  ghost predicate ResultHolds(c: Config, s: State, i: nat) {
    i in s.results && s.results[i].outcome.Warmed? ==>
      && i < |c.refs| && c.refs[i] in c.target
      && NeededBlobs(c, s, i) <= c.claimed + Members(s.fetched)
  }

  /** In every run, whatever the schedule and the network do, success means fetched. */
  ghost predicate Reliable(c: Config) {
    forall s, i :: Reachable(c, s) && Terminal(s) ==> ResultHolds(c, s, i)
  }

  lemma NoConflictHolds(c: Config, s: State, j: nat)
    requires Reachable(c, s) && Terminal(s) && forall i, n :: !Conflict(c, i, j, n)
    ensures ResultHolds(c, s, j)
  {
    if j in s.results && s.results[j].outcome.Warmed? {
      SuccessIsGlobal(c, s, j);
      forall n | n in NeededBlobs(c, s, j)
        ensures n in c.claimed + Members(s.fetched)
      {
        if n !in c.claimed && n !in s.fetched {
          var i :| i != j && FailedOn(s, i, n);
          FailureConflicts(c, s, i, j, n);
          assert false;
        }
      }
    }
  }

  lemma FailureConflicts(c: Config, s: State, i: nat, j: nat, n: Name)
    requires Reachable(c, s) && i != j && FailedOn(s, i, n) && n !in c.claimed
    requires j in s.results && s.results[j].outcome.Warmed? && j < |c.refs| && c.refs[j] in c.target && n in NeededBlobs(c, s, j)
    ensures Conflict(c, i, j, n)
  {
    ReachableResultPlanned(c, s, i);
    ReachableResultPlanned(c, s, j);
    var top :| Completed(c, j, top, s.results[j].outcome.docs);
  }

  // ----- one worker ---------------------------------------------------------------------------------

  function Secured(c: Config, s: State): set<Name> {
    c.claimed + Members(s.fetched)
  }

  /** A worker alone passes only over blobs that are fetched or were claimed before. */
  lemma AloneSecured(c: Config, s: State, a: Answer)
    requires ClaimsPartition(c, s) && |s.workers| == 1 && Enabled(c, s, 0, a) && PhaseTraced(c, s, s.workers[0])
    requires Promises(c, s, Secured(c, s))
    ensures var s' := Advance(c, s, 0, a); Promises(c, s', Secured(c, s'))
  {
    var before, s' := s.workers[0], Advance(c, s, 0, a);
    var (p, e) := Next(c, s.next, s.seen, before, a);
    EffectOnOwner(c, s.next, s.seen, before, a);
    assert PhaseSettled(c, Secured(c, s), before);
    if before.Walk? {
      AloneSeen(c, s);
    }
    if before.Fetch? && !a.Error? {
      assert s'.fetched == s.fetched + [before.key];
      MembersMore(s.fetched, before.key);
    }
    assert Secured(c, s) <= Secured(c, s');
    MoverSettled(c, s.next, s.seen, Secured(c, s), Secured(c, s'), before, a);
    PromisesKept(c, s, s', 0, p, e, Secured(c, s), Secured(c, s'));
  }

  lemma AloneSeen(c: Config, s: State)
    requires ClaimsPartition(c, s) && |s.workers| == 1 && s.workers[0].Walk?
    ensures s.seen <= Secured(c, s)
  {
    assert forall w, n :: !Holds(s, w, n);
  }

  ghost predicate OneSecured(c: Config, s: State) {
    |s.workers| == 1 && Promises(c, s, Secured(c, s))
  }

  lemma InitSecured(c: Config)
    requires c.jobs <= 1
    ensures OneSecured(c, Init(c))
  {
  }

  lemma InvAt(c: Config, run: seq<State>, k: nat)
    requires Run(c, run) && k < |run|
    ensures ClaimsPartition(c, run[k])
    ensures |run[k].workers| > 0 ==> PhaseTraced(c, run[k], run[k].workers[0])
  {
    RunInv(c, run, k);
  }

  lemma AloneStep(c: Config, run: seq<State>, k: nat) returns (a: Answer)
    requires Run(c, run) && k + 1 < |run| && |run[k].workers| == 1
    ensures Enabled(c, run[k], 0, a) && run[k + 1] == Advance(c, run[k], 0, a)
  {
    assert Step(c, run[k], run[k + 1]);
    var w;
    w, a :| Enabled(c, run[k], w, a) && run[k + 1] == Advance(c, run[k], w, a);
  }

  lemma StepSecured(c: Config, run: seq<State>, k: nat)
    requires Run(c, run) && k + 1 < |run| && OneSecured(c, run[k])
    ensures OneSecured(c, run[k + 1])
  {
    InvAt(c, run, k);
    var a := AloneStep(c, run, k);
    var s, s' := run[k], Advance(c, run[k], 0, a);
    assert |s'.workers| == 1;
    AloneSecured(c, s, a);
    assert OneSecured(c, s');
  }

  lemma RunSecured(c: Config, run: seq<State>)
    requires Run(c, run) && c.jobs <= 1
    ensures OneSecured(c, run[|run| - 1])
  {
    InitSecured(c);
    forall k: nat | k + 1 < |run| && OneSecured(c, run[k])
      ensures OneSecured(c, run[k + 1])
    {
      StepSecured(c, run, k);
    }
    ChainSecured(c, run, |run| - 1);
  }

  lemma {:induction false} ChainSecured(c: Config, run: seq<State>, k: nat)
    requires k < |run| && OneSecured(c, run[0])
    requires forall m: nat :: m + 1 < |run| && OneSecured(c, run[m]) ==> OneSecured(c, run[m + 1])
    ensures OneSecured(c, run[k])
  {
    if k > 0 {
      ChainSecured(c, run, k - 1);
      assert OneSecured(c, run[k - 1 + 1]);
    }
  }

  lemma AloneHolds(c: Config, s: State, i: nat)
    requires Reachable(c, s) && c.jobs <= 1
    ensures ResultHolds(c, s, i)
  {
    var run :| Run(c, run) && run[|run| - 1] == s;
    RunSecured(c, run);
    if i in s.results && s.results[i].outcome.Warmed? {
      assert OutcomeSettled(c, Secured(c, s), i, s.results[i].outcome);
    }
  }

  // ----- driving workers ----------------------------------------------------------------------------

  lemma Go(c: Config, s: State, w: nat, a: Answer) returns (s': State)
    requires Reachable(c, s) && Enabled(c, s, w, a)
    ensures Reachable(c, s') && s' == Advance(c, s, w, a)
  {
    Extend(c, s, w, a);
    s' := Advance(c, s, w, a);
  }

  /** Worker w has moved on, perhaps fetching; nothing else is different, and n has not been fetched. */
  ghost predicate Went(s: State, s': State, w: nat, n: Name) {
    && w < |s.workers| && |s'.workers| == |s.workers|
    && s'.workers == s.workers[w := s'.workers[w]]
    && s'.next == s.next && s'.results == s.results && n !in s'.fetched
  }

  /** The worker passes over the blobs of a manifest, fetching those that are not claimed; n is not among
      these. */
  lemma {:induction false} WalkPast(c: Config, s: State, w: nat, job: Job, digs: seq<string>, k: nat, n: Name) returns (s': State)
    requires Reachable(c, s) && w < |s.workers| && s.workers[w] == Walk(job, digs, k) && k <= |digs| && n !in s.fetched
    requires n in s.seen || forall d :: d in digs ==> Name(job.cache, job.repo, d) != n
    ensures Reachable(c, s') && Went(s, s', w, n) && s'.workers[w] == Walk(job, digs, |digs|)
    ensures n in s'.seen <==> n in s.seen
    decreases |digs| - k
  {
    s' := s;
    if k < |digs| {
      var key := Name(job.cache, job.repo, digs[k]);
      var claimed := key in s.seen;
      s' := Go(c, s, w, Error);
      if !claimed {
        s' := Go(c, s', w, Complete);
      }
      s' := WalkPast(c, s', w, job, digs, k + 1, n);
    }
  }

  /** The worker goes on until it claims n. */
  lemma {:induction false} WalkTo(c: Config, s: State, w: nat, job: Job, digs: seq<string>, k: nat, n: Name) returns (s': State)
    requires Reachable(c, s) && w < |s.workers| && s.workers[w] == Walk(job, digs, k) && k <= |digs| && n !in s.fetched && n !in s.seen
    requires exists j :: k <= j < |digs| && Name(job.cache, job.repo, digs[j]) == n
    ensures Reachable(c, s') && Went(s, s', w, n) && n in s'.seen && s'.workers[w].Fetch? && s'.workers[w].key == n
    decreases |digs| - k
  {
    var key := Name(job.cache, job.repo, digs[k]);
    var claimed := key in s.seen;
    s' := Go(c, s, w, Error);
    if key != n {
      if !claimed {
        s' := Go(c, s', w, Complete);
      }
      s' := WalkTo(c, s', w, job, digs, k + 1, n);
    }
  }

  /** The documents served for the first of the wanted entries. */
  predicate ServesFirst(c: Config, job: Job, docs: seq<Document>) {
    && (forall doc :: doc in docs ==> doc.manifest.Some?)
    && var wanted := WantedEntries(job.rest, c.platform);
    && |docs| <= |wanted|
    && forall i :: 0 <= i < |docs| ==> Agrees(c, Name(job.cache, job.repo, wanted[i].digest), docs[i])
  }

  lemma ServesRest(c: Config, job: Job, docs: seq<Document>)
    requires ServesFirst(c, job, docs) && job.rest != []
    ensures !PlatformMatches(c.platform, job.rest[0].plat) ==> ServesFirst(c, job.(rest := job.rest[1..]), docs)
    ensures PlatformMatches(c.platform, job.rest[0].plat) && docs != [] ==>
              Agrees(c, Name(job.cache, job.repo, job.rest[0].digest), docs[0]) && ServesFirst(c, job.(rest := job.rest[1..]), docs[1..])
  {
    var wanted := WantedEntries(job.rest, c.platform);
    if PlatformMatches(c.platform, job.rest[0].plat) {
      assert wanted[0] == job.rest[0] && wanted[1..] == WantedEntries(job.rest[1..], c.platform);
    }
  }

  lemma BlobIn(cache: nat, repo: string, docs: seq<Document>, n: Name)
    requires n in BlobNames(cache, repo, docs) && docs != []
    ensures var m := docs[0].manifest;
            (m.Some? && n.digest in BlobsToWarm(m.value) && n == Name(cache, repo, n.digest)) || n in BlobNames(cache, repo, docs[1..])
  {
  }

  lemma WentOn(s: State, s1: State, s2: State, w: nat, n: Name)
    requires Went(s, s1, w, n) && Went(s1, s2, w, n)
    ensures Went(s, s2, w, n)
  {
    assert s1.workers[w := s2.workers[w]] == s.workers[w := s2.workers[w]];
  }

  lemma SkipEntry(c: Config, s: State, w: nat, job: Job, n: Name) returns (s': State)
    requires Reachable(c, s) && w < |s.workers| && s.workers[w] == Scan(job) && n !in s.fetched
    requires job.rest != [] && !PlatformMatches(c.platform, job.rest[0].plat)
    ensures Reachable(c, s') && Went(s, s', w, n) && s'.seen == s.seen && s'.workers[w] == Scan(job.(rest := job.rest[1..]))
  {
    s' := Go(c, s, w, Error);
  }

  /** The job once the next wanted child has been served. */
  function Taking(job: Job, doc: Document): Job
    requires job.rest != []
  {
    job.(rest := job.rest[1..], docs := job.docs + [doc])
  }

  lemma TakeEntry(c: Config, s: State, w: nat, job: Job, doc: Document, n: Name) returns (s': State)
    requires Reachable(c, s) && w < |s.workers| && s.workers[w] == Scan(job) && n !in s.fetched
    requires job.rest != [] && PlatformMatches(c.platform, job.rest[0].plat) && doc.manifest.Some?
    requires Agrees(c, Name(job.cache, job.repo, job.rest[0].digest), doc)
    ensures Reachable(c, s') && Went(s, s', w, n) && s'.seen == s.seen
    ensures s'.workers[w] == Walk(Taking(job, doc), BlobsToWarm(doc.manifest.value), 0)
  {
    s' := Go(c, s, w, Body(doc));
  }

  /** The worker walks a whole manifest of an index and goes back to scanning. */
  lemma WalkOff(c: Config, s: State, w: nat, job: Job, digs: seq<string>, n: Name) returns (s': State)
    requires Reachable(c, s) && w < |s.workers| && s.workers[w] == Walk(job, digs, 0) && job.index && n !in s.fetched
    requires n in s.seen || forall d :: d in digs ==> Name(job.cache, job.repo, d) != n
    ensures Reachable(c, s') && Went(s, s', w, n) && (n in s'.seen <==> n in s.seen)
    ensures s'.workers[w] == Scan(Counted(job, |digs|))
  {
    var s1 := WalkPast(c, s, w, job, digs, 0, n);
    s' := Go(c, s1, w, Error);
    WentOn(s, s1, s', w, n);
  }

  /** The worker scans an index until it claims n, which some document still to be served names. */
  lemma {:induction false} ScanTo(c: Config, s: State, w: nat, job: Job, docs: seq<Document>, n: Name) returns (s': State)
    requires Reachable(c, s) && w < |s.workers| && s.workers[w] == Scan(job) && job.index && n !in s.fetched && n !in s.seen
    requires ServesFirst(c, job, docs) && n in BlobNames(job.cache, job.repo, docs)
    ensures Reachable(c, s') && Went(s, s', w, n) && n in s'.seen && s'.workers[w].Fetch? && s'.workers[w].key == n
    decreases |job.rest|
  {
    ServesRest(c, job, docs);
    if !PlatformMatches(c.platform, job.rest[0].plat) {
      var s1 := SkipEntry(c, s, w, job, n);
      s' := ScanTo(c, s1, w, job.(rest := job.rest[1..]), docs, n);
      WentOn(s, s1, s', w, n);
    } else {
      var doc := docs[0];
      BlobIn(job.cache, job.repo, docs, n);
      var s1 := TakeEntry(c, s, w, job, doc, n);
      var s2 := TakenTo(c, s1, w, Taking(job, doc), BlobsToWarm(doc.manifest.value), n);
      WentOn(s, s1, s2, w, n);
      s' := s2;
      if s2.workers[w].Scan? {
        s' := ScanTo(c, s2, w, s2.workers[w].job, docs[1..], n);
        WentOn(s, s2, s', w, n);
      }
    }
  }

  /** The worker walks a manifest up to n, if it is there, and else off its end. */
  lemma TakenTo(c: Config, s: State, w: nat, job: Job, digs: seq<string>, n: Name) returns (s': State)
    requires Reachable(c, s) && w < |s.workers| && s.workers[w] == Walk(job, digs, 0) && job.index && n !in s.fetched && n !in s.seen
    ensures Reachable(c, s') && Went(s, s', w, n)
    ensures if exists d :: d in digs && Name(job.cache, job.repo, d) == n
            then n in s'.seen && s'.workers[w].Fetch? && s'.workers[w].key == n
            else n !in s'.seen && s'.workers[w] == Scan(Counted(job, |digs|))
  {
    if d :| d in digs && Name(job.cache, job.repo, d) == n {
      var j :| 0 <= j < |digs| && digs[j] == d;
      s' := WalkTo(c, s, w, job, digs, 0, n);
    } else {
      s' := WalkOff(c, s, w, job, digs, n);
    }
  }

  /** Documents for all wanted entries that are left, enough for a success. */
  predicate ServesAll(c: Config, job: Job, docs: seq<Document>) {
    && ServesFirst(c, job, docs) && |docs| == |WantedEntries(job.rest, c.platform)|
    && (c.platform != "" ==> job.manifests + |docs| > 0)
  }

  /** The job once the next wanted child has been served and walked. */
  function Taken(job: Job, doc: Document): Job
    requires job.rest != [] && doc.manifest.Some?
  {
    Counted(Taking(job, doc), |BlobsToWarm(doc.manifest.value)|)
  }

  lemma ServesAllRest(c: Config, job: Job, docs: seq<Document>)
    requires ServesAll(c, job, docs) && job.rest != []
    ensures if PlatformMatches(c.platform, job.rest[0].plat)
            then docs != [] && docs[0].manifest.Some? && Agrees(c, Name(job.cache, job.repo, job.rest[0].digest), docs[0])
                 && ServesAll(c, Taken(job, docs[0]), docs[1..]) && Taken(job, docs[0]).docs + docs[1..] == job.docs + docs
            else ServesAll(c, job.(rest := job.rest[1..]), docs)
  {
    ServesRest(c, job, docs);
    var wanted := WantedEntries(job.rest, c.platform);
    if PlatformMatches(c.platform, job.rest[0].plat) {
      assert wanted == [job.rest[0]] + WantedEntries(job.rest[1..], c.platform);
      assert docs[0] in docs;
      assert job.docs + [docs[0]] + docs[1..] == job.docs + docs;
    }
  }

  lemma TakeWhole(c: Config, s: State, w: nat, job: Job, doc: Document, n: Name) returns (s': State)
    requires Reachable(c, s) && w < |s.workers| && s.workers[w] == Scan(job) && job.index && n !in s.fetched && n in s.seen
    requires job.rest != [] && PlatformMatches(c.platform, job.rest[0].plat) && doc.manifest.Some?
    requires Agrees(c, Name(job.cache, job.repo, job.rest[0].digest), doc)
    ensures Reachable(c, s') && Went(s, s', w, n) && n in s'.seen
    ensures s'.workers[w] == Scan(Taken(job, doc))
  {
    var s1 := TakeEntry(c, s, w, job, doc, n);
    s' := WalkOff(c, s1, w, Taking(job, doc), BlobsToWarm(doc.manifest.value), n);
    WentOn(s, s1, s', w, n);
  }

  /** The worker scans an index to its end while n is claimed, and has a success to report. */
  lemma {:induction false} ScanThrough(c: Config, s: State, w: nat, job: Job, docs: seq<Document>, n: Name) returns (s': State)
    requires Reachable(c, s) && w < |s.workers| && s.workers[w] == Scan(job) && job.index && n !in s.fetched && n in s.seen
    requires ServesAll(c, job, docs)
    ensures Reachable(c, s') && Went(s, s', w, n) && ReportsSuccess(s'.workers[w], job.i, job.docs + docs)
    decreases |job.rest|
  {
    if job.rest == [] {
      s' := ScanEnd(c, s, w, job, n);
      assert job.docs + docs == job.docs;
    } else {
      ServesAllRest(c, job, docs);
      var s1;
      if !PlatformMatches(c.platform, job.rest[0].plat) {
        s1 := SkipEntry(c, s, w, job, n);
        s' := ScanThrough(c, s1, w, job.(rest := job.rest[1..]), docs, n);
      } else {
        s1 := TakeWhole(c, s, w, job, docs[0], n);
        s' := ScanThrough(c, s1, w, Taken(job, docs[0]), docs[1..], n);
      }
      WentOn(s, s1, s', w, n);
    }
  }

  predicate ReportsSuccess(p: Phase, k: nat, docs: seq<Document>) {
    p.Report? && p.i == k && p.outcome.Warmed? && p.outcome.docs == docs
  }

  lemma ScanEnd(c: Config, s: State, w: nat, job: Job, n: Name) returns (s': State)
    requires Reachable(c, s) && w < |s.workers| && s.workers[w] == Scan(job) && n !in s.fetched && job.rest == []
    requires c.platform != "" ==> job.manifests > 0
    ensures Reachable(c, s') && Went(s, s', w, n) && ReportsSuccess(s'.workers[w], job.i, job.docs)
  {
    s' := Go(c, s, w, Error);
  }

  /** A received reference is opened. */
  lemma Open(c: Config, s: State, w: nat, k: nat, top: Document, n: Name) returns (s': State)
    requires Reachable(c, s) && w < |s.workers| && s.workers[w] == Resolve(k) && n !in s.fetched
    requires k < |c.refs| && c.refs[k] in c.target && Agrees(c, Top(c, k), top)
    ensures Reachable(c, s') && Went(s, s', w, n) && s'.seen == s.seen
    ensures s'.workers[w] == Opened(k, Top(c, k), top)
  {
    s' := Go(c, s, w, Body(top));
  }

  /** A worker that has received k can come to claim any blob that an attempt at it may begin. */
  lemma BeginFetch(c: Config, s: State, w: nat, k: nat, top: Document, docs: seq<Document>, n: Name) returns (s': State)
    requires Reachable(c, s) && w < |s.workers| && s.workers[w] == Resolve(k) && n !in s.fetched && n !in s.seen
    requires Begun(c, k, top, docs) && n in BlobNames(Top(c, k).cache, Top(c, k).repo, docs)
    ensures Reachable(c, s') && Went(s, s', w, n) && n in s'.seen && s'.workers[w].Fetch? && s'.workers[w].key == n
  {
    var s1 := Open(c, s, w, k, top, n);
    if top.index {
      s' := ScanTo(c, s1, w, s1.workers[w].job, docs, n);
    } else {
      BlobIn(Top(c, k).cache, Top(c, k).repo, docs, n);
      s' := WalkTo(c, s1, w, s1.workers[w].job, s1.workers[w].digs, 0, n);
    }
    WentOn(s, s1, s', w, n);
  }

  /** And while n is claimed it can bring any successful attempt to its end. */
  lemma CompleteWarm(c: Config, s: State, w: nat, k: nat, top: Document, docs: seq<Document>, n: Name) returns (s': State)
    requires Reachable(c, s) && w < |s.workers| && s.workers[w] == Resolve(k) && n !in s.fetched && n in s.seen
    requires Completed(c, k, top, docs)
    ensures Reachable(c, s') && Went(s, s', w, n) && ReportsSuccess(s'.workers[w], k, docs)
  {
    var s1 := Open(c, s, w, k, top, n);
    if top.index {
      s' := ScanThrough(c, s1, w, s1.workers[w].job, docs, n);
      assert [] + docs == docs;
    } else {
      s' := WalkAlone(c, s1, w, s1.workers[w].job, s1.workers[w].digs, n);
      assert [] + [top] == docs;
    }
    WentOn(s, s1, s', w, n);
  }

  /** The one manifest of an image that is no index is walked to its end. */
  lemma WalkAlone(c: Config, s: State, w: nat, job: Job, digs: seq<string>, n: Name) returns (s': State)
    requires Reachable(c, s) && w < |s.workers| && s.workers[w] == Walk(job, digs, 0) && !job.index && n !in s.fetched && n in s.seen
    ensures Reachable(c, s') && Went(s, s', w, n) && ReportsSuccess(s'.workers[w], job.i, job.docs)
  {
    var s1 := WalkPast(c, s, w, job, digs, 0, n);
    s' := Go(c, s1, w, Error);
    WentOn(s, s1, s', w, n);
  }

  /** A worker lets references pass, each with an error, up to the m-th. */
  lemma {:induction false} SkipTo(c: Config, s: State, w: nat, m: nat) returns (s': State)
    requires Reachable(c, s) && w < |s.workers| && s.workers[w] == Idle && s.next <= m <= |c.refs|
    ensures Reachable(c, s') && s'.workers == s.workers && s'.next == m && s'.seen == s.seen && s'.fetched == s.fetched
    decreases m - s.next
  {
    s' := s;
    if s.next < m {
      s' := Go(c, s', w, Error);
      s' := Go(c, s', w, Error);
      s' := Go(c, s', w, Error);
      s' := Go(c, s', w, Error);
      assert s'.workers == s.workers;
      s' := SkipTo(c, s', w, m);
    }
  }

  /** From anywhere, errors alone bring the pool to its end, with nothing more fetched and no result changed. */
  lemma {:induction false} Drain(c: Config, s: State) returns (s': State)
    requires Reachable(c, s)
    ensures Reachable(c, s') && Terminal(s') && s'.fetched == s.fetched
    ensures forall i :: i in s.results ==> i in s'.results && s'.results[i] == s.results[i]
    decreases Undispatched(c, s), Sum(s.workers, Resolving), Sum(s.workers, EntriesLeft), Sum(s.workers, StepsLeft)
  {
    s' := s;
    if !Terminal(s) {
      var w: nat :| w < |s.workers| && !s.workers[w].Exited?;
      NeverStuck(c, s, w);
      ReachablePhase(c, s, w);
      StepDescends(c, s, w, Error);
      ErrorKeeps(c, s, w);
      s' := Go(c, s, w, Error);
      s' := Drain(c, s');
    }
  }

  lemma ErrorKeeps(c: Config, s: State, w: nat)
    requires Reachable(c, s) && Enabled(c, s, w, Error)
    ensures var s' := Advance(c, s, w, Error);
            s'.fetched == s.fetched && forall i :: i in s.results ==> i in s'.results && s'.results[i] == s.results[i]
  {
    if s.workers[w].Report? {
      ResultStoredOnce(c, s, w, Error);
    }
  }

  // ----- a conflict misleads ------------------------------------------------------------------------

  /** Two workers come to hold two references, in the order in which these are received. */
  lemma TwoReceived(c: Config, lo: nat, hi: nat) returns (s: State)
    requires c.jobs >= 2 && lo < hi < |c.refs|
    ensures Reachable(c, s) && |s.workers| >= 2 && s.workers[0] == Resolve(lo) && s.workers[1] == Resolve(hi)
    ensures s.seen == c.claimed && s.fetched == []
  {
    s := Init(c);
    assert Run(c, [s]) && [s][|[s]| - 1] == s;
    s := SkipTo(c, s, 0, lo);
    s := Go(c, s, 0, Error);
    s := SkipTo(c, s, 1, hi);
    s := Go(c, s, 1, Error);
  }

  /** A success is recorded, and the pool comes to its end with nothing more fetched. */
  lemma RecordAndDrain(c: Config, s: State, w: nat, j: nat, docs: seq<Document>) returns (s': State)
    requires Reachable(c, s) && w < |s.workers| && ReportsSuccess(s.workers[w], j, docs) && j < |c.refs|
    ensures Reachable(c, s') && Terminal(s') && s'.fetched == s.fetched
    ensures j in s'.results && s'.results[j].outcome.Warmed? && s'.results[j].outcome.docs == docs
  {
    var s1 := Go(c, s, w, Error);
    s' := Drain(c, s1);
  }

  /** One worker claims n, the other completes an image that needs it, and nobody has fetched it. */
  lemma Mislead(c: Config, i: nat, j: nat, n: Name, topI: Document, docsI: seq<Document>, topJ: Document, docsJ: seq<Document>) returns (s: State)
    requires c.jobs >= 2 && i != j && n !in c.claimed
    requires Begun(c, i, topI, docsI) && n in BlobNames(Top(c, i).cache, Top(c, i).repo, docsI)
    requires Completed(c, j, topJ, docsJ)
    ensures Reachable(c, s) && Terminal(s) && n !in s.fetched
    ensures j in s.results && s.results[j].outcome.Warmed? && s.results[j].outcome.docs == docsJ
  {
    var wi, wj := if i < j then 0 else 1, if i < j then 1 else 0;
    var s0 := TwoReceived(c, if i < j then i else j, if i < j then j else i);
    var s1 := BeginFetch(c, s0, wi, i, topI, docsI, n);
    var s2 := CompleteWarm(c, s1, wj, j, topJ, docsJ, n);
    s := RecordAndDrain(c, s2, wj, j, docsJ);
  }

  /** With two workers at least, a conflict may come about: refs[j] ends as a success although a blob it needs
      is never fetched. This holds for any references, and any number of them. */
  lemma SuccessMayMislead(c: Config, i: nat, j: nat, n: Name) returns (s: State)
    requires c.jobs >= 2 && Conflict(c, i, j, n)
    ensures Reachable(c, s) && Terminal(s) && j in s.results && s.results[j].outcome.Warmed?
    ensures j < |c.refs| && c.refs[j] in c.target && n in NeededBlobs(c, s, j) && n !in c.claimed && n !in s.fetched
  {
    var topI, docsI :| Begun(c, i, topI, docsI) && n in BlobNames(Top(c, i).cache, Top(c, i).repo, docsI);
    var topJ, docsJ :| Completed(c, j, topJ, docsJ) && n in BlobNames(Top(c, j).cache, Top(c, j).repo, docsJ);
    s := Mislead(c, i, j, n, topI, docsI, topJ, docsJ);
  }

  /** Success means fetched, image by image and in every run, iff there is but one worker, or no image can claim
      a blob that another one needs. */
  lemma ReliableIff(c: Config)
    ensures Reliable(c) <==> c.jobs <= 1 || forall i, j, n :: !Conflict(c, i, j, n)
  {
    if c.jobs <= 1 {
      forall s, i | Reachable(c, s) && Terminal(s)
        ensures ResultHolds(c, s, i)
      {
        AloneHolds(c, s, i);
      }
    } else if i, j, n :| Conflict(c, i, j, n) {
      var s := SuccessMayMislead(c, i, j, n);
      assert !ResultHolds(c, s, j);
    } else {
      forall s, j | Reachable(c, s) && Terminal(s)
        ensures ResultHolds(c, s, j)
      {
        NoConflictHolds(c, s, j);
      }
    }
  }

  // ----- the condition, with nothing pinned ---------------------------------------------------------

  /** The two references are pulled from one repository of one cache. */
  predicate SameRepository(c: Config, i: nat, j: nat) {
    && i < |c.refs| && c.refs[i] in c.target && j < |c.refs| && c.refs[j] in c.target
    && Top(c, i).cache == Top(c, j).cache && Top(c, i).repo == Top(c, j).repo
  }

  ghost function LongestDigest(ns: set<Name>): nat {
    if ns == {} then 0
    else
      var n :| n in ns;
      var rest := LongestDigest(ns - {n});
      if rest < |n.digest| then |n.digest| else rest
  }

  lemma {:induction false} NoneLonger(ns: set<Name>, m: Name)
    requires m in ns
    ensures |m.digest| <= LongestDigest(ns)
    decreases ns
  {
    var n :| n in ns && LongestDigest(ns) == (if LongestDigest(ns - {n}) < |n.digest| then |n.digest| else LongestDigest(ns - {n}));
    if m != n {
      NoneLonger(ns - {n}, m);
    }
  }

  /** Some blob of the repository is not claimed. */
  lemma FreshBlob(c: Config, cache: nat, repo: string) returns (n: Name)
    ensures n !in c.claimed && n.digest != "" && n == Name(cache, repo, n.digest)
  {
    n := Name(cache, repo, seq(LongestDigest(c.claimed) + 1, _ => 'x'));
    if n in c.claimed {
      NoneLonger(c.claimed, n);
      assert false;
    }
  }

  lemma UnpinnedConflictIff(c: Config, i: nat, j: nat)
    requires c.pinned == map[]
    ensures (exists n :: Conflict(c, i, j, n)) <==> i != j && SameRepository(c, i, j)
  {
    if i != j && SameRepository(c, i, j) {
      var n := FreshBlob(c, Top(c, i).cache, Top(c, i).repo);
      var doc := Document(false, Some(Manifest("", [n.digest])), None);
      OneBlobDocument(Top(c, i).cache, Top(c, i).repo, n);
      assert Begun(c, i, doc, [doc]);
      assert Completed(c, j, doc, [doc]);
      assert Conflict(c, i, j, n);
    }
  }

  lemma OneBlobDocument(cache: nat, repo: string, n: Name)
    requires n.digest != "" && n == Name(cache, repo, n.digest)
    ensures n in BlobNames(cache, repo, [Document(false, Some(Manifest("", [n.digest])), None)])
  {
    var doc := Document(false, Some(Manifest("", [n.digest])), None);
    assert doc in [doc] && n.digest in [n.digest];
    NonEmptyMembers([n.digest]);
    assert n.digest in BlobsToWarm(doc.manifest.value);
  }

  /** Where tags may bring anything, success means fetched iff there is one worker, or no two references are
      pulled from the same repository of the same cache. */
  lemma UnpinnedReliableIff(c: Config)
    requires c.pinned == map[]
    ensures Reliable(c) <==> c.jobs <= 1 || forall i, j :: i != j ==> !SameRepository(c, i, j)
  {
    ReliableIff(c);
    forall i: nat, j: nat | i != j && SameRepository(c, i, j)
      ensures exists n :: Conflict(c, i, j, n)
    {
      UnpinnedConflictIff(c, i, j);
    }
    forall i: nat, j: nat, n | Conflict(c, i, j, n)
      ensures i != j && SameRepository(c, i, j)
    {
      UnpinnedConflictIff(c, i, j);
    }
    if i: nat, j: nat :| i != j && SameRepository(c, i, j) {
      var n :| Conflict(c, i, j, n);
    }
  }

  // ----- the condition, with everything pinned ------------------------------------------------------

  ghost predicate AllKnown(c: Config) {
    forall k: nat :: k < |c.refs| && c.refs[k] in c.target ==> Known(c.pinned, Top(c, k), c.platform)
  }

  /** The documents in front of the first that cannot be decoded: a warm ends there. */
  function Decodable(docs: seq<Document>): (r: seq<Document>)
    ensures r <= docs && forall doc :: doc in r ==> doc.manifest.Some?
    ensures |r| == |docs| || docs[|r|].manifest.None?
  {
    if docs == [] || docs[0].manifest.None? then [] else [docs[0]] + Decodable(docs[1..])
  }

  lemma {:induction false} ChildDocsWanted(docs: map<Name, Document>, cache: nat, repo: string, entries: seq<Entry>, platform: string)
    requires ChildrenKnown(docs, cache, repo, entries, platform)
    ensures var wanted := WantedEntries(entries, platform);
            && |ChildDocs(docs, cache, repo, entries, platform)| == |wanted|
            && forall i :: 0 <= i < |wanted| ==>
                 var n := Name(cache, repo, wanted[i].digest);
                 n in docs && ChildDocs(docs, cache, repo, entries, platform)[i] == docs[n]
  {
    if entries != [] {
      ChildDocsWanted(docs, cache, repo, entries[1..], platform);
      var wanted, tail := WantedEntries(entries, platform), WantedEntries(entries[1..], platform);
      var all, rest := ChildDocs(docs, cache, repo, entries, platform), ChildDocs(docs, cache, repo, entries[1..], platform);
      if PlatformMatches(platform, entries[0].plat) {
        assert wanted == [entries[0]] + tail && all == [docs[Name(cache, repo, entries[0].digest)]] + rest;
      } else {
        assert wanted == tail && all == rest;
      }
    }
  }

  /** What an attempt at a pinned image may begin is a decodable beginning of what Walked lists. */
  lemma PinnedBegun(c: Config, k: nat, top: Document, docs: seq<Document>)
    requires k < |c.refs| && c.refs[k] in c.target && Known(c.pinned, Top(c, k), c.platform)
    ensures Begun(c, k, top, docs) <==>
            && top == c.pinned[Top(c, k)] && docs <= Decodable(Walked(c.pinned, Top(c, k), c.platform))
            && (if top.index then top.children.Some? else docs != [])
  {
    var name := Top(c, k);
    var walked := Walked(c.pinned, name, c.platform);
    if top == c.pinned[name] {
      if top.index && top.children.Some? {
        ChildDocsWanted(c.pinned, name.cache, name.repo, Entries(top.children.value), c.platform);
        if Begun(c, k, top, docs) {
          assert docs <= walked;
          PrefixDecodable(docs, walked);
        }
      } else if !top.index {
        assert walked == [top];
      }
    }
  }

  lemma PrefixDecodable(docs: seq<Document>, walked: seq<Document>)
    requires docs <= walked && forall doc :: doc in docs ==> doc.manifest.Some?
    ensures docs <= Decodable(walked)
  {
  }

  lemma BlobNamesPrefix(cache: nat, repo: string, docs: seq<Document>, more: seq<Document>)
    requires docs <= more
    ensures BlobNames(cache, repo, docs) <= BlobNames(cache, repo, more)
  {
    assert forall doc :: doc in docs ==> doc in more;
  }

  lemma PinnedBeginIff(c: Config, k: nat, n: Name)
    requires k < |c.refs| && c.refs[k] in c.target && Known(c.pinned, Top(c, k), c.platform)
    ensures MayBegin(c, k, n) <==> n in BlobNames(Top(c, k).cache, Top(c, k).repo, Decodable(Walked(c.pinned, Top(c, k), c.platform)))
  {
    var name := Top(c, k);
    var begun := Decodable(Walked(c.pinned, name, c.platform));
    if MayBegin(c, k, n) {
      var top, docs :| Begun(c, k, top, docs) && n in BlobNames(name.cache, name.repo, docs);
      PinnedBegun(c, k, top, docs);
      BlobNamesPrefix(name.cache, name.repo, docs, begun);
    } else if n in BlobNames(name.cache, name.repo, begun) {
      PinnedBegun(c, k, c.pinned[name], begun);
      assert false;
    }
  }

  lemma PinnedNeedIff(c: Config, k: nat, n: Name)
    requires k < |c.refs| && c.refs[k] in c.target && Known(c.pinned, Top(c, k), c.platform)
    ensures MayNeed(c, k, n) <==>
            && Warmable(c.pinned, Top(c, k), c.platform)
            && n in BlobNames(Top(c, k).cache, Top(c, k).repo, Walked(c.pinned, Top(c, k), c.platform))
  {
    var name := Top(c, k);
    var walked := Walked(c.pinned, name, c.platform);
    if MayNeed(c, k, n) {
      var top, docs :| Completed(c, k, top, docs) && n in BlobNames(name.cache, name.repo, docs);
      PinnedCompleted(c, k, top, docs);
    } else if Warmable(c.pinned, name, c.platform) && n in BlobNames(name.cache, name.repo, walked) {
      WarmableCompletes(c, k);
      assert false;
    }
  }

  lemma PinnedCompleted(c: Config, k: nat, top: Document, docs: seq<Document>)
    requires k < |c.refs| && c.refs[k] in c.target && Known(c.pinned, Top(c, k), c.platform)
    requires Completed(c, k, top, docs)
    ensures docs == Walked(c.pinned, Top(c, k), c.platform) && Warmable(c.pinned, Top(c, k), c.platform)
  {
    var name := Top(c, k);
    PinnedBegun(c, k, top, docs);
    if top.index {
      ChildDocsWanted(c.pinned, name.cache, name.repo, Entries(top.children.value), c.platform);
      MatchFound(c.pinned, name, c.platform);
    }
  }

  lemma WarmableCompletes(c: Config, k: nat)
    requires k < |c.refs| && c.refs[k] in c.target && Known(c.pinned, Top(c, k), c.platform)
    requires Warmable(c.pinned, Top(c, k), c.platform)
    ensures Completed(c, k, c.pinned[Top(c, k)], Walked(c.pinned, Top(c, k), c.platform))
  {
    var name := Top(c, k);
    var top, walked := c.pinned[name], Walked(c.pinned, name, c.platform);
    PrefixDecodable(walked, walked);
    if top.index {
      var entries := Entries(top.children.value);
      ChildDocsWanted(c.pinned, name.cache, name.repo, entries, c.platform);
      ChildDocsMembers(c.pinned, name.cache, name.repo, entries, c.platform);
    }
    PinnedBegun(c, k, top, walked);
  }

  /** Refs[j] can succeed, and refs[i] can begin a blob that it consists of and that is not claimed yet. */
  predicate SharesBlob(c: Config, i: nat, j: nat, n: Name) {
    && i != j && n !in c.claimed
    && i < |c.refs| && c.refs[i] in c.target && Known(c.pinned, Top(c, i), c.platform)
    && j < |c.refs| && c.refs[j] in c.target && Known(c.pinned, Top(c, j), c.platform)
    && Warmable(c.pinned, Top(c, j), c.platform)
    && n in BlobNames(Top(c, i).cache, Top(c, i).repo, Decodable(Walked(c.pinned, Top(c, i), c.platform)))
    && n in BlobNames(Top(c, j).cache, Top(c, j).repo, Walked(c.pinned, Top(c, j), c.platform))
  }

  /** Where all images are pinned, success means fetched iff there is one worker, or no image that can succeed
      shares an unclaimed blob, in one repository of one cache, with another image. */
  lemma PinnedReliableIff(c: Config)
    requires AllKnown(c)
    ensures Reliable(c) <==> c.jobs <= 1 || forall i, j, n :: !SharesBlob(c, i, j, n)
  {
    ReliableIff(c);
    forall i: nat, j: nat, n
      ensures Conflict(c, i, j, n) <==> SharesBlob(c, i, j, n)
    {
      if i < |c.refs| && c.refs[i] in c.target && j < |c.refs| && c.refs[j] in c.target {
        PinnedBeginIff(c, i, n);
        PinnedNeedIff(c, j, n);
      }
    }
  }
}
