/** The pool that warms many images at once (release.go warmAll, pull.go warmImage and warmManifestBlobs) as
    a state machine: its workers interleave freely, one atomic step at a time, and every request may be
    answered or fail as the network likes. */
module WarmPool {
  import opened Ordering
  import opened Text
  import opened Platforms
  import opened Manifests

  /** One call of warmAll. target says where warmRef sends a reference, and leaves out those it refuses
      before any request. claimed is what the shared map `seen` holds at the call;
      pinned gives the content of the manifests that cannot change while it runs (those named by digest). */
  datatype Config = Config(
    refs: seq<string>,
    target: map<string, Name>,
    platform: string,
    jobs: int,
    claimed: set<Name>,
    pinned: map<Name, Document>
  )

  /** How warmRef ended. docs are the manifests whose blobs a successful attempt walked; on is the blob whose
      failed fetch ended an attempt, None if anything else did. */
  datatype Outcome =
    | Warmed(manifests: nat, blobs: nat, docs: seq<Document>)
    | Failed(manifests: nat, blobs: nat, on: Option<Name>)

  datatype WarmResult = WarmResult(ref: string, outcome: Outcome)

  /** A warmImage under way: what it pulls, the index entries it has not looked at, the manifests it has
      begun to walk, and warmStats. */
  datatype Job = Job(i: nat, cache: nat, repo: string, index: bool, rest: seq<Entry>, docs: seq<Document>, manifests: nat, blobs: nat)

  /** What a worker does next. */
  datatype Phase =
    | Idle                                                      // receive an index from the channel
    | Resolve(i: nat)                                           // get the manifest of refs[i]
    | Scan(job: Job)                                            // look at the next index entry
    | Walk(job: Job, digs: seq<string>, k: nat)                 // claim digs[k]
    | Fetch(job: Job, digs: seq<string>, k: nat, key: Name)     // get the blob it has claimed
    | Release(job: Job, key: Name)                              // drop the claim of a failed fetch
    | Report(i: nat, outcome: Outcome)                          // store results[i]
    | Tally(i: nat)                                             // count it done, under the lock
    | Exited                                                    // the channel is closed

  /** The answer to a worker's request: an error, a blob read to the end, or a manifest. */
  datatype Answer = Error | Complete | Body(doc: Document)

  /** seen is the shared claim map; fetched the blobs read to the end, in order; failed the blobs whose fetch
      failed at least once; read the manifests read; done the values the counter was set to. */
  datatype State = State(
    next: nat,
    workers: seq<Phase>,
    seen: set<Name>,
    fetched: seq<Name>,
    failed: set<Name>,
    read: set<Name>,
    results: map<nat, WarmResult>,
    done: seq<nat>
  )

  function Workers(c: Config): nat {
    if c.jobs < 1 then 1 else c.jobs
  }

  function Init(c: Config): State {
    State(0, seq(Workers(c), _ => Idle), c.claimed, [], {}, {}, map[], [])
  }

  predicate Terminal(s: State) {
    forall w :: 0 <= w < |s.workers| ==> s.workers[w].Exited?
  }

  // ----- one atomic step ----------------------------------------------------------------------------

  /** A pinned manifest is served as it is or not at all; any other may be anything. */
  predicate Serves(c: Config, n: Name, a: Answer) {
    a.Error? || (a.Body? && (n in c.pinned ==> a.doc == c.pinned[n]))
  }

  /** A worker in phase p can take a step when its pending request, if any, is answered with a. */
  predicate Ready(c: Config, p: Phase, a: Answer) {
    match p
    case Resolve(i) => i < |c.refs| && (c.refs[i] in c.target ==> Serves(c, Top(c, i), a))
    case Scan(job) => job.rest != [] ==> Serves(c, Name(job.cache, job.repo, job.rest[0].digest), a)
    case Walk(job, digs, k) => k <= |digs|
    case Fetch(_, _, _, _) => a.Error? || a.Complete?
    case Report(i, _) => i < |c.refs|
    case Exited => false
    case _ => true
  }

  predicate Enabled(c: Config, s: State, w: nat, a: Answer) {
    w < |s.workers| && Ready(c, s.workers[w], a)
  }

  function Top(c: Config, i: nat): Name
    requires i < |c.refs| && c.refs[i] in c.target
  {
    c.target[c.refs[i]]
  }

  /** warmManifestBlobs decodes the manifest and starts on its blobs. */
  function StartWalk(job: Job, doc: Document): (p: Phase)
    ensures Owned(p) == Some(job.i) && Held(p).None? && Busy(p) == 1
  {
    if doc.manifest.None? then Report(job.i, Failed(job.manifests, job.blobs, None))
    else Walk(job.(docs := job.docs + [doc]), BlobsToWarm(doc.manifest.value), 0)
  }

  /** warmImage after getting the manifest of the reference itself. */
  function Opened(i: nat, top: Name, doc: Document): (p: Phase)
    ensures Owned(p) == Some(i) && Held(p).None? && Busy(p) == 1
  {
    var job := Job(i, top.cache, top.repo, doc.index, [], [], 0, 0);
    if !doc.index then StartWalk(job, doc)
    else if doc.children.None? then Report(i, Failed(0, 0, None))
    else Scan(job.(rest := Entries(doc.children.value)))
  }

  function Counted(job: Job, n: nat): Job {
    job.(manifests := job.manifests + 1, blobs := job.blobs + n)
  }

  function Success(job: Job): Phase {
    Report(job.i, Warmed(job.manifests, job.blobs, job.docs))
  }

  /** What a step does to the state the workers share. */
  datatype Effect =
    | Nothing
    | Take                                // receive the next index
    | Got(n: Name)                        // a manifest was read
    | Claim(n: Name)                      // LoadOrStore stored the key
    | Keep(n: Name)                       // the blob was read to the end
    | Drop(n: Name)                       // Delete after a failed fetch
    | Record(i: nat, outcome: Outcome)     // results[i]
    | Count                               // done++

  /** A worker's next phase and its effect, given the shared `next` and `seen`. */
  function Next(c: Config, next: nat, seen: set<Name>, p: Phase, a: Answer): (Phase, Effect)
    requires Ready(c, p, a)
  {
    match p
    case Idle => if next < |c.refs| then (Resolve(next), Take) else (Exited, Nothing)
    case Resolve(i) =>
      if c.refs[i] !in c.target || a.Error? then (Report(i, Failed(0, 0, None)), Nothing)
      else (Opened(i, Top(c, i), a.doc), Got(Top(c, i)))
    case Scan(job) =>
      if job.rest == [] then
        if job.manifests == 0 && c.platform != "" then (Report(job.i, Failed(0, job.blobs, None)), Nothing)
        else (Success(job), Nothing)
      else
        var e, later := job.rest[0], job.(rest := job.rest[1..]);
        if !PlatformMatches(c.platform, e.plat) then (Scan(later), Nothing)
        else if a.Error? then (Report(job.i, Failed(job.manifests, job.blobs, None)), Nothing)
        else (StartWalk(later, a.doc), Got(Name(job.cache, job.repo, e.digest)))
    case Walk(job, digs, k) =>
      if k == |digs| then
        var counted := Counted(job, |digs|);
        (if job.index then Scan(counted) else Success(counted), Nothing)
      else
        var key := Name(job.cache, job.repo, digs[k]);
        if key in seen then (Walk(job, digs, k + 1), Nothing) else (Fetch(job, digs, k, key), Claim(key))
    case Fetch(job, digs, k, key) =>
      if a.Error? then (Release(job, key), Nothing) else (Walk(job, digs, k + 1), Keep(key))
    case Release(job, key) => (Report(job.i, Failed(job.manifests, job.blobs, Some(key))), Drop(key))
    case Report(i, outcome) => (Tally(i), Record(i, outcome))
    case Tally(i) => (Idle, Count)
  }

  function Apply(c: Config, s: State, e: Effect): State {
    match e
    case Nothing => s
    case Take => s.(next := s.next + 1)
    case Got(n) => s.(read := s.read + {n})
    case Claim(n) => s.(seen := s.seen + {n})
    case Keep(n) => s.(fetched := s.fetched + [n])
    case Drop(n) => s.(seen := s.seen - {n}, failed := s.failed + {n})
    case Record(i, outcome) => if i < |c.refs| then s.(results := s.results[i := WarmResult(c.refs[i], outcome)]) else s
    case Count => s.(done := s.done + [|s.done| + 1])
  }

  function Advance(c: Config, s: State, w: nat, a: Answer): State
    requires Enabled(c, s, w, a)
  {
    var (p, e) := Next(c, s.next, s.seen, s.workers[w], a);
    Apply(c, s, e).(workers := s.workers[w := p])
  }

  ghost predicate Step(c: Config, s: State, s': State) {
    exists w, a :: Enabled(c, s, w, a) && s' == Advance(c, s, w, a)
  }

  /** A finite run of the pool. */
  ghost predicate Run(c: Config, run: seq<State>) {
    && run != []
    && run[0] == Init(c)
    && forall k :: 0 <= k < |run| - 1 ==> Step(c, run[k], run[k + 1])
  }

  ghost predicate Reachable(c: Config, s: State) {
    exists run :: Run(c, run) && run[|run| - 1] == s
  }

  // ----- claims -------------------------------------------------------------------------------------

  /** The claim a worker holds. */
  function Held(p: Phase): Option<Name> {
    match p
    case Fetch(_, _, _, key) => Some(key)
    case Release(_, key) => Some(key)
    case _ => None
  }

  ghost predicate Holds(s: State, w: nat, n: Name) {
    w < |s.workers| && Held(s.workers[w]) == Some(n)
  }

  /** seen is the disjoint union of what was claimed before, what has been fetched, and what the workers
      hold; nothing is fetched twice and no two workers hold the same claim. */
  ghost predicate ClaimsPartition(c: Config, s: State) {
    && Distinct(s.fetched)
    && (forall n :: n in s.fetched ==> n in s.seen && n !in c.claimed)
    && c.claimed <= s.seen
    && (forall w, n :: Holds(s, w, n) ==> n in s.seen && n !in c.claimed && n !in s.fetched)
    && (forall w, v, n :: Holds(s, w, n) && Holds(s, v, n) ==> w == v)
    && (forall n :: n in s.seen ==> n in c.claimed || n in s.fetched || exists w :: Holds(s, w, n))
  }

  /** Every blob that failed a fetch is blamed by a result, stored or about to be. */
  ghost predicate Blamed(s: State) {
    forall n :: n in s.failed ==> exists i, outcome :: Blames(s, i, outcome, n)
  }

  ghost predicate Blames(s: State, i: nat, outcome: Outcome, n: Name) {
    && outcome.Failed? && outcome.on == Some(n)
    && ((i in s.results && s.results[i].outcome == outcome) || Report(i, outcome) in s.workers)
  }

  // ----- what a worker's progress promises ----------------------------------------------------------

  /** Every blob of the documents, save the digests excepted, is in the set. */
  ghost predicate Settled(settled: set<Name>, cache: nat, repo: string, docs: seq<Document>, except: seq<string>) {
    forall n :: n in BlobNames(cache, repo, docs) ==> n.digest in except || n in settled
  }

  ghost predicate OutcomeSettled(c: Config, settled: set<Name>, i: nat, outcome: Outcome) {
    outcome.Warmed? ==>
      i < |c.refs| && c.refs[i] in c.target && Settled(settled, Top(c, i).cache, Top(c, i).repo, outcome.docs, [])
  }

  ghost predicate PhaseSettled(c: Config, settled: set<Name>, p: Phase) {
    match p
    case Scan(job) => Settled(settled, job.cache, job.repo, job.docs, [])
    case Walk(job, digs, k) => k <= |digs| && Settled(settled, job.cache, job.repo, job.docs, digs[k..])
    case Fetch(job, digs, k, key) =>
      k < |digs| && key == Name(job.cache, job.repo, digs[k]) && Settled(settled, job.cache, job.repo, job.docs, digs[k..])
    case Report(i, outcome) => OutcomeSettled(c, settled, i, outcome)
    case _ => true
  }

  /** All that workers and results have walked, save what is still before them, is in the set. */
  ghost predicate Promises(c: Config, s: State, settled: set<Name>) {
    && (forall w :: 0 <= w < |s.workers| ==> PhaseSettled(c, settled, s.workers[w]))
    && (forall i :: i in s.results ==> OutcomeSettled(c, settled, i, s.results[i].outcome))
  }

  /** The blobs that are claimed or have failed for someone. */
  function Tried(s: State): set<Name> {
    s.seen + s.failed
  }

  // ----- which documents an attempt walks -----------------------------------------------------------

  function BlobReferences(docs: seq<Document>): nat {
    if docs == [] then 0
    else BlobReferences(docs[..|docs| - 1]) +
         var last := docs[|docs| - 1]; if last.manifest.Some? then |BlobsToWarm(last.manifest.value)| else 0
  }

  ghost predicate PullsTarget(c: Config, job: Job) {
    && job.i < |c.refs| && c.refs[job.i] in c.target
    && job.cache == Top(c, job.i).cache && job.repo == Top(c, job.i).repo
  }

  /** The job pulls refs[i], and where the image's manifests are pinned it walks what Walked lists. */
  ghost predicate JobTraced(c: Config, s: State, job: Job) {
    && PullsTarget(c, job)
    && var top := Top(c, job.i);
    && (forall doc :: doc in job.docs ==> doc.manifest.Some?)
    && (Known(c.pinned, top, c.platform) ==> Follows(c, s.read, top, job))
  }

  /** The job has walked the first of the documents Walked lists; the others are those of its rest. */
  ghost predicate Follows(c: Config, read: set<Name>, top: Name, job: Job)
    requires Known(c.pinned, top, c.platform)
  {
    && top in read
    && job.cache == top.cache && job.repo == top.repo
    && job.index == c.pinned[top].index
    && (job.index ==> c.pinned[top].children.Some?)
    && ChildrenKnown(c.pinned, job.cache, job.repo, job.rest, c.platform)
    && Walked(c.pinned, top, c.platform) == job.docs + ChildDocs(c.pinned, job.cache, job.repo, job.rest, c.platform)
    && ManifestNames(c.pinned, top, c.platform) <= read + ChildNames(job.cache, job.repo, job.rest, c.platform)
  }

  ghost predicate OutcomeTraced(c: Config, s: State, i: nat, outcome: Outcome) {
    && i < |c.refs|
    && (outcome.Warmed? ==>
          && c.refs[i] in c.target
          && outcome.manifests == |outcome.docs|
          && outcome.blobs == BlobReferences(outcome.docs)
          && (Known(c.pinned, Top(c, i), c.platform) ==>
                && Warmable(c.pinned, Top(c, i), c.platform)
                && outcome.docs == Walked(c.pinned, Top(c, i), c.platform)
                && ManifestNames(c.pinned, Top(c, i), c.platform) <= s.read))
  }

  ghost predicate PhaseTraced(c: Config, s: State, p: Phase) {
    match p
    case Resolve(i) => i < |c.refs|
    case Scan(job) =>
      && JobTraced(c, s, job) && job.index
      && job.manifests == |job.docs| && job.blobs == BlobReferences(job.docs)
    case Walk(job, digs, k) => k <= |digs| && WalkTraced(c, s, job, digs)
    case Fetch(job, digs, k, _) => k < |digs| && WalkTraced(c, s, job, digs)
    case Release(job, _) => job.i < |c.refs|
    case Report(i, outcome) => OutcomeTraced(c, s, i, outcome)
    case _ => true
  }

  ghost predicate WalkTraced(c: Config, s: State, job: Job, digs: seq<string>) {
    && JobTraced(c, s, job)
    && job.manifests + 1 == |job.docs| && job.blobs + |digs| == BlobReferences(job.docs)
    && (!job.index ==> job.rest == [])
  }

  ghost predicate Traced(c: Config, s: State) {
    && (forall w :: 0 <= w < |s.workers| ==> PhaseTraced(c, s, s.workers[w]))
    && (forall i :: i in s.results ==> OutcomeTraced(c, s, i, s.results[i].outcome))
  }

  // ----- who works on what --------------------------------------------------------------------------

  /** The index a worker has received and not yet stored a result for. */
  function Owned(p: Phase): Option<nat> {
    match p
    case Resolve(i) => Some(i)
    case Scan(job) => Some(job.i)
    case Walk(job, _, _) => Some(job.i)
    case Fetch(job, _, _, _) => Some(job.i)
    case Release(job, _) => Some(job.i)
    case Report(i, _) => Some(i)
    case _ => None
  }

  ghost predicate Owns(s: State, w: nat, i: nat) {
    w < |s.workers| && Owned(s.workers[w]) == Some(i)
  }

  /** Every dispatched index has a result or exactly one worker, never both. */
  ghost predicate Dispatched(c: Config, s: State) {
    && |s.workers| == Workers(c)
    && s.next <= |c.refs|
    && (forall w, i: nat :: Owns(s, w, i) ==> i < s.next && i !in s.results)
    && (forall w, v, i :: Owns(s, w, i) && Owns(s, v, i) ==> w == v)
    && (forall i :: 0 <= i < s.next ==> i in s.results || exists w :: Owns(s, w, i))
    && (forall i :: i in s.results ==> i < s.next && s.results[i].ref == c.refs[i])
    && (forall w :: 0 <= w < |s.workers| && s.workers[w].Exited? ==> s.next == |c.refs|)
  }

  function Sum(ws: seq<Phase>, weight: Phase -> nat): nat {
    if ws == [] then 0 else weight(ws[0]) + Sum(ws[1..], weight)
  }

  lemma {:induction false} SumUpdate(ws: seq<Phase>, w: nat, p: Phase, weight: Phase -> nat)
    requires w < |ws|
    ensures Sum(ws[w := p], weight) == Sum(ws, weight) - weight(ws[w]) + weight(p)
  {
    if w == 0 {
      assert ws[w := p][1..] == ws[1..];
    } else {
      assert ws[w := p][1..] == ws[1..][w - 1 := p];
      SumUpdate(ws[1..], w - 1, p, weight);
    }
  }

  /** Between receiving an index and counting it done. */
  function Busy(p: Phase): nat {
    if p.Idle? || p.Exited? then 0 else 1
  }

  lemma {:induction false} BusyBounded(ws: seq<Phase>)
    ensures Sum(ws, Busy) <= |ws|
  {
    if ws != [] {
      BusyBounded(ws[1..]);
    }
  }

  /** The counter takes the values 1, 2, 3 ..., and what is dispatched and not yet counted is in some
      worker's hands. */
  ghost predicate Tallied(s: State) {
    && s.done == seq(|s.done|, k => k + 1)
    && s.next == |s.done| + Sum(s.workers, Busy)
  }

  // ----- the invariant ------------------------------------------------------------------------------

  ghost predicate Inv(c: Config, s: State) {
    ClaimsPartition(c, s) && Blamed(s) && Promises(c, s, Tried(s)) && Traced(c, s) && Dispatched(c, s) && Tallied(s)
  }

  lemma {:induction false} SumZero(ws: seq<Phase>, weight: Phase -> nat)
    requires forall p :: p in ws ==> weight(p) == 0
    ensures Sum(ws, weight) == 0
  {
    if ws != [] {
      SumZero(ws[1..], weight);
    }
  }

  lemma InitInv(c: Config)
    ensures Inv(c, Init(c))
  {
    SumZero(Init(c).workers, Busy);
  }

  /** Worker w moved to phase p with effect e. */
  ghost predicate Moved(c: Config, s: State, s': State, w: nat, p: Phase, e: Effect) {
    w < |s.workers| && s' == Apply(c, s, e).(workers := s.workers[w := p])
  }

  /** How an effect goes with the claim the worker holds before and after. */
  lemma EffectOnClaim(c: Config, next: nat, seen: set<Name>, p: Phase, a: Answer)
    requires Ready(c, p, a)
    ensures var (p', e) := Next(c, next, seen, p, a);
            match e
            case Claim(n) => n !in seen && Held(p).None? && Held(p') == Some(n)
            case Keep(n) => Held(p) == Some(n) && Held(p').None?
            case Drop(n) => Held(p) == Some(n) && Held(p').None? && p'.Report? && p'.outcome.Failed? && p'.outcome.on == Some(n)
            case _ => Held(p) == Held(p')
  {
  }

  /** How it goes with the index the worker owns. */
  lemma EffectOnOwner(c: Config, next: nat, seen: set<Name>, p: Phase, a: Answer)
    requires Ready(c, p, a)
    ensures var (p', e) := Next(c, next, seen, p, a);
            && (p'.Exited? ==> next >= |c.refs|)
            && (p.Report? ==> e == Record(p.i, p.outcome))
            && match e
               case Take => Owned(p).None? && next < |c.refs| && Owned(p') == Some(next)
               case Record(i, outcome) => i < |c.refs| && p == Report(i, outcome) && Owned(p').None?
               case _ => Owned(p) == Owned(p')
  {
  }

  /** And with its being at work. */
  lemma EffectOnBusy(c: Config, next: nat, seen: set<Name>, p: Phase, a: Answer)
    requires Ready(c, p, a)
    ensures var (p', e) := Next(c, next, seen, p, a);
            match e
            case Take => Busy(p) == 0 && Busy(p') == 1
            case Count => Busy(p) == 1 && Busy(p') == 0
            case _ => Busy(p) == Busy(p')
  {
  }

  lemma ClaimsKept(c: Config, s: State, s': State, w: nat, p: Phase, e: Effect)
    requires Moved(c, s, s', w, p, e) && ClaimsPartition(c, s)
    requires match e
             case Claim(n) => n !in s.seen && Held(s.workers[w]).None? && Held(p) == Some(n)
             case Keep(n) => Held(s.workers[w]) == Some(n) && Held(p).None?
             case Drop(n) => Held(s.workers[w]) == Some(n) && Held(p).None?
             case _ => Held(s.workers[w]) == Held(p)
    ensures ClaimsPartition(c, s')
  {
    assert forall v, n :: v != w ==> (Holds(s', v, n) <==> Holds(s, v, n));
    var before, after := Held(s.workers[w]), Held(p);
    assert before.Some? ==> Holds(s, w, before.value);
    assert after.Some? ==> Holds(s', w, after.value);
    assert e.Keep? ==> forall n :: n in s'.fetched <==> n in s.fetched || n == e.n;
  }

  lemma BlamesKept(c: Config, s: State, s': State, w: nat, p: Phase, e: Effect)
    requires Moved(c, s, s', w, p, e) && Dispatched(c, s) && Blamed(s)
    requires s.workers[w].Report? ==> e == Record(s.workers[w].i, s.workers[w].outcome)
    requires e.Record? ==> s.workers[w] == Report(e.i, e.outcome)
    requires e.Drop? ==> p.Report? && p.outcome.Failed? && p.outcome.on == Some(e.n)
    ensures Blamed(s')
  {
    assert s.workers[w].Report? ==> Owns(s, w, s.workers[w].i);
    forall n | n in s'.failed
      ensures exists i, outcome :: Blames(s', i, outcome, n)
    {
      if n !in s.failed {
        assert s'.workers[w] == p;
        assert Blames(s', p.i, p.outcome, n);
      } else {
        var i, outcome :| Blames(s, i, outcome, n);
        if Report(i, outcome) in s.workers {
          var v :| 0 <= v < |s.workers| && s.workers[v] == Report(i, outcome);
          assert v != w ==> s'.workers[v] == Report(i, outcome);
        }
        assert Blames(s', i, outcome, n);
      }
    }
  }

  /** Claims are only dropped into failed, so what was tried stays tried; and reading only adds. */
  lemma Monotone(c: Config, s: State, s': State, w: nat, p: Phase, e: Effect)
    requires Moved(c, s, s', w, p, e)
    ensures s.read <= s'.read && Tried(s) <= Tried(s')
  {
  }

  lemma PromisesKept(c: Config, s: State, s': State, w: nat, p: Phase, e: Effect, settled: set<Name>, settled': set<Name>)
    requires Moved(c, s, s', w, p, e) && Promises(c, s, settled) && settled <= settled'
    requires e.Record? ==> s.workers[w] == Report(e.i, e.outcome)
    requires PhaseSettled(c, settled', p)
    ensures Promises(c, s', settled')
  {
    assert PhaseSettled(c, settled, s.workers[w]);
    assert forall i, outcome :: OutcomeSettled(c, settled, i, outcome) ==> OutcomeSettled(c, settled', i, outcome);
    forall v | 0 <= v < |s.workers| && v != w
      ensures PhaseSettled(c, settled', s'.workers[v])
    {
      assert PhaseSettled(c, settled, s.workers[v]);
    }
  }

  lemma BlobNamesExtend(cache: nat, repo: string, docs: seq<Document>, doc: Document)
    requires doc.manifest.Some?
    ensures forall n :: n in BlobNames(cache, repo, docs + [doc]) ==>
              n in BlobNames(cache, repo, docs) || n.digest in BlobsToWarm(doc.manifest.value)
  {
  }

  lemma StartSettled(c: Config, settled: set<Name>, job: Job, doc: Document)
    requires Settled(settled, job.cache, job.repo, job.docs, [])
    ensures PhaseSettled(c, settled, StartWalk(job, doc))
  {
    if doc.manifest.Some? {
      BlobNamesExtend(job.cache, job.repo, job.docs, doc);
      var digs := BlobsToWarm(doc.manifest.value);
      assert digs[0..] == digs;
    }
  }

  /** The key at position k is in the set, so it need not be excepted any more. */
  lemma SettledPast(settled: set<Name>, job: Job, digs: seq<string>, k: nat)
    requires k < |digs| && Settled(settled, job.cache, job.repo, job.docs, digs[k..])
    requires Name(job.cache, job.repo, digs[k]) in settled
    ensures Settled(settled, job.cache, job.repo, job.docs, digs[k + 1..])
  {
    assert digs[k..] == [digs[k]] + digs[k + 1..];
  }

  lemma SettledLater(settled: set<Name>, settled': set<Name>, cache: nat, repo: string, docs: seq<Document>, except: seq<string>)
    requires settled <= settled' && Settled(settled, cache, repo, docs, except)
    ensures Settled(settled', cache, repo, docs, except)
  {
  }

  /** A worker's step keeps its promise for any growing set that has the blobs it passes over and those it has
      read to the end. */
  lemma MoverSettled(c: Config, next: nat, seen: set<Name>, settled: set<Name>, settled': set<Name>, p: Phase, a: Answer)
    requires Ready(c, p, a) && PhaseSettled(c, settled, p) && settled <= settled'
    requires p.Fetch? && !a.Error? ==> p.key in settled'
    requires p.Walk? ==> PullsTarget(c, p.job) && (p.k < |p.digs| && Name(p.job.cache, p.job.repo, p.digs[p.k]) in seen ==>
                                                     Name(p.job.cache, p.job.repo, p.digs[p.k]) in settled')
    requires p.Scan? ==> PullsTarget(c, p.job)
    ensures PhaseSettled(c, settled', Next(c, next, seen, p, a).0)
  {
    match p
    case Resolve(i) =>
      if a.Body? && c.refs[i] in c.target {
        OpenedSettled(c, settled', i, a.doc);
      }
    case Scan(job) => ScanSettled(c, next, seen, settled, settled', job, a);
    case Walk(job, digs, k) => WalkSettled(c, next, seen, settled, settled', job, digs, k);
    case Fetch(job, digs, k, key) =>
      SettledLater(settled, settled', job.cache, job.repo, job.docs, digs[k..]);
      if !a.Error? {
        SettledPast(settled', job, digs, k);
      }
    case _ =>
  }

  lemma ScanSettled(c: Config, next: nat, seen: set<Name>, settled: set<Name>, settled': set<Name>, job: Job, a: Answer)
    requires Ready(c, Scan(job), a) && PhaseSettled(c, settled, Scan(job)) && settled <= settled' && PullsTarget(c, job)
    ensures PhaseSettled(c, settled', Next(c, next, seen, Scan(job), a).0)
  {
    SettledLater(settled, settled', job.cache, job.repo, job.docs, []);
    if job.rest != [] && a.Body? {
      StartSettled(c, settled', job.(rest := job.rest[1..]), a.doc);
    }
  }

  lemma OpenedSettled(c: Config, settled: set<Name>, i: nat, doc: Document)
    requires i < |c.refs| && c.refs[i] in c.target
    ensures PhaseSettled(c, settled, Opened(i, Top(c, i), doc))
  {
    StartSettled(c, settled, Job(i, Top(c, i).cache, Top(c, i).repo, doc.index, [], [], 0, 0), doc);
  }

  lemma WalkSettled(c: Config, next: nat, seen: set<Name>, settled: set<Name>, settled': set<Name>, job: Job, digs: seq<string>, k: nat)
    requires PhaseSettled(c, settled, Walk(job, digs, k)) && settled <= settled' && PullsTarget(c, job)
    requires k < |digs| && Name(job.cache, job.repo, digs[k]) in seen ==> Name(job.cache, job.repo, digs[k]) in settled'
    ensures PhaseSettled(c, settled', Next(c, next, seen, Walk(job, digs, k), Error).0)
  {
    SettledLater(settled, settled', job.cache, job.repo, job.docs, digs[k..]);
    if k < |digs| && Name(job.cache, job.repo, digs[k]) in seen {
      SettledPast(settled', job, digs, k);
    }
  }

  lemma TracedKept(c: Config, s: State, s': State, w: nat, p: Phase, e: Effect)
    requires Moved(c, s, s', w, p, e) && Traced(c, s)
    requires e.Record? ==> OutcomeTraced(c, s, e.i, e.outcome)
    requires PhaseTraced(c, s', p)
    ensures Traced(c, s')
  {
    Monotone(c, s, s', w, p, e);
    forall v | 0 <= v < |s.workers| && v != w
      ensures PhaseTraced(c, s', s'.workers[v])
    {
      PhaseTracedKept(c, s, s', s.workers[v]);
    }
    forall i | i in s'.results
      ensures OutcomeTraced(c, s', i, s'.results[i].outcome)
    {
      OutcomeTracedKept(c, s, s', i, s'.results[i].outcome);
    }
  }

  lemma OutcomeTracedKept(c: Config, s: State, s': State, i: nat, outcome: Outcome)
    requires s.read <= s'.read && OutcomeTraced(c, s, i, outcome)
    ensures OutcomeTraced(c, s', i, outcome)
  {
  }

  lemma PhaseTracedKept(c: Config, s: State, s': State, p: Phase)
    requires s.read <= s'.read && PhaseTraced(c, s, p)
    ensures PhaseTraced(c, s', p)
  {
  }

  lemma FollowsSkip(c: Config, read: set<Name>, top: Name, job: Job)
    requires Known(c.pinned, top, c.platform) && Follows(c, read, top, job)
    requires job.rest != [] && !PlatformMatches(c.platform, job.rest[0].plat)
    ensures Follows(c, read, top, job.(rest := job.rest[1..]))
  {
    assert forall e :: e in job.rest <==> e == job.rest[0] || e in job.rest[1..];
  }

  lemma FollowsTake(c: Config, read: set<Name>, top: Name, job: Job, doc: Document)
    requires Known(c.pinned, top, c.platform) && Follows(c, read, top, job)
    requires job.rest != [] && PlatformMatches(c.platform, job.rest[0].plat)
    requires var child := Name(job.cache, job.repo, job.rest[0].digest); child in c.pinned ==> doc == c.pinned[child]
    ensures Follows(c, read + {Name(job.cache, job.repo, job.rest[0].digest)}, top, job.(rest := job.rest[1..], docs := job.docs + [doc]))
  {
    assert forall e :: e in job.rest <==> e == job.rest[0] || e in job.rest[1..];
    var rest := ChildDocs(c.pinned, job.cache, job.repo, job.rest[1..], c.platform);
    assert job.docs + ([doc] + rest) == job.docs + [doc] + rest;
  }

  lemma FollowsStart(c: Config, read: set<Name>, top: Name, i: nat, doc: Document)
    requires Known(c.pinned, top, c.platform) && doc == c.pinned[top] && top in read
    ensures !doc.index ==> Follows(c, read, top, Job(i, top.cache, top.repo, false, [], [doc], 0, 0))
    ensures doc.index && doc.children.Some? ==>
              Follows(c, read, top, Job(i, top.cache, top.repo, true, Entries(doc.children.value), [], 0, 0))
  {
    if doc.index && doc.children.Some? {
      var docs := ChildDocs(c.pinned, top.cache, top.repo, Entries(doc.children.value), c.platform);
      assert [] + docs == docs;
    }
  }

  /** The manifests read once the step is taken. */
  function ReadBy(read: set<Name>, e: Effect): set<Name> {
    if e.Got? then read + {e.n} else read
  }

  lemma MoverTraced(c: Config, s: State, s': State, p: Phase, a: Answer)
    requires Ready(c, p, a) && PhaseTraced(c, s, p)
    requires s'.read == ReadBy(s.read, Next(c, s.next, s.seen, p, a).1)
    ensures PhaseTraced(c, s', Next(c, s.next, s.seen, p, a).0)
  {
    match p
    case Resolve(i) =>
      if c.refs[i] in c.target && a.Body? {
        OpenedTraced(c, s', i, a.doc);
      }
    case Scan(job) => ScanTraced(c, s, s', job, a);
    case Walk(job, digs, k) => assert job.docs + [] == job.docs;
    case _ =>
  }

  lemma StartTraced(c: Config, s: State, job: Job, doc: Document)
    requires doc.manifest.Some? ==> JobTraced(c, s, job.(docs := job.docs + [doc]))
    requires job.i < |c.refs|
    requires job.manifests == |job.docs| && job.blobs == BlobReferences(job.docs) && (!job.index ==> job.rest == [])
    ensures PhaseTraced(c, s, StartWalk(job, doc))
  {
    assert (job.docs + [doc])[..|job.docs|] == job.docs;
  }

  lemma OpenedTraced(c: Config, s: State, i: nat, doc: Document)
    requires i < |c.refs| && c.refs[i] in c.target && Top(c, i) in s.read
    requires Top(c, i) in c.pinned ==> doc == c.pinned[Top(c, i)]
    ensures PhaseTraced(c, s, Opened(i, Top(c, i), doc))
  {
    var top := Top(c, i);
    if Known(c.pinned, top, c.platform) {
      FollowsStart(c, s.read, top, i, doc);
    }
    if !doc.index {
      assert [] + [doc] == [doc];
      StartTraced(c, s, Job(i, top.cache, top.repo, false, [], [], 0, 0), doc);
    }
  }

  lemma ScanTraced(c: Config, s: State, s': State, job: Job, a: Answer)
    requires Ready(c, Scan(job), a) && PhaseTraced(c, s, Scan(job))
    requires s'.read == ReadBy(s.read, Next(c, s.next, s.seen, Scan(job), a).1)
    ensures PhaseTraced(c, s', Next(c, s.next, s.seen, Scan(job), a).0)
  {
    var top := Top(c, job.i);
    if job.rest == [] {
      ScanEndTraced(c, s', job);
    } else if !PlatformMatches(c.platform, job.rest[0].plat) {
      if Known(c.pinned, top, c.platform) {
        FollowsSkip(c, s.read, top, job);
      }
    } else if a.Body? {
      if Known(c.pinned, top, c.platform) {
        FollowsTake(c, s.read, top, job, a.doc);
      }
      StartTraced(c, s', job.(rest := job.rest[1..]), a.doc);
    }
  }

  lemma ScanEndTraced(c: Config, s: State, job: Job)
    requires PhaseTraced(c, s, Scan(job)) && job.rest == []
    ensures job.manifests != 0 || c.platform == "" ==>
              OutcomeTraced(c, s, job.i, Warmed(job.manifests, job.blobs, job.docs))
  {
    var top := Top(c, job.i);
    if Known(c.pinned, top, c.platform) {
      assert job.docs + [] == job.docs;
      MatchFound(c.pinned, top, c.platform);
    }
  }

  /** An index with a walked document has a wanted child. */
  lemma MatchFound(docs: map<Name, Document>, top: Name, platform: string)
    requires Known(docs, top, platform) && docs[top].index && docs[top].children.Some?
    ensures Walked(docs, top, platform) != [] ==> HasMatch(docs[top], platform)
  {
    ChildDocsMembers(docs, top.cache, top.repo, Entries(docs[top].children.value), platform);
    var walked := Walked(docs, top, platform);
    if walked != [] {
      assert walked[0] in walked;
    }
  }

  lemma DispatchKept(c: Config, s: State, s': State, w: nat, p: Phase, e: Effect)
    requires Moved(c, s, s', w, p, e) && Dispatched(c, s)
    requires p.Exited? ==> s.next >= |c.refs|
    requires match e
             case Take => Owned(s.workers[w]).None? && s.next < |c.refs| && Owned(p) == Some(s.next)
             case Record(i, outcome) => i < |c.refs| && s.workers[w] == Report(i, outcome) && Owned(p).None?
             case _ => Owned(s.workers[w]) == Owned(p)
    ensures Dispatched(c, s')
  {
    assert forall v, i: nat :: v != w ==> (Owns(s', v, i) <==> Owns(s, v, i));
    var before, after := Owned(s.workers[w]), Owned(p);
    assert before.Some? ==> Owns(s, w, before.value);
    assert after.Some? ==> Owns(s', w, after.value);
    forall i: nat | i < s'.next
      ensures i in s'.results || exists v :: Owns(s', v, i)
    {
      if i < s.next && i !in s.results {
        var v :| Owns(s, v, i);
        assert v != w ==> Owns(s', v, i);
      }
    }
  }

  lemma TallyKept(c: Config, s: State, s': State, w: nat, p: Phase, e: Effect)
    requires Moved(c, s, s', w, p, e) && Tallied(s)
    requires match e
             case Take => Busy(s.workers[w]) == 0 && Busy(p) == 1
             case Count => Busy(s.workers[w]) == 1 && Busy(p) == 0
             case _ => Busy(s.workers[w]) == Busy(p)
    ensures Tallied(s')
  {
    SumUpdate(s.workers, w, p, Busy);
  }

  lemma StepInv(c: Config, s: State, w: nat, a: Answer)
    requires Enabled(c, s, w, a) && Inv(c, s)
    ensures Inv(c, Advance(c, s, w, a))
  {
    var before, s' := s.workers[w], Advance(c, s, w, a);
    var (p, e) := Next(c, s.next, s.seen, before, a);
    EffectOnClaim(c, s.next, s.seen, before, a);
    ClaimsKept(c, s, s', w, p, e);
    EffectOnOwner(c, s.next, s.seen, before, a);
    BlamesKept(c, s, s', w, p, e);
    DispatchKept(c, s, s', w, p, e);
    EffectOnBusy(c, s.next, s.seen, before, a);
    TallyKept(c, s, s', w, p, e);
    StepSettledAndTraced(c, s, w, a);
  }

  lemma StepSettledAndTraced(c: Config, s: State, w: nat, a: Answer)
    requires Enabled(c, s, w, a) && ClaimsPartition(c, s) && Promises(c, s, Tried(s)) && Traced(c, s)
    ensures Promises(c, Advance(c, s, w, a), Tried(Advance(c, s, w, a))) && Traced(c, Advance(c, s, w, a))
  {
    var before, s' := s.workers[w], Advance(c, s, w, a);
    var (p, e) := Next(c, s.next, s.seen, before, a);
    EffectOnClaim(c, s.next, s.seen, before, a);
    EffectOnOwner(c, s.next, s.seen, before, a);
    Monotone(c, s, s', w, p, e);
    assert PhaseSettled(c, Tried(s), before) && PhaseTraced(c, s, before);
    assert Held(before).Some? ==> Holds(s, w, Held(before).value);
    MoverSettled(c, s.next, s.seen, Tried(s), Tried(s'), before, a);
    PromisesKept(c, s, s', w, p, e, Tried(s), Tried(s'));
    MoverTraced(c, s, s', before, a);
    TracedKept(c, s, s', w, p, e);
  }

  lemma {:induction false} RunInv(c: Config, run: seq<State>, k: nat)
    requires Run(c, run) && k < |run|
    ensures Inv(c, run[k])
  {
    if k == 0 {
      InitInv(c);
    } else {
      RunInv(c, run, k - 1);
      assert Step(c, run[k - 1], run[k - 1 + 1]);
      var w, a :| Enabled(c, run[k - 1], w, a) && run[k - 1 + 1] == Advance(c, run[k - 1], w, a);
      StepInv(c, run[k - 1], w, a);
    }
  }

  lemma ReachableInv(c: Config, s: State)
    requires Reachable(c, s)
    ensures Inv(c, s)
  {
    var run :| Run(c, run) && run[|run| - 1] == s;
    RunInv(c, run, |run| - 1);
  }

  lemma ReachableClaims(c: Config, s: State)
    requires Reachable(c, s)
    ensures ClaimsPartition(c, s)
  {
    ReachableInv(c, s);
  }

  lemma ReachableDispatched(c: Config, s: State)
    requires Reachable(c, s)
    ensures Dispatched(c, s) && Tallied(s)
  {
    ReachableInv(c, s);
  }

  lemma ReachableResults(c: Config, s: State, i: nat)
    requires Reachable(c, s) && i in s.results
    ensures OutcomeSettled(c, Tried(s), i, s.results[i].outcome) && OutcomeTraced(c, s, i, s.results[i].outcome)
  {
    ReachableInv(c, s);
  }

  lemma ReachableBlamed(c: Config, s: State)
    requires Reachable(c, s)
    ensures Blamed(s)
  {
    ReachableInv(c, s);
  }

  lemma ReachablePhase(c: Config, s: State, w: nat)
    requires Reachable(c, s) && w < |s.workers|
    ensures PhaseTraced(c, s, s.workers[w])
  {
    ReachableInv(c, s);
  }
}
