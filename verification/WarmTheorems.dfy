/** What holds of every run of the warming pool, whatever the schedule and the network do. */
module WarmTheorems {
  import opened Text
  import opened Manifests
  import opened Ordering
  import opened WarmPool

  // ----- claims -------------------------------------------------------------------------------------

  /** The claims the workers hold. */
  ghost function HeldClaims(s: State): set<Name> {
    set w, n | 0 <= w < |s.workers| && n in s.seen && Holds(s, w, n) :: n
  }

  /** At any moment the claim map is the disjoint union of the claims it started with, the blobs fetched
      (each once), and the claims held by one worker each. Once all workers are gone its size, which
      countSeen reports, is the claims it started with plus the number of blobs fetched. */
  lemma ClaimMap(c: Config, s: State)
    requires Reachable(c, s)
    ensures s.seen == c.claimed + Members(s.fetched) + HeldClaims(s)
    ensures c.claimed !! Members(s.fetched) !! HeldClaims(s)
    ensures Distinct(s.fetched)
    ensures forall w, v, n :: Holds(s, w, n) && Holds(s, v, n) ==> w == v
    ensures Terminal(s) ==> |s.seen| == |c.claimed| + |s.fetched|
  {
    ReachableClaims(c, s);
    ClaimUnion(c, s);
    if Terminal(s) {
      NothingHeld(s);
      DistinctSize(s.fetched);
    }
  }

  lemma NothingHeld(s: State)
    requires Terminal(s)
    ensures HeldClaims(s) == {}
  {
    assert forall w, n :: !Holds(s, w, n);
  }

  lemma ClaimUnion(c: Config, s: State)
    requires ClaimsPartition(c, s)
    ensures s.seen == c.claimed + Members(s.fetched) + HeldClaims(s)
    ensures c.claimed !! Members(s.fetched) !! HeldClaims(s)
  {
    forall n | n in s.seen
      ensures n in c.claimed + Members(s.fetched) + HeldClaims(s)
    {
      if n !in c.claimed && n !in s.fetched {
        var w :| Holds(s, w, n);
        assert n in HeldClaims(s);
      }
    }
  }

  /** A worker starts a fetch only for a blob that nobody is fetching and nobody has fetched, and deletes
      only its own claim. */
  lemma ClaimsAreExclusive(c: Config, s: State, w: nat, a: Answer)
    requires Reachable(c, s) && Enabled(c, s, w, a)
    ensures var s' := Advance(c, s, w, a);
            && (forall n :: Holds(s', w, n) && !Holds(s, w, n) ==> n !in s.seen && n !in s.fetched && forall v :: !Holds(s, v, n))
            && (forall n :: n in s.seen && n !in s'.seen ==> Holds(s, w, n) && n !in s.fetched && forall v :: Holds(s, v, n) ==> v == w)
            && (forall v, n :: v != w && Holds(s, v, n) ==> Holds(s', v, n) && n in s'.seen)
  {
    ReachableClaims(c, s);
    var s' := Advance(c, s, w, a);
    var (p, e) := Next(c, s.next, s.seen, s.workers[w], a);
    EffectOnClaim(c, s.next, s.seen, s.workers[w], a);
    ExclusiveMove(c, s, s', w, p, e);
  }

  lemma ExclusiveMove(c: Config, s: State, s': State, w: nat, p: Phase, e: Effect)
    requires Moved(c, s, s', w, p, e) && ClaimsPartition(c, s)
    requires match e
             case Claim(n) => n !in s.seen && Held(s.workers[w]).None? && Held(p) == Some(n)
             case Keep(n) => Held(s.workers[w]) == Some(n) && Held(p).None?
             case Drop(n) => Held(s.workers[w]) == Some(n) && Held(p).None?
             case _ => Held(s.workers[w]) == Held(p)
    ensures forall n :: Holds(s', w, n) && !Holds(s, w, n) ==> n !in s.seen && n !in s.fetched && forall v :: !Holds(s, v, n)
    ensures forall n :: n in s.seen && n !in s'.seen ==> Holds(s, w, n) && n !in s.fetched && forall v :: Holds(s, v, n) ==> v == w
    ensures forall v, n :: v != w && Holds(s, v, n) ==> Holds(s', v, n) && n in s'.seen
  {
    assert forall v, n :: v != w ==> (Holds(s', v, n) <==> Holds(s, v, n));
    assert e.Drop? ==> Holds(s, w, e.n);
  }

  /** A blob that was already claimed when the pool started is not fetched by it, whatever happens. */
  lemma StaleClaimsAreSkipped(c: Config, s: State)
    requires Reachable(c, s)
    ensures c.claimed !! Members(s.fetched)
  {
    ReachableClaims(c, s);
  }

  // ----- what success means -------------------------------------------------------------------------

  /** The blobs a successful result stands for. */
  function NeededBlobs(c: Config, s: State, i: nat): set<Name>
    requires i < |c.refs| && c.refs[i] in c.target && i in s.results && s.results[i].outcome.Warmed?
  {
    BlobNames(Top(c, i).cache, Top(c, i).repo, s.results[i].outcome.docs)
  }

  predicate FailedOn(s: State, j: nat, n: Name) {
    j in s.results && s.results[j].outcome.Failed? && s.results[j].outcome.on == Some(n)
  }

  ghost predicate FailedElsewhere(s: State, i: nat, n: Name) {
    exists j :: j != i && FailedOn(s, j, n)
  }

  /** Every blob a successful result needs has been fetched (in this pool or under an earlier claim), or
      some other result failed on that very blob. */
  lemma SuccessIsGlobal(c: Config, s: State, i: nat)
    requires Reachable(c, s) && Terminal(s)
    requires i in s.results && s.results[i].outcome.Warmed?
    ensures i < |c.refs| && c.refs[i] in c.target
    ensures forall n :: n in NeededBlobs(c, s, i) ==> n in c.claimed || n in s.fetched || FailedElsewhere(s, i, n)
  {
    ReachableResults(c, s, i);
    forall n | n in NeededBlobs(c, s, i)
      ensures n in c.claimed || n in s.fetched || FailedElsewhere(s, i, n)
    {
      SettledAtTheEnd(c, s, i, n);
    }
  }

  lemma SettledAtTheEnd(c: Config, s: State, i: nat, n: Name)
    requires Reachable(c, s) && Terminal(s) && i in s.results && s.results[i].outcome.Warmed?
    requires n in s.seen || n in s.failed
    ensures n in c.claimed || n in s.fetched || FailedElsewhere(s, i, n)
  {
    if n in s.failed {
      ReachableBlamed(c, s);
      var j, outcome :| Blames(s, j, outcome, n);
      assert FailedOn(s, j, n);
    } else {
      ClaimMap(c, s);
      NothingHeld(s);
    }
  }

  predicate AllWarmed(s: State) {
    forall i :: i in s.results ==> s.results[i].outcome.Warmed?
  }

  /** So when no result is an error, everything any image needs has been fetched, each blob once, although
      most images skipped the blobs they share; and where the manifests are fixed by digest, what each
      image needs is what Walked and ManifestNames say. */
  lemma NoErrorMeansAllFetched(c: Config, s: State, i: nat)
    requires Reachable(c, s) && Terminal(s) && AllWarmed(s) && i < |c.refs|
    ensures i in s.results && s.results[i].ref == c.refs[i] && c.refs[i] in c.target
    ensures NeededBlobs(c, s, i) <= c.claimed + Members(s.fetched)
    ensures Known(c.pinned, Top(c, i), c.platform) ==>
              && Warmable(c.pinned, Top(c, i), c.platform)
              && s.results[i].outcome.docs == Walked(c.pinned, Top(c, i), c.platform)
              && ManifestNames(c.pinned, Top(c, i), c.platform) <= s.read
  {
    PoolDone(c, s);
    ReachableResults(c, s, i);
    SuccessIsGlobal(c, s, i);
    assert forall n :: !FailedElsewhere(s, i, n);
  }

  /** A worker's step extends a run. */
  lemma Extend(c: Config, s: State, w: nat, a: Answer)
    requires Reachable(c, s) && Enabled(c, s, w, a)
    ensures Reachable(c, Advance(c, s, w, a))
  {
    var run :| Run(c, run) && run[|run| - 1] == s;
    var longer := run + [Advance(c, s, w, a)];
    forall k | 0 <= k < |longer| - 1
      ensures Step(c, longer[k], longer[k + 1])
    {
      if k < |run| - 1 {
        assert Step(c, run[k], run[k + 1]);
      }
    }
    assert Run(c, longer);
  }

  // ----- the pool -----------------------------------------------------------------------------------

  /** When all workers are gone every reference has its own result, in input order, and the counter has
      gone through 1, 2, ..., n. */
  lemma PoolDone(c: Config, s: State)
    requires Reachable(c, s) && Terminal(s)
    ensures forall i :: i in s.results <==> 0 <= i < |c.refs|
    ensures forall i :: 0 <= i < |c.refs| ==> s.results[i].ref == c.refs[i]
    ensures s.done == seq(|c.refs|, k => k + 1)
  {
    ReachableDispatched(c, s);
    SumZero(s.workers, Busy);
    assert s.workers[0].Exited?;
    assert forall w, i: nat :: !Owns(s, w, i);
  }

  /** No more references than workers are ever in progress, and no two workers are on the same one. */
  lemma PoolBounded(c: Config, s: State)
    requires Reachable(c, s)
    ensures 0 <= s.next - |s.done| <= if c.jobs < 1 then 1 else c.jobs
    ensures forall w, v, i :: Owns(s, w, i) && Owns(s, v, i) ==> w == v
  {
    ReachableDispatched(c, s);
    BusyBounded(s.workers);
  }

  /** A result is stored once: when a worker reports, its slot is still empty. */
  lemma ResultStoredOnce(c: Config, s: State, w: nat, a: Answer)
    requires Reachable(c, s) && Enabled(c, s, w, a) && s.workers[w].Report?
    ensures s.workers[w].i !in s.results
    ensures Advance(c, s, w, a).results.Keys == s.results.Keys + {s.workers[w].i}
  {
    ReachableDispatched(c, s);
    assert Owns(s, w, s.workers[w].i);
  }

  /** The pool never blocks: a worker that has not exited can take a step whatever the others do. */
  lemma NeverStuck(c: Config, s: State, w: nat)
    requires Reachable(c, s) && w < |s.workers| && !s.workers[w].Exited?
    ensures Enabled(c, s, w, Error)
  {
    ReachablePhase(c, s, w);
  }

  // Four nested counters go down with every step: references to dispatch, manifests to resolve, index
  // entries to look at, and the steps left on the manifest at hand.

  function Resolving(p: Phase): nat {
    if p.Resolve? then 1 else 0
  }

  function EntriesLeft(p: Phase): nat {
    match p
    case Scan(job) => |job.rest|
    case Walk(job, _, _) => |job.rest|
    case Fetch(job, _, _, _) => |job.rest|
    case _ => 0
  }

  function StepsLeft(p: Phase): nat {
    match p
    case Exited => 0
    case Idle => 1
    case Tally(_) => 2
    case Report(_, _) => 3
    case Scan(_) => 4
    case Release(_, _) => 4
    case Walk(_, digs, k) => 5 + if k <= |digs| then 2 * (|digs| - k) else 0
    case Fetch(_, digs, k, _) => 4 + if k <= |digs| then 2 * (|digs| - k) else 0
    case Resolve(_) => 0
  }

  function Undispatched(c: Config, s: State): nat {
    if s.next <= |c.refs| then |c.refs| - s.next else 0
  }

  ghost predicate Descends(c: Config, s: State, s': State) {
    var r, r' := Undispatched(c, s), Undispatched(c, s');
    var m, m' := Sum(s.workers, Resolving), Sum(s'.workers, Resolving);
    var e, e' := Sum(s.workers, EntriesLeft), Sum(s'.workers, EntriesLeft);
    var t, t' := Sum(s.workers, StepsLeft), Sum(s'.workers, StepsLeft);
    r' < r || (r' == r && (m' < m || (m' == m && (e' < e || (e' == e && t' < t)))))
  }

  /** The part of it that concerns the worker that moved. */
  lemma PhaseDescends(c: Config, next: nat, seen: set<Name>, p: Phase, a: Answer)
    requires Ready(c, p, a) && (p.Fetch? ==> p.k < |p.digs|)
    ensures var (p', e) := Next(c, next, seen, p, a);
            || (e.Take? && next < |c.refs|)
            || (!e.Take? && Resolving(p') < Resolving(p))
            || (!e.Take? && Resolving(p') == Resolving(p) && EntriesLeft(p') < EntriesLeft(p))
            || (!e.Take? && Resolving(p') == Resolving(p) && EntriesLeft(p') == EntriesLeft(p) && StepsLeft(p') < StepsLeft(p))
  {
  }

  lemma StepDescends(c: Config, s: State, w: nat, a: Answer)
    requires Enabled(c, s, w, a) && PhaseTraced(c, s, s.workers[w])
    ensures Descends(c, s, Advance(c, s, w, a))
  {
    var p := s.workers[w];
    var p' := Next(c, s.next, s.seen, p, a).0;
    PhaseDescends(c, s.next, s.seen, p, a);
    SumUpdate(s.workers, w, p', Resolving);
    SumUpdate(s.workers, w, p', EntriesLeft);
    SumUpdate(s.workers, w, p', StepsLeft);
  }

  /** A schedule: from the start, one step after another until every worker has exited. */
  ghost predicate Schedule(c: Config, at: nat -> State) {
    && at(0) == Init(c)
    && forall k: nat :: if Terminal(at(k)) then at(k + 1) == at(k) else Step(c, at(k), at(k + 1))
  }

  lemma {:induction false} ScheduleInv(c: Config, at: nat -> State, k: nat)
    requires Schedule(c, at)
    ensures Inv(c, at(k))
  {
    if k == 0 {
      InitInv(c);
    } else {
      ScheduleInv(c, at, k - 1);
      if !Terminal(at(k - 1)) {
        assert Step(c, at(k - 1), at(k - 1 + 1));
        var w, a :| Enabled(c, at(k - 1), w, a) && at(k - 1 + 1) == Advance(c, at(k - 1), w, a);
        StepInv(c, at(k - 1), w, a);
      }
    }
  }

  /** Every schedule ends: as long as requests end, in whatever order the workers run, all of them exit. */
  lemma PoolTerminates(c: Config, at: nat -> State)
    requires Schedule(c, at)
    ensures exists k :: Terminal(at(k))
  {
    var k := EndsFrom(c, at, 0);
  }

  lemma {:induction false} EndsFrom(c: Config, at: nat -> State, k: nat) returns (end: nat)
    requires Schedule(c, at)
    ensures Terminal(at(end))
    decreases Undispatched(c, at(k)), Sum(at(k).workers, Resolving), Sum(at(k).workers, EntriesLeft), Sum(at(k).workers, StepsLeft)
  {
    if Terminal(at(k)) {
      end := k;
    } else {
      ScheduleInv(c, at, k);
      assert Step(c, at(k), at(k + 1));
      var w: nat, a :| Enabled(c, at(k), w, a) && at(k + 1) == Advance(c, at(k), w, a);
      assert PhaseTraced(c, at(k), at(k).workers[w]);
      StepDescends(c, at(k), w, a);
      end := EndsFrom(c, at, k + 1);
    }
  }
}
