/** How warming each image ends, in every run of the pool: it succeeds iff the image can be warmed at all and no
    request made for it is answered with an error. */
module WarmOutcomes {
  import opened Platforms
  import opened Manifests
  import opened WarmPool

  /** Worker w takes a step, its request, if any, being answered with a. */
  datatype Move = Move(w: nat, a: Answer)

  /** The run with the moves that make it. */
  ghost predicate Made(c: Config, run: seq<State>, moves: seq<Move>) {
    |run| == |moves| + 1 && run[0] == Init(c) && forall k :: 0 <= k < |moves| ==> MadeAt(c, run, moves, k)
  }

  ghost predicate MadeAt(c: Config, run: seq<State>, moves: seq<Move>, k: nat)
    requires k < |moves| == |run| - 1
  {
    Enabled(c, run[k], moves[k].w, moves[k].a) && run[k + 1] == Advance(c, run[k], moves[k].w, moves[k].a)
  }

  /** The worker is asking a cache for a manifest or a blob. */
  predicate Asks(c: Config, p: Phase) {
    match p
    case Resolve(i) => i < |c.refs| && c.refs[i] in c.target
    case Scan(job) => job.rest != [] && PlatformMatches(c.platform, job.rest[0].plat)
    case Fetch(_, _, _, _) => true
    case _ => false
  }

  /** The image for which this step's request fails, if it does. */
  function FailedFor(c: Config, p: Phase, a: Answer): set<nat> {
    if Asks(c, p) && a.Error? && Owned(p).Some? then {Owned(p).value} else {}
  }

  /** The images for which some request has failed. */
  function FailedOver(c: Config, run: seq<State>, moves: seq<Move>, n: nat): set<nat>
    requires n <= |moves| && |run| == |moves| + 1
  {
    if n == 0 then {}
    else
      var s, m := run[n - 1], moves[n - 1];
      FailedOver(c, run, moves, n - 1) + if m.w < |s.workers| then FailedFor(c, s.workers[m.w], m.a) else {}
  }

  /** There is no image to pull, or its manifests are known not to make one that can be warmed; of those that
      are not known nothing is said. */
  predicate Hopeless(c: Config, i: nat) {
    i < |c.refs| && (c.refs[i] in c.target && Known(c.pinned, Top(c, i), c.platform) ==> !Warmable(c.pinned, Top(c, i), c.platform))
  }

  predicate OutcomeSound(c: Config, failed: set<nat>, i: nat, o: Outcome) {
    && (o.Warmed? ==> i !in failed)
    && (o.Failed? ==> i in failed || Hopeless(c, i))
  }

  predicate PhaseSound(c: Config, failed: set<nat>, p: Phase) {
    match p
    case Release(job, _) => job.i in failed
    case Report(i, o) => OutcomeSound(c, failed, i, o)
    case _ => Owned(p).Some? ==> Owned(p).value !in failed
  }

  ghost predicate AllSound(c: Config, s: State, failed: set<nat>) {
    && (forall i :: i in failed ==> i < s.next)
    && (forall w :: 0 <= w < |s.workers| ==> PhaseSound(c, failed, s.workers[w]))
    && (forall i :: i in s.results ==> OutcomeSound(c, failed, i, s.results[i].outcome))
  }

  // ----- one step -----------------------------------------------------------------------------------

  /** A manifest that cannot be decoded makes the image that walks it hopeless. */
  lemma StartSound(c: Config, failed: set<nat>, job: Job, doc: Document)
    requires job.i !in failed && (doc.manifest.None? ==> Hopeless(c, job.i))
    ensures PhaseSound(c, failed, StartWalk(job, doc))
  {
  }

  lemma OpenedSound(c: Config, failed: set<nat>, i: nat, doc: Document)
    requires i < |c.refs| && c.refs[i] in c.target && i !in failed
    requires Top(c, i) in c.pinned ==> doc == c.pinned[Top(c, i)]
    ensures PhaseSound(c, failed, Opened(i, Top(c, i), doc))
  {
    var top := Top(c, i);
    if Known(c.pinned, top, c.platform) && !doc.index {
      assert doc in Walked(c.pinned, top, c.platform);
    }
  }

  lemma ScanEndSound(c: Config, s: State, failed: set<nat>, job: Job)
    requires PhaseTraced(c, s, Scan(job)) && job.rest == [] && job.i !in failed
    ensures job.manifests == 0 && c.platform != "" ==> Hopeless(c, job.i)
  {
    var top := Top(c, job.i);
    if job.manifests == 0 && c.platform != "" && Known(c.pinned, top, c.platform) {
      assert Walked(c.pinned, top, c.platform) == [];
      var entries := Entries(c.pinned[top].children.value);
      ChildDocsMembers(c.pinned, top.cache, top.repo, entries, c.platform);
    }
  }

  lemma ChildHopeless(c: Config, s: State, job: Job, doc: Document)
    requires PhaseTraced(c, s, Scan(job)) && job.rest != [] && PlatformMatches(c.platform, job.rest[0].plat) && doc.manifest.None?
    requires var child := Name(job.cache, job.repo, job.rest[0].digest); child in c.pinned ==> doc == c.pinned[child]
    ensures Hopeless(c, job.i)
  {
    var top := Top(c, job.i);
    if Known(c.pinned, top, c.platform) {
      var docs := ChildDocs(c.pinned, job.cache, job.repo, job.rest, c.platform);
      assert job.rest[0] in job.rest;
      assert docs[0] == doc;
      assert Walked(c.pinned, top, c.platform)[|job.docs|] == doc;
    }
  }

  /** A worker's step is sound for its own image. */
  lemma MoverSound(c: Config, s: State, failed: set<nat>, p: Phase, a: Answer)
    requires Ready(c, p, a) && PhaseTraced(c, s, p) && PhaseSound(c, failed, p) && s.next !in failed
    ensures PhaseSound(c, failed + FailedFor(c, p, a), Next(c, s.next, s.seen, p, a).0)
  {
    match p
    case Resolve(i) =>
      if c.refs[i] in c.target && a.Body? {
        OpenedSound(c, failed, i, a.doc);
      }
    case Scan(job) =>
      if job.rest == [] {
        ScanEndSound(c, s, failed, job);
      } else if PlatformMatches(c.platform, job.rest[0].plat) && a.Body? {
        if a.doc.manifest.None? {
          ChildHopeless(c, s, job, a.doc);
        }
        StartSound(c, failed, job.(rest := job.rest[1..]), a.doc);
      }
    case _ =>
  }

  lemma StepSound(c: Config, s: State, w: nat, a: Answer, failed: set<nat>)
    requires Enabled(c, s, w, a) && Dispatched(c, s) && PhaseTraced(c, s, s.workers[w]) && AllSound(c, s, failed)
    ensures AllSound(c, Advance(c, s, w, a), failed + FailedFor(c, s.workers[w], a))
  {
    var p, s' := s.workers[w], Advance(c, s, w, a);
    MoverSound(c, s, failed, p, a);
    EffectOnOwner(c, s.next, s.seen, p, a);
    assert Owned(p).Some? ==> Owns(s, w, Owned(p).value);
    forall v | 0 <= v < |s.workers| && v != w
      ensures PhaseSound(c, failed + FailedFor(c, p, a), s'.workers[v])
    {
      var q := s.workers[v];
      assert Owned(q).Some? ==> Owns(s, v, Owned(q).value);
    }
  }

  // ----- every run ----------------------------------------------------------------------------------

  lemma MadeRuns(c: Config, run: seq<State>, moves: seq<Move>)
    requires Made(c, run, moves)
    ensures Run(c, run)
  {
    forall k | 0 <= k < |run| - 1
      ensures Step(c, run[k], run[k + 1])
    {
      assert MadeAt(c, run, moves, k);
    }
  }

  lemma {:induction false} RunSound(c: Config, run: seq<State>, moves: seq<Move>, n: nat)
    requires Made(c, run, moves) && Run(c, run) && n <= |moves|
    ensures AllSound(c, run[n], FailedOver(c, run, moves, n))
  {
    if n > 0 {
      RunSound(c, run, moves, n - 1);
      RunInv(c, run, n - 1);
      assert MadeAt(c, run, moves, n - 1);
      assert PhaseTraced(c, run[n - 1], run[n - 1].workers[moves[n - 1].w]);
      StepSound(c, run[n - 1], moves[n - 1].w, moves[n - 1].a, FailedOver(c, run, moves, n - 1));
    }
  }

  /** Whatever the schedule and however the network behaves, warming an image of known manifests succeeds iff
      these make an image that can be warmed and no request made for it has failed. Errors met on behalf of
      other images do not count, not even on blobs that it shares with them. */
  lemma WarmSucceedsIff(c: Config, run: seq<State>, moves: seq<Move>, i: nat)
    requires Made(c, run, moves) && i in run[|moves|].results
    ensures i < |c.refs|
    ensures var o := run[|moves|].results[i].outcome;
            && (c.refs[i] !in c.target ==> o.Failed?)
            && (i in FailedOver(c, run, moves, |moves|) ==> o.Failed?)
            && (c.refs[i] in c.target && Known(c.pinned, Top(c, i), c.platform) ==>
                  (o.Warmed? <==> Warmable(c.pinned, Top(c, i), c.platform) && i !in FailedOver(c, run, moves, |moves|)))
  {
    MadeRuns(c, run, moves);
    RunSound(c, run, moves, |moves|);
    ReachableResults(c, run[|moves|], i);
  }

  lemma MadeMore(c: Config, run: seq<State>, moves: seq<Move>, w: nat, a: Answer)
    requires Made(c, run, moves) && Enabled(c, run[|moves|], w, a)
    ensures Made(c, run + [Advance(c, run[|moves|], w, a)], moves + [Move(w, a)])
  {
    var run', moves' := run + [Advance(c, run[|moves|], w, a)], moves + [Move(w, a)];
    forall k | 0 <= k < |moves'|
      ensures MadeAt(c, run', moves', k)
    {
      assert k < |moves| ==> MadeAt(c, run, moves, k);
    }
  }

  /** Every run is made by some moves. */
  lemma MovesOf(c: Config, run: seq<State>) returns (moves: seq<Move>)
    requires Run(c, run)
    ensures Made(c, run, moves)
  {
    moves := [];
    for n := 0 to |run| - 1
      invariant Made(c, run[..n + 1], moves)
    {
      assert Step(c, run[n], run[n + 1]);
      var w: nat, a :| Enabled(c, run[n], w, a) && run[n + 1] == Advance(c, run[n], w, a);
      MadeMore(c, run[..n + 1], moves, w, a);
      assert run[..n + 2] == run[..n + 1] + [run[n + 1]];
      moves := moves + [Move(w, a)];
    }
    assert run[..|run|] == run;
  }
}
