/** What every run of the blob cache keeps: its directory is an append-only map from digests to the bytes
    they name, and once a blob is there requests for it are served from it. */
module ProxyTheorems {
  import opened BlobProxy

  /** For any requests, upstream bodies, truncations and failures: every committed file hashes to its name,
      and every temporary file belongs to a handler still at work, so none is left when all have ended. */
  lemma CacheIntegrity(hash: Bytes -> string, run: seq<State>)
    requires Run(hash, run) && Initial(hash, run[0])
    ensures var s := run[|run| - 1];
            && Intact(hash, s)
            && (forall t :: t in s.temps ==> exists i: nat :: HasTemp(s, i, t) && !s.handlers[i].Done?)
            && ((forall i :: 0 <= i < |s.handlers| ==> s.handlers[i].Done?) ==> s.temps == map[])
  {
    InitialInv(hash, run[0]);
    RunInv(hash, run, |run| - 1);
    var s := run[|run| - 1];
    forall t | t in s.temps
      ensures exists i: nat :: HasTemp(s, i, t) && !s.handlers[i].Done?
    {
      var i :| HasTemp(s, i, t);
    }
    if forall i :: 0 <= i < |s.handlers| ==> s.handlers[i].Done? {
      assert forall t :: t !in s.temps;
    }
  }

  /** A step of the simple cache that this one implements: a map that only ever gains a digest with the
      bytes it names. */
  ghost predicate AbstractStep(hash: Bytes -> string, m: map<string, Bytes>, m': map<string, Bytes>) {
    m' == m || exists b: Bytes :: hash(b) !in m && m' == m[hash(b) := b]
  }

  /** Even when two misses for one blob both rename over it, the directory changes as the simple cache does. */
  lemma StepRefines(hash: Bytes -> string, s: State, s': State)
    requires Inv(hash, s) && Injective(hash) && Step(hash, s, s')
    ensures AbstractStep(hash, s.blobs, s'.blobs)
  {
    if i: nat, e :| i < |s.handlers| && Possible(s, s.handlers[i], e) && s' == Advance(hash, s, i, e) {
      CommittedOnlyByRename(hash, s, i, e);
      var h := s.handlers[i];
      if s'.blobs != s.blobs {
        assert hash(h.got) !in s.blobs && s'.blobs == s.blobs[hash(h.got) := h.got];
      }
    }
  }

  ghost predicate Extends(m: map<string, Bytes>, m': map<string, Bytes>) {
    forall d :: d in m ==> d in m' && m'[d] == m[d]
  }

  lemma RunExtends(hash: Bytes -> string, run: seq<State>, k: nat)
    requires Run(hash, run) && Inv(hash, run[0]) && Injective(hash) && k + 1 < |run|
    ensures Extends(run[k].blobs, run[k + 1].blobs)
  {
    RunInv(hash, run, k);
    StepAt(hash, run, k);
    StepRefines(hash, run[k], run[k + 1]);
  }

  lemma {:induction false} ChainExtends(run: seq<State>, j: nat, k: nat)
    requires j <= k < |run| && forall m: nat :: m + 1 < |run| ==> Extends(run[m].blobs, run[m + 1].blobs)
    ensures Extends(run[j].blobs, run[k].blobs)
  {
    if j < k {
      ChainExtends(run, j, k - 1);
      assert Extends(run[k - 1].blobs, run[k - 1 + 1].blobs);
    }
  }

  /** A committed blob is never removed or altered. */
  lemma AppendOnly(hash: Bytes -> string, run: seq<State>, j: nat, k: nat)
    requires Run(hash, run) && Inv(hash, run[0]) && Injective(hash) && j <= k < |run|
    ensures forall d :: d in run[j].blobs ==> d in run[k].blobs && run[k].blobs[d] == run[j].blobs[d]
  {
    forall m: nat | m + 1 < |run|
      ensures Extends(run[m].blobs, run[m + 1].blobs)
    {
      RunExtends(hash, run, m);
    }
    ChainExtends(run, j, k);
  }

  /** What a handler that found its blob holds. */
  ghost predicate HitRight(s: State, h: Handler) {
    match h
    case Open(d, size) => d in s.blobs && size == |s.blobs[d]|
    case Hit(d, length, file) => d in s.blobs && file == s.blobs[d] && length == |file|
    case Remove(_, _, _, end) => !end.Served?
    case Done(d, _, Served(length, body)) => d in s.blobs && body == s.blobs[d] && length == |body|
    case _ => true
  }

  ghost predicate HitsRight(s: State) {
    forall i :: 0 <= i < |s.handlers| ==> HitRight(s, s.handlers[i])
  }

  lemma MoverHitsRight(hash: Bytes -> string, s: State, i: nat, e: Event)
    requires i < |s.handlers| && Possible(s, s.handlers[i], e) && HitRight(s, s.handlers[i])
    requires Extends(s.blobs, Advance(hash, s, i, e).blobs)
    ensures HitRight(Advance(hash, s, i, e), Advance(hash, s, i, e).handlers[i])
  {
  }

  lemma StepHitsRight(hash: Bytes -> string, run: seq<State>, k: nat)
    requires Run(hash, run) && k + 1 < |run| && Extends(run[k].blobs, run[k + 1].blobs) && HitsRight(run[k])
    ensures HitsRight(run[k + 1])
  {
    var s, s' := run[k], run[k + 1];
    StepAt(hash, run, k);
    if i: nat, e :| i < |s.handlers| && Possible(s, s.handlers[i], e) && s' == Advance(hash, s, i, e) {
      MoverHitsRight(hash, s, i, e);
      OthersHitRight(s, s', i);
    } else {
      OthersHitRight(s, s', |s.handlers|);
    }
  }

  lemma OthersHitRight(s: State, s': State, i: nat)
    requires HitsRight(s) && Extends(s.blobs, s'.blobs) && |s'.handlers| >= |s.handlers|
    requires forall j :: 0 <= j < |s.handlers| && j != i ==> s'.handlers[j] == s.handlers[j]
    ensures forall j :: 0 <= j < |s.handlers| && j != i ==> HitRight(s', s'.handlers[j])
  {
    forall j | 0 <= j < |s.handlers| && j != i
      ensures HitRight(s', s'.handlers[j])
    {
      assert HitRight(s, s.handlers[j]);
    }
  }

  lemma {:induction false} RunHitsRight(hash: Bytes -> string, run: seq<State>, k: nat)
    requires Run(hash, run) && Initial(hash, run[0]) && Injective(hash) && k < |run|
    ensures HitsRight(run[k])
  {
    if k > 0 {
      RunHitsRight(hash, run, k - 1);
      InitialInv(hash, run[0]);
      RunExtends(hash, run, k - 1);
      StepHitsRight(hash, run, k - 1);
    }
  }

  /** The handler has turned to the upstream, or ended after doing so. */
  predicate WentUpstream(h: Handler) {
    match h
    case Ask(_, _) => true
    case Create(_, _) => true
    case Copy(_, _, _, _) => true
    case Rename(_, _, _, _) => true
    case Remove(_, _, _, _) => true
    case Done(_, _, end) => !end.Served? && !end.CutOff?
    case _ => false
  }

  /** The handler looked for its blob (or will) only after s0, which holds it; if it goes upstream all the
      same, it is because opening the file failed. */
  ghost predicate StaysLocal(s0: State, s: State, i: nat) {
    i < |s.handlers| ==>
      var h := s.handlers[i];
      h.digest in s0.blobs && (i < |s0.handlers| ==> s0.handlers[i] == Stat(h.digest)) && WentUpstream(h) ==>
        h.forced
  }

  ghost predicate AllStayLocal(s0: State, s: State) {
    forall i: nat :: StaysLocal(s0, s, i)
  }

  lemma LocalKept(hash: Bytes -> string, s0: State, s: State, i: nat, e: Event)
    requires i < |s.handlers| && Possible(s, s.handlers[i], e)
    requires Extends(s0.blobs, s.blobs) && StaysLocal(s0, s, i)
    ensures StaysLocal(s0, Advance(hash, s, i, e), i)
    ensures Advance(hash, s, i, e).handlers[i].digest == s.handlers[i].digest
  {
  }

  lemma StepStaysLocal(hash: Bytes -> string, s0: State, run: seq<State>, k: nat)
    requires Run(hash, run) && k + 1 < |run| && Extends(s0.blobs, run[k].blobs) && |s0.handlers| <= |run[k].handlers|
    requires AllStayLocal(s0, run[k])
    ensures |s0.handlers| <= |run[k + 1].handlers|
    ensures AllStayLocal(s0, run[k + 1])
  {
    var s, s' := run[k], run[k + 1];
    StepAt(hash, run, k);
    if h: nat, e :| h < |s.handlers| && Possible(s, s.handlers[h], e) && s' == Advance(hash, s, h, e) {
      forall i: nat
        ensures StaysLocal(s0, s', i)
      {
        assert StaysLocal(s0, s, i);
        if h == i {
          LocalKept(hash, s0, s, i, e);
        }
      }
    } else {
      assert forall i: nat :: i < |s.handlers| ==> StaysLocal(s0, s, i) && s'.handlers[i] == s.handlers[i];
    }
  }

  /** The requests of s0 are all there, and stay local as far as they should. */
  ghost predicate LocalAfter(s0: State, s: State) {
    |s0.handlers| <= |s.handlers| && AllStayLocal(s0, s)
  }

  lemma {:induction false} ChainStaysLocal(run: seq<State>, j: nat, k: nat)
    requires j <= k < |run| && LocalAfter(run[j], run[j])
    requires forall m: nat :: j <= m < |run| - 1 && LocalAfter(run[j], run[m]) ==> LocalAfter(run[j], run[m + 1])
    ensures LocalAfter(run[j], run[k])
  {
    if j < k {
      ChainStaysLocal(run, j, k - 1);
      assert LocalAfter(run[j], run[k - 1 + 1]);
    }
  }

  lemma LaterHandlersStayLocal(hash: Bytes -> string, run: seq<State>, j: nat, k: nat)
    requires Run(hash, run) && Inv(hash, run[0]) && Injective(hash) && j <= k < |run|
    ensures |run[j].handlers| <= |run[k].handlers|
    ensures AllStayLocal(run[j], run[k])
  {
    forall m: nat | j <= m < |run| - 1 && LocalAfter(run[j], run[m])
      ensures LocalAfter(run[j], run[m + 1])
    {
      AppendOnly(hash, run, j, m);
      StepStaysLocal(hash, run[j], run, m);
    }
    ChainStaysLocal(run, j, k);
  }

  /** Once a blob is committed, every later request for it that can open the file is a hit: upstream is not
      asked, the bytes are those committed, and the Content-Length is theirs. */
  lemma CommittedBlobIsServed(hash: Bytes -> string, run: seq<State>, j: nat, k: nat, i: nat)
    requires Run(hash, run) && Initial(hash, run[0]) && Injective(hash) && j <= k < |run|
    requires i < |run[k].handlers| && (i < |run[j].handlers| ==> run[j].handlers[i] == Stat(run[k].handlers[i].digest))
    requires run[k].handlers[i].digest in run[j].blobs
    ensures var h, blob := run[k].handlers[i], run[j].blobs[run[k].handlers[i].digest];
            && (WentUpstream(h) ==> h.forced)
            && (h.Done? && h.end.Served? ==> h.end == Served(|blob|, blob))
            && (h.Done? && !h.forced ==> h.end.Served? || h.end.CutOff?)
  {
    InitialInv(hash, run[0]);
    LaterHandlersStayLocal(hash, run, j, k);
    assert StaysLocal(run[j], run[k], i);
    AppendOnly(hash, run, j, k);
    RunHitsRight(hash, run, k);
    assert HitRight(run[k], run[k].handlers[i]);
  }

  /** The handler has committed its blob. */
  predicate HasCommitted(h: Handler) {
    match h
    case Remove(_, _, _, end) => end.Committed?
    case Done(_, _, end) => end.Committed?
    case _ => false
  }

  lemma {:induction false} StaysCommitted(hash: Bytes -> string, run: seq<State>, i: nat, j: nat, k: nat)
    requires Run(hash, run) && j <= k < |run| && i < |run[j].handlers| && HasCommitted(run[j].handlers[i])
    ensures i < |run[k].handlers| && HasCommitted(run[k].handlers[i])
  {
    if j < k {
      StaysCommitted(hash, run, i, j, k - 1);
      StepStaysCommitted(hash, run, k - 1, i);
    }
  }

  lemma StepStaysCommitted(hash: Bytes -> string, run: seq<State>, k: nat, i: nat)
    requires Run(hash, run) && k + 1 < |run| && i < |run[k].handlers| && HasCommitted(run[k].handlers[i])
    ensures i < |run[k + 1].handlers| && HasCommitted(run[k + 1].handlers[i])
  {
    var s, s' := run[k], run[k + 1];
    StepAt(hash, run, k);
    if w: nat, e :| w < |s.handlers| && Possible(s, s.handlers[w], e) && s' == Advance(hash, s, w, e) {
      if w == i {
        assert s'.handlers[i] == Next(hash, s, s.handlers[i], e).0;
      } else {
        assert s'.handlers[i] == s.handlers[i];
      }
    }
  }

  /** The handler still has the temporary file, or the file is gone for good: its number has been used, and
      no handler has it. */
  ghost predicate HeldOrGone(s: State, i: nat, t: nat) {
    HasTemp(s, i, t) || (t < s.next && t !in s.temps && forall j :: !HasTemp(s, j, t))
  }

  lemma MoveHeldOrGone(s: State, s': State, w: nat, h': Handler, f: Effect, i: nat, t: nat)
    requires Moves(s, s', w, h', f) && OwnersLive(s) && TempsHaveOwners(s) && OwnersUnique(s) && HeldOrGone(s, i, t)
    ensures HeldOrGone(s', i, t)
  {
    OthersKeepTemps(s, s', w);
    var before := TempOf(s.handlers[w]);
    assert before.Some? ==> HasTemp(s, w, before.value);
    assert HasTemp(s, i, t) && w != i ==> HasTemp(s', i, t);
  }

  lemma StepHeldOrGone(hash: Bytes -> string, run: seq<State>, k: nat, i: nat, t: nat)
    requires Run(hash, run) && k + 1 < |run| && Inv(hash, run[0]) && HeldOrGone(run[k], i, t)
    ensures HeldOrGone(run[k + 1], i, t)
  {
    var s, s' := run[k], run[k + 1];
    RunInv(hash, run, k);
    StepAt(hash, run, k);
    if w: nat, e :| w < |s.handlers| && Possible(s, s.handlers[w], e) && s' == Advance(hash, s, w, e) {
      var (h', f) := Next(hash, s, s.handlers[w], e);
      EffectOnTemp(hash, s, s.handlers[w], e);
      MoveHeldOrGone(s, s', w, h', f, i, t);
    } else {
      assert forall j, u :: HasTemp(s', j, u) <==> HasTemp(s, j, u);
    }
  }

  lemma RunHeldOrGone(hash: Bytes -> string, run: seq<State>, i: nat, t: nat, j: nat, k: nat)
    requires Run(hash, run) && Inv(hash, run[0]) && j <= k < |run| && HasTemp(run[j], i, t)
    ensures HeldOrGone(run[k], i, t)
  {
    forall m | j <= m < k && HeldOrGone(run[m], i, t)
      ensures HeldOrGone(run[m + 1], i, t)
    {
      StepHeldOrGone(hash, run, m, i, t);
    }
    assert HeldOrGone(run[j], i, t);
    ChainHeldOrGone(run, i, t, j, k);
  }

  lemma {:induction false} ChainHeldOrGone(run: seq<State>, i: nat, t: nat, j: nat, k: nat)
    requires j <= k < |run| && HeldOrGone(run[j], i, t)
    requires forall m :: j <= m < k && HeldOrGone(run[m], i, t) ==> HeldOrGone(run[m + 1], i, t)
    ensures HeldOrGone(run[k], i, t)
  {
    if j < k {
      ChainHeldOrGone(run, i, t, j, k - 1);
      assert HeldOrGone(run[k - 1 + 1], i, t);
    }
  }

  /** A handler that has ended without committing has, in all its steps, left the committed files alone. */
  lemma UncommittedLeavesNoTrace(hash: Bytes -> string, run: seq<State>, i: nat, j: nat, k: nat, e: Event)
    requires Run(hash, run) && Inv(hash, run[0]) && j < k < |run|
    requires i < |run[j].handlers| && Possible(run[j], run[j].handlers[i], e) && run[j + 1] == Advance(hash, run[j], i, e)
    requires i < |run[k].handlers| && run[k].handlers[i].Done? && !HasCommitted(run[k].handlers[i])
    ensures run[j + 1].blobs == run[j].blobs
  {
    RunInv(hash, run, j);
    CommittedOnlyByRename(hash, run[j], i, e);
    if run[j].handlers[i].Rename? && e.Works? {
      StaysCommitted(hash, run, i, j + 1, k);
      assert false;
    }
  }

  /** However a handler ends, the temporary file it had at any time is no longer there. */
  lemma EndedLeavesNoTemp(hash: Bytes -> string, run: seq<State>, i: nat, t: nat, j: nat, k: nat)
    requires Run(hash, run) && Inv(hash, run[0]) && j <= k < |run|
    requires HasTemp(run[j], i, t) && i < |run[k].handlers| && run[k].handlers[i].Done?
    ensures t !in run[k].temps
  {
    RunHeldOrGone(hash, run, i, t, j, k);
  }
}
