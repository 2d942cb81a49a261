/** What becomes of each request to the blob cache, told by what happened to it alone: upstream's bytes are
    committed exactly when they all arrived, hash to the digest and every operation worked. */
module ProxyProgress {
  import opened BlobProxy

  // ----- a request that nothing disturbs ------------------------------------------------------------

  /** Handler i takes the events in turn, and nothing else happens meanwhile. */
  ghost predicate Takes(hash: Bytes -> string, path: seq<State>, i: nat, events: seq<Event>) {
    && |path| == |events| + 1
    && forall k :: 0 <= k < |events| ==> TakesAt(hash, path, i, events, k)
  }

  ghost predicate TakesAt(hash: Bytes -> string, path: seq<State>, i: nat, events: seq<Event>, k: nat)
    requires k < |events| == |path| - 1
  {
    && i < |path[k].handlers| && Possible(path[k], path[k].handlers[i], events[k])
    && path[k + 1] == Advance(hash, path[k], i, events[k])
  }

  lemma TakesMore(hash: Bytes -> string, path: seq<State>, i: nat, events: seq<Event>, e: Event) returns (path': seq<State>)
    requires Takes(hash, path, i, events)
    requires i < |path[|events|].handlers| && Possible(path[|events|], path[|events|].handlers[i], e)
    ensures path' == path + [Advance(hash, path[|events|], i, e)] && Takes(hash, path', i, events + [e])
  {
    path' := path + [Advance(hash, path[|events|], i, e)];
    forall k | 0 <= k < |events + [e]|
      ensures TakesAt(hash, path', i, events + [e], k)
    {
      assert k < |events| ==> TakesAt(hash, path, i, events, k);
    }
  }

  /** Such a path prolongs any run that leads to its start. */
  lemma PathExtendsRun(hash: Bytes -> string, run: seq<State>, path: seq<State>, i: nat, events: seq<Event>)
    requires Run(hash, run) && Takes(hash, path, i, events) && path[0] == run[|run| - 1]
    ensures Run(hash, run + path[1..])
  {
    var all := run + path[1..];
    forall k | 0 <= k < |all| - 1
      ensures Step(hash, all[k], all[k + 1])
    {
      if k < |run| - 1 {
        StepAt(hash, run, k);
      } else {
        assert TakesAt(hash, path, i, events, k - (|run| - 1));
      }
    }
  }

  function Joined(pieces: seq<Bytes>): Bytes {
    if pieces == [] then [] else Joined(pieces[..|pieces| - 1]) + pieces[|pieces| - 1]
  }

  function Chunks(pieces: seq<Bytes>): (r: seq<Event>)
    ensures |r| == |pieces| && forall k :: 0 <= k < |r| ==> r[k] == Chunk(pieces[k])
  {
    seq(|pieces|, k requires 0 <= k < |pieces| => Chunk(pieces[k]))
  }

  /** The state with handler i copying what it got to file t. */
  function Copying(s: State, i: nat, d: string, forced: bool, got: Bytes): State
    requires i < |s.handlers|
  {
    s.(temps := s.temps[s.next := got], next := s.next + 1, handlers := s.handlers[i := Copy(d, forced, s.next, got)])
  }

  lemma {:induction false} BodyArrives(hash: Bytes -> string, s: State, i: nat, d: string, forced: bool, pieces: seq<Bytes>)
    returns (path: seq<State>)
    requires i < |s.handlers| && s.handlers[i] == Ask(d, forced)
    ensures Takes(hash, path, i, [Reply(true), Works] + Chunks(pieces)) && path[0] == s
    ensures path[|path| - 1] == Copying(s, i, d, forced, Joined(pieces))
  {
    if pieces == [] {
      var created := s.(handlers := s.handlers[i := Create(d, forced)]);
      path := [s];
      path := TakesMore(hash, path, i, [], Reply(true));
      assert path[1] == created;
      path := TakesMore(hash, path, i, [] + [Reply(true)], Works);
      assert path[2].handlers == s.handlers[i := Copy(d, forced, s.next, [])];
      assert [] + [Reply(true)] + [Works] == [Reply(true), Works] + Chunks(pieces);
    } else {
      var n := |pieces| - 1;
      path := BodyArrives(hash, s, i, d, forced, pieces[..n]);
      var events := [Reply(true), Works] + Chunks(pieces[..n]);
      var before := path[|path| - 1];
      path := TakesMore(hash, path, i, events, Chunk(pieces[n]));
      assert path[|path| - 1].handlers == Copying(s, i, d, forced, Joined(pieces)).handlers;
      assert path[|path| - 1].temps == Copying(s, i, d, forced, Joined(pieces)).temps;
      assert Chunks(pieces) == Chunks(pieces[..n]) + [Chunk(pieces[n])];
      assert events + [Chunk(pieces[n])] == [Reply(true), Works] + Chunks(pieces);
    }
  }

  /** However upstream cuts its body into chunks, a body that hashes to the digest is committed when the
      request is left to itself, and nothing else on disk has changed then. */
  lemma MissCommits(hash: Bytes -> string, s: State, i: nat, pieces: seq<Bytes>) returns (path: seq<State>)
    requires Inv(hash, s) && i < |s.handlers| && s.handlers[i].Ask? && hash(Joined(pieces)) == s.handlers[i].digest
    ensures Takes(hash, path, i, [Reply(true), Works] + Chunks(pieces) + [EndOfBody, Works, Works]) && path[0] == s
    ensures var d, s' := s.handlers[i].digest, path[|path| - 1];
            && s'.blobs == s.blobs[d := Joined(pieces)] && s'.temps == s.temps
            && s'.handlers == s.handlers[i := Done(d, s.handlers[i].forced, Committed)]
  {
    var d, forced, t, body := s.handlers[i].digest, s.handlers[i].forced, s.next, Joined(pieces);
    var copy := BodyArrives(hash, s, i, d, forced, pieces);
    var copied := Copying(s, i, d, forced, body);
    var commit := CopyCommits(hash, copied, i);
    path := TakesBoth(hash, copy, commit, i, [Reply(true), Works] + Chunks(pieces), [EndOfBody, Works, Works]);
    assert t !in s.temps;
    assert copied.temps - {t} == s.temps;
    assert copied.handlers[i := Done(d, forced, Committed)] == s.handlers[i := Done(d, forced, Committed)];
  }

  lemma TakesBoth(hash: Bytes -> string, p: seq<State>, q: seq<State>, i: nat, a: seq<Event>, b: seq<Event>) returns (path: seq<State>)
    requires Takes(hash, p, i, a) && Takes(hash, q, i, b) && p[|a|] == q[0]
    ensures Takes(hash, path, i, a + b) && path[0] == p[0] && path[|path| - 1] == q[|q| - 1]
  {
    path := p + q[1..];
    forall k | 0 <= k < |a + b|
      ensures TakesAt(hash, path, i, a + b, k)
    {
      assert if k < |a| then TakesAt(hash, p, i, a, k) else TakesAt(hash, q, i, b, k - |a|);
    }
  }

  lemma CopyCommits(hash: Bytes -> string, s: State, i: nat) returns (path: seq<State>)
    requires i < |s.handlers| && s.handlers[i].Copy? && hash(s.handlers[i].got) == s.handlers[i].digest
    requires s.handlers[i].temp in s.temps && s.temps[s.handlers[i].temp] == s.handlers[i].got
    ensures Takes(hash, path, i, [EndOfBody, Works, Works]) && path[0] == s
    ensures var h := s.handlers[i];
            path[3] == s.(blobs := s.blobs[h.digest := h.got], temps := s.temps - {h.temp},
                          handlers := s.handlers[i := Done(h.digest, h.forced, Committed)])
  {
    var h := s.handlers[i];
    var s1 := s.(handlers := s.handlers[i := Rename(h.digest, h.forced, h.temp, h.got)]);
    BodyEnds(hash, s, i);
    RenameWorks(hash, s1, i);
    var s2 := Advance(hash, s1, i, Works);
    assert s2.handlers == s.handlers[i := Remove(h.digest, h.forced, h.temp, Committed)];
    var s3 := Advance(hash, s2, i, Works);
    assert s3.handlers == s.handlers[i := Done(h.digest, h.forced, Committed)];
    path := [s, s1, s2, s3];
    forall k | 0 <= k < 3
      ensures TakesAt(hash, path, i, [EndOfBody, Works, Works], k)
    {
    }
  }

  lemma BodyEnds(hash: Bytes -> string, s: State, i: nat)
    requires i < |s.handlers| && s.handlers[i].Copy? && hash(s.handlers[i].got) == s.handlers[i].digest
    ensures var h := s.handlers[i];
            Advance(hash, s, i, EndOfBody) == s.(handlers := s.handlers[i := Rename(h.digest, h.forced, h.temp, h.got)])
  {
  }

  lemma RenameWorks(hash: Bytes -> string, s: State, i: nat)
    requires i < |s.handlers| && s.handlers[i].Rename? && s.handlers[i].temp in s.temps
    ensures var h := s.handlers[i];
            Advance(hash, s, i, Works) ==
            s.(blobs := s.blobs[h.digest := s.temps[h.temp]], temps := s.temps - {h.temp},
               handlers := s.handlers[i := Remove(h.digest, h.forced, h.temp, Committed)])
  {
  }

  /** A request that finds its blob and is left to itself is served the blob, under its length. */
  lemma HitServes(hash: Bytes -> string, s: State, i: nat) returns (path: seq<State>)
    requires i < |s.handlers| && s.handlers[i].Stat? && s.handlers[i].digest in s.blobs
    ensures Takes(hash, path, i, [Works, Works, Works]) && path[0] == s
    ensures var d := s.handlers[i].digest;
            path[3] == s.(handlers := s.handlers[i := Done(d, false, Served(|s.blobs[d]|, s.blobs[d]))])
  {
    var d := s.handlers[i].digest;
    path := [s];
    path := TakesMore(hash, path, i, [], Works);
    assert path[1] == s.(handlers := s.handlers[i := Open(d, |s.blobs[d]|)]);
    path := TakesMore(hash, path, i, [] + [Works], Works);
    assert path[2].handlers == s.handlers[i := Hit(d, |s.blobs[d]|, s.blobs[d])];
    path := TakesMore(hash, path, i, [] + [Works] + [Works], Works);
    assert path[3].handlers == s.handlers[i := Done(d, false, Served(|s.blobs[d]|, s.blobs[d]))];
    assert [] + [Works] + [Works] + [Works] == [Works, Works, Works];
  }

  /** Out of every reachable state a request that has turned to upstream can get its blob into the cache, and
      the next request for it then gets these very bytes from there. */
  lemma MissThenHit(hash: Bytes -> string, run: seq<State>, i: nat, pieces: seq<Bytes>) returns (run': seq<State>, stored: nat)
    requires Run(hash, run) && Initial(hash, run[0])
    requires var s := run[|run| - 1]; i < |s.handlers| && s.handlers[i].Ask? && hash(Joined(pieces)) == s.handlers[i].digest
    ensures Run(hash, run') && run <= run' && |run| <= stored < |run'|
    ensures var d, body := run[|run| - 1].handlers[i].digest, Joined(pieces);
            && Takes(hash, run'[|run| - 1..stored + 1], i, [Reply(true), Works] + Chunks(pieces) + [EndOfBody, Works, Works])
            && d in run'[stored].blobs && run'[stored].blobs[d] == body
            && i < |run'[stored].handlers| && run'[stored].handlers[i].Done? && run'[stored].handlers[i].end.Committed?
            && var later, s' := |run'[stored].handlers|, run'[|run'| - 1];
               && |run'| == stored + 5 && run'[stored + 1] == run'[stored].(handlers := run'[stored].handlers + [Stat(d)])
               && Takes(hash, run'[stored + 1..], later, [Works, Works, Works])
               && |s'.handlers| == later + 1 && s'.handlers[later] == Done(d, false, Served(|body|, body))
  {
    var s := run[|run| - 1];
    var d := s.handlers[i].digest;
    InitialInv(hash, run[0]);
    RunInv(hash, run, |run| - 1);
    var miss := MissCommits(hash, s, i, pieces);
    PathExtendsRun(hash, run, miss, i, [Reply(true), Works] + Chunks(pieces) + [EndOfBody, Works, Works]);
    var first := run + miss[1..];
    stored := |first| - 1;
    var s1 := miss[|miss| - 1];
    var s2 := s1.(handlers := s1.handlers + [Stat(d)]);
    var second := first + [s2];
    Prolonged(hash, first, d);
    var hit := HitServes(hash, s2, |s1.handlers|);
    PathExtendsRun(hash, second, hit, |s1.handlers|, [Works, Works, Works]);
    run' := second + hit[1..];
    assert run'[|run| - 1..stored + 1] == miss;
    assert run'[stored + 1..] == hit;
  }

  lemma Prolonged(hash: Bytes -> string, run: seq<State>, d: string)
    requires Run(hash, run)
    ensures var s := run[|run| - 1]; Run(hash, run + [s.(handlers := s.handlers + [Stat(d)])])
  {
    var s := run[|run| - 1];
    var s' := s.(handlers := s.handlers + [Stat(d)]);
    var all := run + [s'];
    forall k | 0 <= k < |all| - 1
      ensures Step(hash, all[k], all[k + 1])
    {
      if k < |run| - 1 {
        StepAt(hash, run, k);
      } else {
        assert all[k] == s && all[k + 1] == s';
      }
    }
  }
}
