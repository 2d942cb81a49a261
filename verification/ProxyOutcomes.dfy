/** How each request to the blob cache ends, for every run: the end is settled by what happened to the request
    itself, whatever other requests were doing meanwhile. */
module ProxyOutcomes {
  import opened BlobProxy
  import opened ProxyTheorems
  import opened ProxyProgress

  /** A request for a digest arrives, or something happens to handler i. */
  datatype Move = Arrive(digest: string) | Act(i: nat, event: Event)

  ghost predicate Moved(hash: Bytes -> string, s: State, m: Move, s': State) {
    match m
    case Arrive(d) => s' == s.(handlers := s.handlers + [Stat(d)])
    case Act(i, e) => i < |s.handlers| && Possible(s, s.handlers[i], e) && s' == Advance(hash, s, i, e)
  }

  /** The run with the moves that make it. */
  ghost predicate Made(hash: Bytes -> string, run: seq<State>, moves: seq<Move>) {
    |run| == |moves| + 1 && forall k :: 0 <= k < |moves| ==> Moved(hash, run[k], moves[k], run[k + 1])
  }

  /** Every run is made by some moves. */
  lemma MovesOf(hash: Bytes -> string, run: seq<State>) returns (moves: seq<Move>)
    requires Run(hash, run)
    ensures Made(hash, run, moves)
  {
    moves := [];
    for n := 0 to |run| - 1
      invariant Made(hash, run[..n + 1], moves)
    {
      var s, s' := run[n], run[n + 1];
      StepAt(hash, run, n);
      var m :| Moved(hash, s, m, s') by {
        MoveBehind(hash, s, s');
      }
      ghost var before := moves;
      moves := moves + [m];
      forall k | 0 <= k < |moves|
        ensures Moved(hash, run[..n + 2][k], moves[k], run[..n + 2][k + 1])
      {
        assert k < n ==> Moved(hash, run[..n + 1][k], before[k], run[..n + 1][k + 1]);
      }
    }
    assert run[..|run|] == run;
  }

  lemma MoveBehind(hash: Bytes -> string, s: State, s': State)
    requires Step(hash, s, s')
    ensures exists m :: Moved(hash, s, m, s')
  {
    if i: nat, e :| i < |s.handlers| && Possible(s, s.handlers[i], e) && s' == Advance(hash, s, i, e) {
      assert Moved(hash, s, Act(i, e), s');
    } else {
      var d :| s' == s.(handlers := s.handlers + [Stat(d)]);
      assert Moved(hash, s, Arrive(d), s');
    }
  }

  /** What happened to handler i. */
  function EventsOf(moves: seq<Move>, i: nat): seq<Event> {
    if moves == [] then []
    else
      var last := moves[|moves| - 1];
      EventsOf(moves[..|moves| - 1], i) + if last.Act? && last.i == i then [last.event] else []
  }

  /** What a handler met before it turned to upstream: the file is not there, or looking at it or opening it
      failed. It is forced only by such a failure. */
  predicate Missed(forced: bool, look: seq<Event>) {
    if forced then look == [Fails] || look == [Works, Fails] else look == [Works] || look == [Fails]
  }

  /** Why a body is not cached: copying it failed, or it has other bytes than asked for, or renaming failed. */
  predicate Spoilt(hash: Bytes -> string, digest: string, b: Bytes, why: seq<Event>) {
    || why == [Fails]
    || (|why| == 1 && why[0].Torn?)
    || (why == [EndOfBody] && hash(b) != digest)
    || (why == [EndOfBody, Fails] && hash(b) == digest)
  }

  /** What follows the body of a download that ends so: its bytes are b. */
  predicate Closing(hash: Bytes -> string, digest: string, end: End, b: Bytes, rest: seq<Event>) {
    match end
    case Committed => rest == [EndOfBody, Works] && hash(b) == digest
    case NotCached => Spoilt(hash, digest, b, rest)
    case _ => false
  }

  /** What has happened to a handler that is downloading, since it turned to upstream. */
  predicate Download(hash: Bytes -> string, h: Handler, b: Bytes, rest: seq<Event>) {
    match h
    case Copy(_, _, _, got) => rest == [] && got == b
    case Rename(d, _, _, got) => rest == [EndOfBody] && got == b && hash(b) == d
    case Remove(d, _, _, end) => Closing(hash, d, end, b, rest)
    case Done(d, _, end) => rest != [] && rest[|rest| - 1] == Works && Closing(hash, d, end, b, rest[..|rest| - 1])
    case _ => false
  }

  predicate Downloads(h: Handler) {
    match h
    case Copy(_, _, _, _) => true
    case Rename(_, _, _, _) => true
    case Remove(_, _, _, _) => true
    case Done(_, _, end) => end.NotCached? || end.Committed?
    case _ => false
  }

  /** The events of a handler that turned to upstream, was promised the blob and got the pieces of its body. */
  function Script(look: seq<Event>, pieces: seq<Bytes>, rest: seq<Event>): seq<Event> {
    look + [Reply(true), Works] + Chunks(pieces) + rest
  }

  lemma ScriptMore(look: seq<Event>, pieces: seq<Bytes>, rest: seq<Event>, e: Event)
    ensures Script(look, pieces, rest) + [e] == Script(look, pieces, rest + [e])
  {
  }

  lemma ScriptChunk(look: seq<Event>, pieces: seq<Bytes>, data: Bytes)
    ensures Script(look, pieces, []) + [Chunk(data)] == Script(look, pieces + [data], [])
    ensures Joined(pieces + [data]) == Joined(pieces) + data
  {
    assert (pieces + [data])[..|pieces|] == pieces;
    assert Chunks(pieces + [data]) == Chunks(pieces) + [Chunk(data)];
  }

  ghost predicate Downloaded(hash: Bytes -> string, h: Handler, events: seq<Event>) {
    exists look, pieces, rest ::
      && events == Script(look, pieces, rest)
      && Download(hash, h, Joined(pieces), rest) && Missed(h.forced, look)
  }

  /** What has happened to a handler that turned to upstream and is not downloading: what it met, and what
      upstream said. */
  ghost predicate Asked(h: Handler, events: seq<Event>) {
    exists look, said :: events == look + said && Said(h, said) && Missed(h.forced, look)
  }

  predicate Said(h: Handler, said: seq<Event>) {
    match h
    case Ask(_, _) => said == []
    case Create(_, _) => said == [Reply(true)]
    case Done(_, _, Relayed) => said == [Reply(false)]
    case Done(_, _, Refused) => said == [Fails] || said == [Reply(true), Fails]
    case _ => false
  }

  /** What has happened to a handler. */
  ghost predicate Story(hash: Bytes -> string, h: Handler, events: seq<Event>) {
    match h
    case Stat(_) => events == []
    case Open(_, _) => events == [Works]
    case Hit(_, _, _) => events == [Works, Works]
    case Done(_, forced, Served(_, _)) => events == [Works, Works, Works] && !forced
    case Done(_, forced, CutOff) => events == [Works, Works, Fails] && !forced
    case _ => if Downloads(h) then Downloaded(hash, h, events) else Asked(h, events)
  }

  /** A file that was seen is there. */
  predicate SeenIsThere(s: State, h: Handler) {
    h.Open? ==> h.digest in s.blobs
  }

  lemma StoryLooking(hash: Bytes -> string, s: State, h: Handler, e: Event, events: seq<Event>)
    requires Possible(s, h, e) && Story(hash, h, events) && SeenIsThere(s, h)
    requires h.Stat? || h.Open? || h.Hit?
    ensures Story(hash, Next(hash, s, h, e).0, events + [e])
  {
    var h' := Next(hash, s, h, e).0;
    if h'.Ask? {
      assert events + [e] == (events + [e]) + [] && Said(h', []);
    }
  }

  lemma StoryAsking(hash: Bytes -> string, s: State, h: Handler, e: Event, events: seq<Event>)
    requires Possible(s, h, e) && Asked(h, events) && (h.Ask? || h.Create?)
    ensures Story(hash, Next(hash, s, h, e).0, events + [e])
  {
    var h' := Next(hash, s, h, e).0;
    var look, said :| events == look + said && Said(h, said) && Missed(h.forced, look);
    if h'.Copy? {
      DownloadedBy(hash, h', events + [e], look, [], []);
    } else {
      assert events + [e] == look + (said + [e]) && Said(h', said + [e]);
    }
  }

  lemma DownloadGoesOn(hash: Bytes -> string, s: State, h: Handler, e: Event, b: Bytes, rest: seq<Event>)
    requires Possible(s, h, e) && Download(hash, h, b, rest)
    ensures var h' := Next(hash, s, h, e).0;
            && Downloads(h') && h'.forced == h.forced
            && if e.Chunk? then rest == [] && Download(hash, h', b + e.data, []) else Download(hash, h', b, rest + [e])
  {
    assert (rest + [e])[..|rest|] == rest;
  }

  lemma StoryDownloading(hash: Bytes -> string, s: State, h: Handler, e: Event, events: seq<Event>)
    requires Possible(s, h, e) && Downloaded(hash, h, events)
    ensures Downloads(Next(hash, s, h, e).0) && Downloaded(hash, Next(hash, s, h, e).0, events + [e])
  {
    var h' := Next(hash, s, h, e).0;
    var look, pieces, rest :| events == Script(look, pieces, rest) && Download(hash, h, Joined(pieces), rest) && Missed(h.forced, look);
    DownloadGoesOn(hash, s, h, e, Joined(pieces), rest);
    if e.Chunk? {
      ScriptChunk(look, pieces, e.data);
      DownloadedBy(hash, h', events + [e], look, pieces + [e.data], []);
    } else {
      ScriptMore(look, pieces, rest, e);
      DownloadedBy(hash, h', events + [e], look, pieces, rest + [e]);
    }
  }

  lemma DownloadedBy(hash: Bytes -> string, h: Handler, events: seq<Event>, look: seq<Event>, pieces: seq<Bytes>, rest: seq<Event>)
    requires events == Script(look, pieces, rest) && Download(hash, h, Joined(pieces), rest) && Missed(h.forced, look)
    ensures Downloaded(hash, h, events)
  {
  }

  lemma StoryGoesOn(hash: Bytes -> string, s: State, h: Handler, e: Event, events: seq<Event>)
    requires Possible(s, h, e) && Story(hash, h, events) && SeenIsThere(s, h)
    ensures Story(hash, Next(hash, s, h, e).0, events + [e])
  {
    if h.Stat? || h.Open? || h.Hit? {
      StoryLooking(hash, s, h, e, events);
    } else if Downloads(h) {
      StoryDownloading(hash, s, h, e, events);
    } else {
      StoryAsking(hash, s, h, e, events);
    }
  }

  /** What is known of handler i, should it exist. */
  ghost predicate Known(hash: Bytes -> string, s: State, i: nat, events: seq<Event>) {
    if i < |s.handlers| then Story(hash, s.handlers[i], events) && SeenIsThere(s, s.handlers[i]) else events == []
  }

  ghost predicate AllKnown(hash: Bytes -> string, s: State, moves: seq<Move>) {
    forall i: nat :: Known(hash, s, i, EventsOf(moves, i))
  }

  lemma MoverKnown(hash: Bytes -> string, s: State, i: nat, e: Event, events: seq<Event>)
    requires i < |s.handlers| && Possible(s, s.handlers[i], e) && Known(hash, s, i, events)
    ensures Known(hash, Advance(hash, s, i, e), i, events + [e])
  {
    StoryGoesOn(hash, s, s.handlers[i], e, events);
  }

  lemma OtherKnown(hash: Bytes -> string, s: State, m: Move, s': State, i: nat, events: seq<Event>)
    requires Moved(hash, s, m, s') && Known(hash, s, i, events) && !(m.Act? && m.i == i)
    ensures Known(hash, s', i, events)
  {
  }

  lemma MoveKnown(hash: Bytes -> string, s: State, m: Move, s': State, moves: seq<Move>)
    requires Moved(hash, s, m, s') && AllKnown(hash, s, moves)
    ensures AllKnown(hash, s', moves + [m])
  {
    assert (moves + [m])[..|moves|] == moves;
    forall i: nat
      ensures Known(hash, s', i, EventsOf(moves + [m], i))
    {
      assert Known(hash, s, i, EventsOf(moves, i));
      if m.Act? && m.i == i {
        MoverKnown(hash, s, i, m.event, EventsOf(moves, i));
      } else {
        OtherKnown(hash, s, m, s', i, EventsOf(moves, i));
      }
    }
  }

  /** In every run, however its requests interleave, each handler is where its own events have brought it. */
  lemma {:induction false} RunKnown(hash: Bytes -> string, run: seq<State>, moves: seq<Move>, k: nat)
    requires Made(hash, run, moves) && run[0].handlers == [] && k <= |moves|
    ensures AllKnown(hash, run[k], moves[..k])
  {
    if k > 0 {
      RunKnown(hash, run, moves, k - 1);
      assert Moved(hash, run[k - 1], moves[k - 1], run[k - 1 + 1]);
      MoveKnown(hash, run[k - 1], moves[k - 1], run[k], moves[..k - 1]);
      assert moves[..k] == moves[..k - 1] + [moves[k - 1]];
    }
  }

  // ----- how a request ends -------------------------------------------------------------------------

  /** A request that has ended, in any run, ended as its own events say: served when its file was seen, opened
      and sent; relayed when upstream answered anything but 200; refused when asking failed, or making the
      temporary file did. A download is not cached only if it failed, a write was torn, its bytes do not hash
      to the digest or the rename failed; and it is committed only with bytes that hash to the digest. */
  lemma EndsAsTold(hash: Bytes -> string, run: seq<State>, moves: seq<Move>, i: nat)
    requires Made(hash, run, moves) && run[0].handlers == []
    requires i < |run[|moves|].handlers| && run[|moves|].handlers[i].Done?
    ensures var h, events := run[|moves|].handlers[i], EventsOf(moves, i);
            match h.end
            case Served(_, _) => events == [Works, Works, Works] && !h.forced
            case CutOff => events == [Works, Works, Fails] && !h.forced
            case Relayed => exists look :: events == look + [Reply(false)] && Missed(h.forced, look)
            case Refused => exists look :: (events == look + [Fails] || events == look + [Reply(true), Fails]) && Missed(h.forced, look)
            case NotCached => exists look, pieces, why :: events == Script(look, pieces, why + [Works]) && Missed(h.forced, look)
                                                          && Spoilt(hash, h.digest, Joined(pieces), why)
            case Committed => exists look, pieces :: events == Script(look, pieces, [EndOfBody, Works, Works]) && Missed(h.forced, look)
                                                     && hash(Joined(pieces)) == h.digest
  {
    var h, events := run[|moves|].handlers[i], EventsOf(moves, i);
    RunKnown(hash, run, moves, |moves|);
    assert moves[..|moves|] == moves;
    assert Known(hash, run[|moves|], i, events);
    if Downloads(h) {
      EndOfDownload(hash, h, events);
    } else if h.end.Relayed? || h.end.Refused? {
      EndOfAsking(h, events);
    }
  }

  lemma EndOfDownload(hash: Bytes -> string, h: Handler, events: seq<Event>)
    requires h.Done? && Downloaded(hash, h, events)
    ensures h.end.NotCached? ==>
              exists look, pieces, why :: events == Script(look, pieces, why + [Works]) && Missed(h.forced, look)
                                          && Spoilt(hash, h.digest, Joined(pieces), why)
    ensures h.end.Committed? ==>
              exists look, pieces :: events == Script(look, pieces, [EndOfBody, Works, Works]) && Missed(h.forced, look)
                                     && hash(Joined(pieces)) == h.digest
  {
    var look, pieces, rest :| events == Script(look, pieces, rest) && Download(hash, h, Joined(pieces), rest) && Missed(h.forced, look);
    var why := rest[..|rest| - 1];
    assert rest == why + [Works] && Closing(hash, h.digest, h.end, Joined(pieces), why);
    if h.end.NotCached? {
      assert Spoilt(hash, h.digest, Joined(pieces), why);
    } else {
      assert rest == [EndOfBody, Works, Works];
    }
  }

  lemma EndOfAsking(h: Handler, events: seq<Event>)
    requires h.Done? && Asked(h, events)
    ensures h.end.Relayed? ==> exists look :: events == look + [Reply(false)] && Missed(h.forced, look)
    ensures h.end.Refused? ==>
              exists look :: (events == look + [Fails] || events == look + [Reply(true), Fails]) && Missed(h.forced, look)
  {
    var look, said :| events == look + said && Said(h, said) && Missed(h.forced, look);
    assert events == look + said;
  }

  /** Which of the events counted from the last, 0, is e. */
  predicate FromLast(events: seq<Event>, n: nat, e: Event) {
    n < |events| && events[|events| - 1 - n] == e
  }

  /** So a request that has ended committed its blob iff upstream's body ended, the rename worked and the
      temporary file was left behind: no sound download goes uncached. */
  lemma CommittedIff(hash: Bytes -> string, run: seq<State>, moves: seq<Move>, i: nat)
    requires Made(hash, run, moves) && run[0].handlers == []
    requires i < |run[|moves|].handlers| && run[|moves|].handlers[i].Done?
    ensures var h, events := run[|moves|].handlers[i], EventsOf(moves, i);
            h.end.Committed? <==> FromLast(events, 2, EndOfBody) && FromLast(events, 1, Works) && FromLast(events, 0, Works)
  {
    var h, events := run[|moves|].handlers[i], EventsOf(moves, i);
    EndsAsTold(hash, run, moves, i);
    match h.end
    case NotCached =>
      var look, pieces, why :| events == Script(look, pieces, why + [Works]) && Missed(h.forced, look)
                               && Spoilt(hash, h.digest, Joined(pieces), why);
      assert FromLast(events, 1, why[|why| - 1]);
    case Committed =>
    case Relayed =>
      assert FromLast(events, 0, Reply(false));
    case Refused =>
      assert FromLast(events, 0, Fails);
    case Served(_, _) =>
    case CutOff =>
  }

  /** Once a blob is committed, a later request for it turns to upstream only if looking at the file or opening
      it failed. */
  lemma UpstreamOnlyAfterFailure(hash: Bytes -> string, run: seq<State>, moves: seq<Move>, j: nat, i: nat)
    requires Made(hash, run, moves) && Initial(hash, run[0]) && Injective(hash) && j <= |moves|
    requires var h := run[|moves|].handlers; i < |h| && h[i].digest in run[j].blobs && WentUpstream(h[i])
    requires i < |run[j].handlers| ==> run[j].handlers[i] == Stat(run[|moves|].handlers[i].digest)
    ensures [Fails] <= EventsOf(moves, i) || [Works, Fails] <= EventsOf(moves, i)
  {
    var h, events := run[|moves|].handlers[i], EventsOf(moves, i);
    MadeRuns(hash, run, moves);
    CommittedBlobIsServed(hash, run, j, |moves|, i);
    RunKnown(hash, run, moves, |moves|);
    assert moves[..|moves|] == moves;
    assert Known(hash, run[|moves|], i, events);
    StartsWithLook(hash, h, events);
  }

  lemma MadeRuns(hash: Bytes -> string, run: seq<State>, moves: seq<Move>)
    requires Made(hash, run, moves)
    ensures Run(hash, run)
  {
    forall k | 0 <= k < |run| - 1
      ensures Step(hash, run[k], run[k + 1])
    {
      assert Moved(hash, run[k], moves[k], run[k + 1]);
    }
  }

  lemma StartsWithLook(hash: Bytes -> string, h: Handler, events: seq<Event>)
    requires Story(hash, h, events) && WentUpstream(h) && h.forced
    ensures [Fails] <= events || [Works, Fails] <= events
  {
    if Downloads(h) {
      var look, pieces, rest :| events == Script(look, pieces, rest) && Download(hash, h, Joined(pieces), rest) && Missed(h.forced, look);
      assert look <= events;
    } else {
      var look, said :| events == look + said && Said(h, said) && Missed(h.forced, look);
      assert look <= events;
    }
  }
}
