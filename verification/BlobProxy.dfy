/** The digest-keyed blob cache (blobcache.go: serveBlob, streamAndCache) as a state machine: any number of
    request handlers interleave, one file operation or network event at a time. */
module BlobProxy {
  import opened Text

  type Bytes = seq<bv8>

  /** How a handler ended. Served carries the Content-Length it sent and the body, which was the whole file;
      in the other cases nothing more is known of what the client got. */
  datatype End = Served(length: nat, body: Bytes) | CutOff | Relayed | Refused | NotCached | Committed

  /** A handler's next action. forced says that it asks upstream although the blob is on disk, because
      looking at or opening the file failed. got is what has been copied to the temporary file and the hash. */
  datatype Handler =
    | Stat(digest: string)
    | Open(digest: string, size: nat)
    | Hit(digest: string, length: nat, file: Bytes)
    | Ask(digest: string, forced: bool)
    | Create(digest: string, forced: bool)
    | Copy(digest: string, forced: bool, temp: nat, got: Bytes)
    | Rename(digest: string, forced: bool, temp: nat, got: Bytes)
    | Remove(digest: string, forced: bool, temp: nat, end: End)
    | Done(digest: string, forced: bool, end: End)

  /** What happens to a handler: its operation works or fails; upstream replies 200 or anything else; a chunk
      arrives and is written everywhere, or is torn by a write error after a part reached the temporary
      file; the body ends. */
  datatype Event = Works | Fails | Reply(ok: bool) | Chunk(data: Bytes) | Torn(part: Bytes) | EndOfBody

  /** The files blobs/<hex> by digest and the temporary files by number, those below next having been used. */
  datatype State = State(blobs: map<string, Bytes>, temps: map<nat, Bytes>, next: nat, handlers: seq<Handler>)

  datatype Effect = Nothing | NewTemp | Append(temp: nat, data: Bytes) | Move(temp: nat, digest: string) | Delete(temp: nat)

  predicate Possible(s: State, h: Handler, e: Event) {
    match h
    case Stat(_) => e.Works? || e.Fails?
    case Open(_, _) => e.Works? || e.Fails?
    case Hit(_, _, _) => e.Works? || e.Fails?
    case Ask(_, _) => e.Fails? || e.Reply?
    case Create(_, _) => e.Works? || e.Fails?
    case Copy(_, _, _, _) => e.Chunk? || e.Torn? || e.Fails? || e.EndOfBody?
    case Rename(_, _, _, _) => e.Works? || e.Fails?
    case Remove(_, _, _, _) => e.Works?
    case Done(_, _, _) => false
  }

  function Next(hash: Bytes -> string, s: State, h: Handler, e: Event): (Handler, Effect)
    requires Possible(s, h, e)
  {
    match h
    case Stat(d) =>
      if e.Works? && d in s.blobs then (Open(d, |s.blobs[d]|), Nothing) else (Ask(d, d in s.blobs), Nothing)
    case Open(d, size) =>
      if e.Works? && d in s.blobs then (Hit(d, size, s.blobs[d]), Nothing) else (Ask(d, true), Nothing)
    case Hit(d, length, file) => (Done(d, false, if e.Works? then Served(length, file) else CutOff), Nothing)
    case Ask(d, forced) =>
      if e.Fails? then (Done(d, forced, Refused), Nothing)
      else if e.ok then (Create(d, forced), Nothing)
      else (Done(d, forced, Relayed), Nothing)
    case Create(d, forced) =>
      if e.Works? then (Copy(d, forced, s.next, []), NewTemp) else (Done(d, forced, Refused), Nothing)
    case Copy(d, forced, temp, got) =>
      if e.Chunk? then (Copy(d, forced, temp, got + e.data), Append(temp, e.data))
      else if e.Torn? then (Remove(d, forced, temp, NotCached), Append(temp, e.part))
      else if e.EndOfBody? && hash(got) == d then (Rename(d, forced, temp, got), Nothing)
      else (Remove(d, forced, temp, NotCached), Nothing)
    case Rename(d, forced, temp, got) =>
      if e.Works? then (Remove(d, forced, temp, Committed), Move(temp, d))
      else (Remove(d, forced, temp, NotCached), Nothing)
    case Remove(d, forced, temp, end) => (Done(d, forced, end), Delete(temp))
  }

  /** Appending to or moving a file that is gone does nothing to the files. */
  function Apply(s: State, f: Effect): State {
    match f
    case Nothing => s
    case NewTemp => s.(temps := s.temps[s.next := []], next := s.next + 1)
    case Append(t, data) => if t in s.temps then s.(temps := s.temps[t := s.temps[t] + data]) else s
    case Move(t, d) => if t in s.temps then s.(blobs := s.blobs[d := s.temps[t]], temps := s.temps - {t}) else s
    case Delete(t) => s.(temps := s.temps - {t})
  }

  function Advance(hash: Bytes -> string, s: State, i: nat, e: Event): State
    requires i < |s.handlers| && Possible(s, s.handlers[i], e)
  {
    var (h, f) := Next(hash, s, s.handlers[i], e);
    Apply(s, f).(handlers := s.handlers[i := h])
  }

  /** A handler acts, or a request for a digest arrives. */
  ghost predicate Step(hash: Bytes -> string, s: State, s': State) {
    || (exists i: nat, e :: i < |s.handlers| && Possible(s, s.handlers[i], e) && s' == Advance(hash, s, i, e))
    || (exists d :: s' == s.(handlers := s.handlers + [Stat(d)]))
  }

  ghost predicate Run(hash: Bytes -> string, run: seq<State>) {
    run != [] && forall k :: 0 <= k < |run| - 1 ==> Step(hash, run[k], run[k + 1])
  }

  lemma StepAt(hash: Bytes -> string, run: seq<State>, k: nat)
    requires Run(hash, run) && k + 1 < |run|
    ensures Step(hash, run[k], run[k + 1])
  {
  }

  /** The proxy starts over the blobs of an earlier one, if any. */
  ghost predicate Initial(hash: Bytes -> string, s: State) {
    s.temps == map[] && s.handlers == [] && Intact(hash, s)
  }

  /** Every committed file hashes to its name. */
  ghost predicate Intact(hash: Bytes -> string, s: State) {
    forall d :: d in s.blobs ==> hash(s.blobs[d]) == d
  }

  ghost predicate Injective(hash: Bytes -> string) {
    forall x, y :: hash(x) == hash(y) ==> x == y
  }

  // ----- temporary files ----------------------------------------------------------------------------

  function TempOf(h: Handler): Option<nat> {
    match h
    case Copy(_, _, t, _) => Some(t)
    case Rename(_, _, t, _) => Some(t)
    case Remove(_, _, t, end) => if end.Committed? then None else Some(t)
    case _ => None
  }

  ghost predicate HasTemp(s: State, i: nat, t: nat) {
    i < |s.handlers| && TempOf(s.handlers[i]) == Some(t)
  }

  ghost predicate OwnersLive(s: State) {
    forall i, t :: HasTemp(s, i, t) ==> t in s.temps
  }

  ghost predicate OwnersUnique(s: State) {
    forall i, j, t :: HasTemp(s, i, t) && HasTemp(s, j, t) ==> i == j
  }

  ghost predicate HasOwner(s: State, t: nat) {
    exists i :: HasTemp(s, i, t)
  }

  ghost predicate TempsHaveOwners(s: State) {
    forall t :: t in s.temps ==> t < s.next && HasOwner(s, t)
  }

  /** The file a handler has renamed is no temporary file any more. */
  ghost predicate RenamedGone(s: State) {
    forall i :: 0 <= i < |s.handlers| && s.handlers[i].Remove? && s.handlers[i].end.Committed? ==>
      s.handlers[i].temp < s.next && s.handlers[i].temp !in s.temps
  }

  /** Each temporary file belongs to one live handler. */
  ghost predicate TempsOwned(s: State) {
    OwnersLive(s) && OwnersUnique(s) && TempsHaveOwners(s) && RenamedGone(s)
  }

  /** What the handler has copied is what its file holds, and was verified before renaming. */
  ghost predicate CopyFaithful(hash: Bytes -> string, temps: map<nat, Bytes>, h: Handler) {
    match h
    case Copy(_, _, t, got) => t in temps ==> temps[t] == got
    case Rename(d, _, t, got) => t in temps ==> temps[t] == got && hash(got) == d
    case _ => true
  }

  ghost predicate CopiesFaithful(hash: Bytes -> string, s: State) {
    forall i :: 0 <= i < |s.handlers| ==> CopyFaithful(hash, s.temps, s.handlers[i])
  }

  ghost predicate Inv(hash: Bytes -> string, s: State) {
    Intact(hash, s) && TempsOwned(s) && CopiesFaithful(hash, s)
  }

  /** What a handler's effect does to the file it owns. */
  lemma EffectOnTemp(hash: Bytes -> string, s: State, h: Handler, e: Event)
    requires Possible(s, h, e)
    ensures var (h', f) := Next(hash, s, h, e);
            match f
            case NewTemp => TempOf(h).None? && h'.Copy? && h'.temp == s.next && h'.got == []
            case Append(t, data) =>
              && h.Copy? && h.temp == t && TempOf(h') == Some(t)
              && (h'.Copy? ==> h'.got == h.got + data) && !h'.Rename?
            case Move(t, d) => h.Rename? && h.temp == t && d == h.digest && h' == Remove(d, h.forced, t, Committed)
            case Delete(t) => h.Remove? && h.temp == t && h'.Done?
            case Nothing =>
              && TempOf(h) == TempOf(h') && !h.Remove? && !h'.Copy?
              && (h'.Remove? ==> !h'.end.Committed?)
              && (h'.Rename? ==> h.Copy? && h.temp == h'.temp && h.got == h'.got && hash(h'.got) == h'.digest)
  {
  }

  lemma TempsKept(hash: Bytes -> string, s: State, i: nat, e: Event)
    requires i < |s.handlers| && Possible(s, s.handlers[i], e) && TempsOwned(s)
    ensures TempsOwned(Advance(hash, s, i, e))
  {
    var h, s' := s.handlers[i], Advance(hash, s, i, e);
    var (h', f) := Next(hash, s, h, e);
    EffectOnTemp(hash, s, h, e);
    TempsKeptBy(s, s', i, h', f);
  }

  /** Handler i moved to h' with effect f on the file it owns. */
  ghost predicate Moves(s: State, s': State, i: nat, h': Handler, f: Effect) {
    && i < |s.handlers| && s' == Apply(s, f).(handlers := s.handlers[i := h'])
    && match f
       case NewTemp => TempOf(s.handlers[i]).None? && h'.Copy? && h'.temp == s.next
       case Append(t, data) => s.handlers[i].Copy? && s.handlers[i].temp == t && TempOf(h') == Some(t)
       case Move(t, d) => s.handlers[i].Rename? && s.handlers[i].temp == t && h'.Remove? && h'.temp == t && h'.end.Committed?
       case Delete(t) => s.handlers[i].Remove? && s.handlers[i].temp == t && h'.Done?
       case Nothing => TempOf(s.handlers[i]) == TempOf(h') && !s.handlers[i].Remove? && (h'.Remove? ==> !h'.end.Committed?)
  }

  lemma TempsKeptBy(s: State, s': State, i: nat, h': Handler, f: Effect)
    requires Moves(s, s', i, h', f) && TempsOwned(s)
    ensures TempsOwned(s')
  {
    OwnersKept(s, s', i, h', f);
    TempsKeepOwners(s, s', i, h', f);
    RenamedStayGone(s, s', i, h', f);
  }

  lemma OwnersKept(s: State, s': State, i: nat, h': Handler, f: Effect)
    requires Moves(s, s', i, h', f) && TempsOwned(s)
    ensures OwnersLive(s') && OwnersUnique(s')
  {
    OthersKeepTemps(s, s', i);
    var before := TempOf(s.handlers[i]);
    assert before.Some? ==> HasTemp(s, i, before.value);
  }

  lemma TempsKeepOwners(s: State, s': State, i: nat, h': Handler, f: Effect)
    requires Moves(s, s', i, h', f) && TempsHaveOwners(s) && RenamedGone(s)
    ensures TempsHaveOwners(s')
  {
    OthersKeepTemps(s, s', i);
    var after := TempOf(h');
    assert after.Some? ==> HasTemp(s', i, after.value);
    forall t | t in s'.temps
      ensures t < s'.next && HasOwner(s', t)
    {
      if t in s.temps {
        var j :| HasTemp(s, j, t);
        assert j != i ==> HasTemp(s', j, t);
      }
    }
  }

  lemma RenamedStayGone(s: State, s': State, i: nat, h': Handler, f: Effect)
    requires Moves(s, s', i, h', f) && TempsOwned(s)
    ensures RenamedGone(s')
  {
    var before := TempOf(s.handlers[i]);
    assert before.Some? ==> HasTemp(s, i, before.value);
  }

  lemma OthersKeepTemps(s: State, s': State, i: nat)
    requires |s'.handlers| == |s.handlers| && forall j :: 0 <= j < |s.handlers| && j != i ==> s'.handlers[j] == s.handlers[j]
    ensures forall j, t :: j != i ==> (HasTemp(s', j, t) <==> HasTemp(s, j, t))
  {
  }

  lemma CopiesKept(hash: Bytes -> string, s: State, i: nat, e: Event)
    requires i < |s.handlers| && Possible(s, s.handlers[i], e) && TempsOwned(s) && CopiesFaithful(hash, s)
    ensures CopiesFaithful(hash, Advance(hash, s, i, e))
  {
    var h, s' := s.handlers[i], Advance(hash, s, i, e);
    assert TempOf(h).Some? ==> HasTemp(s, i, TempOf(h).value);
    forall j | 0 <= j < |s.handlers|
      ensures CopyFaithful(hash, s'.temps, s'.handlers[j])
    {
      assert CopyFaithful(hash, s.temps, s.handlers[j]);
      if j == i {
        MoverFaithful(hash, s, i, e);
      } else if TempOf(s.handlers[j]).Some? {
        assert HasTemp(s, j, TempOf(s.handlers[j]).value);
        OtherFile(hash, s, i, e, TempOf(s.handlers[j]).value);
      }
    }
  }

  lemma MoverFaithful(hash: Bytes -> string, s: State, i: nat, e: Event)
    requires i < |s.handlers| && Possible(s, s.handlers[i], e) && CopyFaithful(hash, s.temps, s.handlers[i])
    ensures var s' := Advance(hash, s, i, e); CopyFaithful(hash, s'.temps, s'.handlers[i])
  {
  }

  /** A step leaves the files of other handlers alone. */
  lemma OtherFile(hash: Bytes -> string, s: State, i: nat, e: Event, t: nat)
    requires i < |s.handlers| && Possible(s, s.handlers[i], e) && t in s.temps && t < s.next
    requires TempOf(s.handlers[i]) != Some(t)
    requires s.handlers[i].Remove? && s.handlers[i].end.Committed? ==> s.handlers[i].temp !in s.temps
    ensures var s' := Advance(hash, s, i, e); t in s'.temps && s'.temps[t] == s.temps[t]
  {
  }

  /** Only a rename touches the committed files, and it commits what was verified. */
  lemma CommittedOnlyByRename(hash: Bytes -> string, s: State, i: nat, e: Event)
    requires i < |s.handlers| && Possible(s, s.handlers[i], e) && Inv(hash, s)
    ensures var h, s' := s.handlers[i], Advance(hash, s, i, e);
            if h.Rename? && e.Works?
            then s'.blobs == s.blobs[h.digest := h.got] && hash(h.got) == h.digest && s'.handlers[i].end.Committed?
            else s'.blobs == s.blobs
  {
    var h := s.handlers[i];
    if h.Rename? {
      assert HasTemp(s, i, h.temp);
    }
  }

  lemma StepInv(hash: Bytes -> string, s: State, i: nat, e: Event)
    requires i < |s.handlers| && Possible(s, s.handlers[i], e) && Inv(hash, s)
    ensures Inv(hash, Advance(hash, s, i, e))
  {
    TempsKept(hash, s, i, e);
    CopiesKept(hash, s, i, e);
    CommittedOnlyByRename(hash, s, i, e);
  }

  lemma ArriveInv(hash: Bytes -> string, s: State, d: string)
    requires Inv(hash, s)
    ensures Inv(hash, s.(handlers := s.handlers + [Stat(d)]))
  {
    var s' := s.(handlers := s.handlers + [Stat(d)]);
    assert forall i, t :: HasTemp(s', i, t) <==> HasTemp(s, i, t);
    assert forall i :: 0 <= i < |s.handlers| ==> s'.handlers[i] == s.handlers[i];
  }

  lemma {:induction false} RunInv(hash: Bytes -> string, run: seq<State>, k: nat)
    requires Run(hash, run) && Inv(hash, run[0]) && k < |run|
    ensures Inv(hash, run[k])
  {
    if k > 0 {
      RunInv(hash, run, k - 1);
      var s, s' := run[k - 1], run[k];
      StepAt(hash, run, k - 1);
      if i: nat, e :| i < |s.handlers| && Possible(s, s.handlers[i], e) && s' == Advance(hash, s, i, e) {
        StepInv(hash, s, i, e);
      } else {
        var d :| s' == s.(handlers := s.handlers + [Stat(d)]);
        ArriveInv(hash, s, d);
      }
    }
  }

  lemma InitialInv(hash: Bytes -> string, s: State)
    requires Initial(hash, s)
    ensures Inv(hash, s)
  {
    assert forall i, t :: !HasTemp(s, i, t);
  }
}
