/** pull-release (release.go): warm a release's payload, check what the caches kept, warm again what is
    missing, and report. */
module Release {
  import opened Text
  import opened Ordering
  import opened Refs
  import opened Manifests
  import opened WarmPool

  // ----- where a reference is looked for ------------------------------------------------------------

  /** Where warmRef and missingOnDisk look for a reference: cache, repository and tag or digest. References
      that cannot be parsed or that no registry cache serves are left out. */
  type Targets = map<string, Name>

  function TargetsOf(refs: seq<string>): Targets {
    map r | r in refs && WarmTarget(r).Some? :: var (u, p) := WarmTarget(r).value; Name(u, p.repo, p.ref)
  }

  // ----- the check on disk --------------------------------------------------------------------------

  /** The stores of the caches at one moment, and which of them can be read at all. */
  datatype Disk = Disk(store: Store, readable: set<nat>)

  datatype Verdict = Unreadable | Absent | Present

  /** What missingOnDisk makes of one reference: a tag is first looked up on disk. */
  function Judge(d: Disk, at: Targets, ref: string, platform: string): Verdict {
    if ref !in at then Absent
    else
      var n := at[ref];
      if n.cache !in d.readable then Unreadable
      else if DigestPinned(n.digest) then (if Full(d.store, n, platform) then Present else Absent)
      else if n !in d.store.tags then Absent
      else if Full(d.store, n.(digest := d.store.tags[n]), platform) then Present else Absent
  }

  /** Some store needed for the check cannot be read. */
  predicate CannotVerify(d: Disk, at: Targets, refs: seq<string>, platform: string) {
    exists r :: r in refs && Judge(d, at, r, platform).Unreadable?
  }

  /** The references not fully on disk, in the order given. */
  function AbsentRefs(d: Disk, at: Targets, refs: seq<string>, platform: string): seq<string> {
    if refs == [] then []
    else
      var before, r := AbsentRefs(d, at, refs[..|refs| - 1], platform), refs[|refs| - 1];
      if Judge(d, at, r, platform).Absent? then before + [r] else before
  }

  /** What a reference stands for is on disk in full: it has a target, and the digest that it is, or that its
      tag points at there, names an image that is held. */
  ghost predicate OnDiskInFull(d: Disk, at: Targets, ref: string, platform: string) {
    && ref in at
    && var n := at[ref];
       if "sha256:" <= n.digest then ImageHeld(d.store, n, platform)
       else n in d.store.tags && ImageHeld(d.store, Name(n.cache, n.repo, d.store.tags[n]), platform)
  }

  /** The verdict told by what is on disk. */
  lemma JudgeIff(d: Disk, at: Targets, ref: string, platform: string)
    ensures Judge(d, at, ref, platform).Unreadable? <==> ref in at && at[ref].cache !in d.readable
    ensures Judge(d, at, ref, platform).Present? <==> (ref in at && at[ref].cache in d.readable && OnDiskInFull(d, at, ref, platform))
  {
    if ref in at {
      var n := at[ref];
      FullIffHeld(d.store, n, platform);
      if n in d.store.tags {
        FullIffHeld(d.store, Name(n.cache, n.repo, d.store.tags[n]), platform);
      }
    }
  }

  /** Which of the references are not on disk in full. */
  ghost function NotInFull(d: Disk, at: Targets, refs: seq<string>, platform: string): seq<bool> {
    seq(|refs|, k requires 0 <= k < |refs| => !OnDiskInFull(d, at, refs[k], platform))
  }

  lemma {:induction false} AbsentChosen(d: Disk, at: Targets, refs: seq<string>, platform: string)
    requires !CannotVerify(d, at, refs, platform)
    ensures AbsentRefs(d, at, refs, platform) == Chosen(refs, NotInFull(d, at, refs, platform))
  {
    if refs != [] {
      var before, r := refs[..|refs| - 1], refs[|refs| - 1];
      assert r in refs && forall q :: q in before ==> q in refs;
      AbsentChosen(d, at, before, platform);
      JudgeIff(d, at, r, platform);
      assert NotInFull(d, at, refs, platform)[..|before|] == NotInFull(d, at, before, platform);
    }
  }

  /** missingOnDisk: None iff a reference's store cannot be opened, and otherwise exactly the references not on
      disk in full, in the order given. */
  method MissingOnDisk(d: Disk, at: Targets, refs: seq<string>, platform: string) returns (r: Option<seq<string>>)
    ensures r.None? <==> exists k :: 0 <= k < |refs| && refs[k] in at && at[refs[k]].cache !in d.readable
    ensures r.Some? ==> Selection(r.value, refs, NotInFull(d, at, refs, platform))
    ensures r.None? <==> CannotVerify(d, at, refs, platform)
    ensures r.Some? ==> r.value == AbsentRefs(d, at, refs, platform)
  {
    r := CheckEach(d, at, refs, platform);
    MissingFacts(d, at, refs, platform);
  }

  lemma MissingFacts(d: Disk, at: Targets, refs: seq<string>, platform: string)
    ensures CannotVerify(d, at, refs, platform) <==> exists k :: 0 <= k < |refs| && refs[k] in at && at[refs[k]].cache !in d.readable
    ensures !CannotVerify(d, at, refs, platform) ==> Selection(AbsentRefs(d, at, refs, platform), refs, NotInFull(d, at, refs, platform))
  {
    forall k | 0 <= k < |refs|
      ensures Judge(d, at, refs[k], platform).Unreadable? <==> refs[k] in at && at[refs[k]].cache !in d.readable
    {
      JudgeIff(d, at, refs[k], platform);
    }
    if !CannotVerify(d, at, refs, platform) {
      AbsentChosen(d, at, refs, platform);
      ChosenIsSelection(refs, NotInFull(d, at, refs, platform));
    }
  }

  /** The loop of missingOnDisk; each cache's store is opened once. */
  method CheckEach(d: Disk, at: Targets, refs: seq<string>, platform: string) returns (r: Option<seq<string>>)
    ensures r.None? <==> CannotVerify(d, at, refs, platform)
    ensures r.Some? ==> r.value == AbsentRefs(d, at, refs, platform)
  {
    var views: map<nat, Store> := map[];
    var missing: seq<string> := [];
    for i := 0 to |refs|
      invariant forall u :: u in views ==> u in d.readable && views[u] == d.store
      invariant forall k :: 0 <= k < i ==> !Judge(d, at, refs[k], platform).Unreadable?
      invariant missing == AbsentRefs(d, at, refs[..i], platform)
    {
      assert refs[..i + 1][..i] == refs[..i];
      if refs[i] !in at {
        missing := missing + [refs[i]];
        continue;
      }
      var n := at[refs[i]];
      if n.cache !in views {
        if n.cache !in d.readable {
          assert Judge(d, at, refs[i], platform).Unreadable?;
          return None;
        }
        views := views[n.cache := d.store];
      }
      var v := views[n.cache];
      if !DigestPinned(n.digest) {
        if n !in v.tags {
          missing := missing + [refs[i]];
          continue;
        }
        n := n.(digest := v.tags[n]);
      }
      var full, _ := ImageOnDisk(v, n, platform);
      if !full {
        missing := missing + [refs[i]];
      }
    }
    assert refs[..|refs|] == refs;
    return Some(missing);
  }

  lemma {:induction false} AbsentRefsMember(d: Disk, at: Targets, refs: seq<string>, platform: string, r: string)
    ensures r in AbsentRefs(d, at, refs, platform) <==> r in refs && Judge(d, at, r, platform).Absent?
  {
    if refs != [] {
      var before, last := refs[..|refs| - 1], refs[|refs| - 1];
      AbsentRefsMember(d, at, before, platform, r);
      assert r in refs <==> r in before || r == last;
    }
  }

  lemma AbsentRefsMembers(d: Disk, at: Targets, refs: seq<string>, platform: string)
    ensures forall r :: r in AbsentRefs(d, at, refs, platform) <==> r in refs && Judge(d, at, r, platform).Absent?
    ensures AbsentRefs(d, at, refs, platform) == [] <==> forall r :: r in refs ==> !Judge(d, at, r, platform).Absent?
  {
    var absent := AbsentRefs(d, at, refs, platform);
    forall r
      ensures r in absent <==> r in refs && Judge(d, at, r, platform).Absent?
    {
      AbsentRefsMember(d, at, refs, platform, r);
    }
    assert absent != [] ==> absent[|absent| - 1] in absent;
  }

  lemma {:induction false} AbsentRefsDistinct(d: Disk, at: Targets, refs: seq<string>, platform: string)
    requires Distinct(refs)
    ensures Distinct(AbsentRefs(d, at, refs, platform))
  {
    if refs != [] {
      AbsentRefsDistinct(d, at, refs[..|refs| - 1], platform);
      AbsentRefsMembers(d, at, refs[..|refs| - 1], platform);
    }
  }

  lemma {:induction false} AbsentRefsConcat(d: Disk, at: Targets, a: seq<string>, b: seq<string>, platform: string)
    ensures AbsentRefs(d, at, a + b, platform) == AbsentRefs(d, at, a, platform) + AbsentRefs(d, at, b, platform)
  {
    if b == [] {
      assert a + b == a;
    } else {
      assert (a + b)[..|a + b| - 1] == a + b[..|b| - 1];
      AbsentRefsConcat(d, at, a, b[..|b| - 1], platform);
    }
  }

  /** The references that are fully on disk. */
  function OnDisk(d: Disk, at: Targets, refs: seq<string>, platform: string): set<string> {
    set r | r in refs && Judge(d, at, r, platform).Present?
  }

  lemma OnDiskCount(d: Disk, at: Targets, refs: seq<string>, platform: string)
    requires Distinct(refs) && !CannotVerify(d, at, refs, platform)
    ensures |OnDisk(d, at, refs, platform)| == |refs| - |AbsentRefs(d, at, refs, platform)|
  {
    AbsentRefsMembers(d, at, refs, platform);
    AbsentRefsDistinct(d, at, refs, platform);
    var absent := AbsentRefs(d, at, refs, platform);
    DistinctSize(refs);
    DistinctSize(absent);
    assert Members(refs) == OnDisk(d, at, refs, platform) + Members(absent);
  }

  // ----- the rounds ---------------------------------------------------------------------------------

  /** What the outside does during one pull-release: how the pool of round k ends, what is on disk at the
      k-th check, and the text of an error. */
  datatype World = World(pool: nat -> State, disk: nat -> Disk, text: Outcome -> string)

  const VERIFY_ROUNDS := 2

  /** The i-th result a pool returns. */
  function OutcomeIn(s: State, i: nat): Outcome {
    if i in s.results then s.results[i].outcome else Failed(0, 0, None)
  }

  /** The results of warming refs in round k. */
  function RoundResults(w: World, k: nat, refs: seq<string>): seq<WarmResult> {
    seq(|refs|, i requires 0 <= i < |refs| => WarmResult(refs[i], OutcomeIn(w.pool(k), i)))
  }

  /** The references missing at the k-th check. */
  function MissingAt(w: World, at: Targets, all: seq<string>, platform: string, k: nat): seq<string> {
    AbsentRefs(w.disk(k), at, all, platform)
  }

  predicate FailsAt(w: World, at: Targets, all: seq<string>, platform: string, k: nat) {
    CannotVerify(w.disk(k), at, all, platform)
  }

  /** There were n re-warms: each found something missing, and after them nothing was, or the stores could
      not be read, or the rounds were used up. */
  predicate ReWarms(w: World, at: Targets, all: seq<string>, platform: string, n: nat) {
    && n <= VERIFY_ROUNDS && AllNeeded(w, at, all, platform, n)
    && (n == VERIFY_ROUNDS || FailsAt(w, at, all, platform, n) || MissingAt(w, at, all, platform, n) == [])
  }

  /** Something was missing at each of the first n checks. */
  predicate AllNeeded(w: World, at: Targets, all: seq<string>, platform: string, n: nat) {
    forall k :: 0 <= k < n ==> !FailsAt(w, at, all, platform, k) && MissingAt(w, at, all, platform, k) != []
  }

  /** All warm attempts up to the n-th re-warm, in the order their results are read. */
  function Attempts(w: World, at: Targets, refs: seq<string>, all: seq<string>, platform: string, n: nat): seq<WarmResult> {
    if n == 0 then RoundResults(w, 0, refs)
    else Attempts(w, at, refs, all, platform, n - 1) + RoundResults(w, n, MissingAt(w, at, all, platform, n - 1))
  }

  /** The last attempt at ref, if any. */
  function LastAttempt(attempts: seq<WarmResult>, ref: string): Option<Outcome> {
    if attempts == [] then None
    else if attempts[|attempts| - 1].ref == ref then Some(attempts[|attempts| - 1].outcome)
    else LastAttempt(attempts[..|attempts| - 1], ref)
  }

  /** The references warmed in round k: the payload, then what the check before found missing. */
  function RoundRefs(w: World, at: Targets, refs: seq<string>, all: seq<string>, platform: string, k: nat): seq<string> {
    if k == 0 then refs else MissingAt(w, at, all, platform, k - 1)
  }

  /** The last place at which the reference stands in the list. */
  predicate LastPlace(refs: seq<string>, r: string, i: nat) {
    i < |refs| && refs[i] == r && forall j :: i < j < |refs| ==> refs[j] != r
  }

  lemma {:induction false} LastAttemptOf(earlier: seq<WarmResult>, results: seq<WarmResult>, r: string) returns (i: nat)
    ensures if exists j :: 0 <= j < |results| && results[j].ref == r
            then i < |results| && results[i].ref == r && (forall j :: i < j < |results| ==> results[j].ref != r)
                 && LastAttempt(earlier + results, r) == Some(results[i].outcome)
            else LastAttempt(earlier + results, r) == LastAttempt(earlier, r)
  {
    i := 0;
    if results == [] {
      assert earlier + results == earlier;
    } else {
      var n := |results| - 1;
      assert (earlier + results)[..|earlier| + n] == earlier + results[..n];
      i := LastAttemptOf(earlier, results[..n], r);
      if results[n].ref == r {
        i := n;
      }
    }
  }

  /** Round k is the last, up to round n, in which the reference was warmed. */
  ghost predicate LastRound(rounds: nat -> seq<string>, r: string, k: nat, n: nat) {
    k <= n && r in rounds(k) && forall m: nat :: k < m <= n ==> r !in rounds(m)
  }

  /** The last attempt at a reference up to re-warm n is that of the last round in which it was warmed, and the
      outcome is that of its last place there; there is none iff it was warmed in no round. */
  lemma LastAttemptRound(w: World, at: Targets, refs: seq<string>, all: seq<string>, platform: string, n: nat, r: string)
      returns (k: nat, i: nat)
    ensures var last, rounds := LastAttempt(Attempts(w, at, refs, all, platform, n), r), (m: nat) => RoundRefs(w, at, refs, all, platform, m);
            if last.None? then forall m: nat :: m <= n ==> r !in rounds(m)
            else LastRound(rounds, r, k, n) && LastPlace(rounds(k), r, i) && last.value == OutcomeIn(w.pool(k), i)
  {
    var rounds := (m: nat) => RoundRefs(w, at, refs, all, platform, m);
    var attempts := (m: nat) => Attempts(w, at, refs, all, platform, m);
    forall m: nat
      ensures Accumulates(w, rounds, attempts, m)
    {
      assert m == 0 ==> [] + RoundResults(w, 0, refs) == RoundResults(w, 0, refs);
    }
    k, i := LastAmong(w, rounds, attempts, n, r);
  }

  ghost predicate Accumulates(w: World, rounds: nat -> seq<string>, attempts: nat -> seq<WarmResult>, m: nat) {
    attempts(m) == (if m == 0 then [] else attempts(m - 1)) + RoundResults(w, m, rounds(m))
  }

  lemma {:induction false} LastAmong(w: World, rounds: nat -> seq<string>, attempts: nat -> seq<WarmResult>, n: nat, r: string)
      returns (k: nat, i: nat)
    requires forall m: nat :: Accumulates(w, rounds, attempts, m)
    ensures var last := LastAttempt(attempts(n), r);
            if last.None? then forall m: nat :: m <= n ==> r !in rounds(m)
            else LastRound(rounds, r, k, n) && LastPlace(rounds(k), r, i) && last.value == OutcomeIn(w.pool(k), i)
  {
    k, i := n, 0;
    assert Accumulates(w, rounds, attempts, n);
    var j := RoundAttempt(w, n, rounds(n), if n == 0 then [] else attempts(n - 1), r);
    if r in rounds(n) {
      i := j;
    } else if n > 0 {
      k, i := LastAmong(w, rounds, attempts, n - 1, r);
    }
  }

  lemma RoundAttempt(w: World, n: nat, now: seq<string>, earlier: seq<WarmResult>, r: string) returns (i: nat)
    ensures if r in now then LastPlace(now, r, i) && LastAttempt(earlier + RoundResults(w, n, now), r) == Some(OutcomeIn(w.pool(n), i))
            else LastAttempt(earlier + RoundResults(w, n, now), r) == LastAttempt(earlier, r)
  {
    var results := RoundResults(w, n, now);
    i := LastAttemptOf(earlier, results, r);
    if r in now {
      var m :| 0 <= m < |now| && now[m] == r;
      assert results[m].ref == r;
      forall j | i < j < |now|
        ensures now[j] != r
      {
        assert results[j].ref != r;
      }
    }
  }

  /** warmErr as it should be: the references whose last attempt failed, with how it failed. */
  ghost predicate LatestFailures(warmErr: map<string, Outcome>, attempts: seq<WarmResult>) {
    && (forall r :: r in warmErr <==> LastAttempt(attempts, r).Some? && LastAttempt(attempts, r).value.Failed?)
    && (forall r :: r in warmErr ==> LastAttempt(attempts, r) == Some(warmErr[r]))
  }

  /** The loop over one round's results. */
  method Account(results: seq<WarmResult>, warmErr0: map<string, Outcome>, ghost attempts: seq<WarmResult>) returns (warmErr: map<string, Outcome>)
    requires LatestFailures(warmErr0, attempts)
    ensures LatestFailures(warmErr, attempts + results)
  {
    warmErr := warmErr0;
    assert attempts + results[..0] == attempts;
    for i := 0 to |results|
      invariant LatestFailures(warmErr, attempts + results[..i])
    {
      var r := results[i];
      assert (attempts + results[..i + 1])[..|attempts| + i] == attempts + results[..i];
      if r.outcome.Failed? {
        warmErr := warmErr[r.ref := r.outcome];
      } else {
        warmErr := warmErr - {r.ref};
      }
    }
    assert results[..|results|] == results;
  }

  // ----- the report ---------------------------------------------------------------------------------

  /** An error `count of total payload images ...`. */
  datatype Failure = Failure(count: int, total: nat)

  function Line(ref: string, why: string): string {
    ref + ": " + why
  }

  function LinesOf(refs: seq<string>, failed: map<string, string>): seq<string>
    requires forall r :: r in refs ==> r in failed
  {
    if refs == [] then []
    else
      var r := refs[|refs| - 1];
      LinesOf(refs[..|refs| - 1], failed) + [Line(r, failed[r])]
  }

  lemma LinesMore(refs: seq<string>, failed: map<string, string>, r: string)
    requires r in failed && forall q :: q in refs ==> q in failed
    ensures LinesOf(refs + [r], failed) == LinesOf(refs, failed) + [Line(r, failed[r])]
  {
    assert (refs + [r])[..|refs|] == refs;
  }

  lemma {:induction false} LinesCount(refs: seq<string>, failed: map<string, string>)
    requires forall r :: r in refs ==> r in failed
    ensures |LinesOf(refs, failed)| == |refs|
  {
    if refs != [] {
      LinesCount(refs[..|refs| - 1], failed);
    }
  }

  /** The lines name each failed image once, with its reason, in order. */
  ghost predicate Names(lines: seq<string>, failed: map<string, string>) {
    Ordered(lines) && exists refs: seq<string> :: ListsOnce(refs, failed) && multiset(lines) == multiset(LinesOf(refs, failed))
  }

  ghost predicate ListsOnce(refs: seq<string>, failed: map<string, string>) {
    Distinct(refs) && Members(refs) == failed.Keys && forall r :: r in refs ==> r in failed
  }

  /** reportFailures: an error iff something failed; it counts the images, and the lines logged name them. */
  method ReportFailures(failed: map<string, string>, total: nat) returns (err: Option<Failure>, lines: seq<string>)
    ensures err.None? <==> failed == map[]
    ensures err.Some? ==> err.value == Failure(|lines|, total)
    ensures Names(lines, failed) && |lines| == |failed|
  {
    if |failed| == 0 {
      assert ListsOnce([], failed) && LinesOf([], failed) == [];
      return None, [];
    }
    ghost var refs;
    lines, refs := CollectLines(failed);
    ListedOnceCount(refs, failed);
    LinesCount(refs, failed);
    SortOrders(lines);
    assert |multiset(Sort(lines))| == |multiset(lines)|;
    lines := Sort(lines);
    err := Some(Failure(|failed|, total));
  }

  /** The loop over the failures, in no particular order. */
  method CollectLines(failed: map<string, string>) returns (lines: seq<string>, ghost refs: seq<string>)
    ensures ListsOnce(refs, failed) && lines == LinesOf(refs, failed)
  {
    lines, refs := [], [];
    var rest := failed.Keys;
    assert LinesOf([], failed) == [];
    while rest != {}
      invariant Distinct(refs) && Members(refs) == failed.Keys - rest && rest <= failed.Keys
      invariant forall r :: r in refs ==> r in failed
      invariant lines == LinesOf(refs, failed)
      decreases rest
    {
      var r :| r in rest;
      MembersMore(refs, r);
      LinesMore(refs, failed, r);
      lines := lines + [Line(r, failed[r])];
      refs := refs + [r];
      rest := rest - {r};
    }
  }

  lemma ListedOnceCount(refs: seq<string>, failed: map<string, string>)
    requires ListsOnce(refs, failed)
    ensures |refs| == |failed|
  {
    DistinctSize(refs);
    assert |failed| == |failed.Keys|;
  }

  /** How pull-release ends: before warming the payload; unable to read the stores; or verified, with the
      number of payload images it says are on disk and the cause it gives for each missing image (None for
      one that was served). The lines are those logged for the images that the error counts. */
  datatype Report =
    | Refused
    | Unverified(err: Option<Failure>, lines: seq<string>)
    | Verified(err: Option<Failure>, onDisk: int, causes: map<string, Option<Outcome>>, lines: seq<string>)

  function FailureTexts(w: World, warmErr: map<string, Outcome>): map<string, string> {
    map r | r in warmErr :: w.text(warmErr[r])
  }

  function CauseTexts(w: World, causes: map<string, Option<Outcome>>): map<string, string> {
    map r | r in causes :: match causes[r]
                           case Some(o) => w.text(o)
                           case None => "served, but not stored by the cache"
  }

  /** Why a missing image is missing, as far as the warming saw. */
  function Cause(attempts: seq<WarmResult>, ref: string): Option<Outcome> {
    match LastAttempt(attempts, ref)
    case Some(o) => if o.Failed? then Some(o) else None
    case None => None
  }

  lemma SameSize<T>(a: map<string, string>, b: map<string, T>)
    requires a.Keys == b.Keys
    ensures |a| == |b| && (a == map[] <==> b == map[])
  {
    assert |a| == |a.Keys| && |b| == |b.Keys|;
    assert a == map[] <==> a.Keys == {};
    assert b == map[] <==> b.Keys == {};
  }

  /** What the first warm logs: how many payload images were warmed, the blobs they refer to, and how many
      blobs were fetched. */
  datatype Summary = Summary(images: int, references: nat, fetched: nat)

  function Failures(results: seq<WarmResult>): nat {
    if results == [] then 0
    else Failures(results[..|results| - 1]) + if results[|results| - 1].outcome.Failed? then 1 else 0
  }

  /** The blob references of the documents that the successful results stand for. */
  function References(results: seq<WarmResult>): nat {
    if results == [] then 0
    else
      var o := results[|results| - 1].outcome;
      References(results[..|results| - 1]) + if o.Warmed? then BlobReferences(o.docs) else 0
  }

  function BlobSum(results: seq<WarmResult>): nat {
    if results == [] then 0
    else
      var o := results[|results| - 1].outcome;
      BlobSum(results[..|results| - 1]) + if o.Warmed? then o.blobs else 0
  }

  predicate DistinctRefs(results: seq<WarmResult>) {
    forall i, j :: 0 <= i < j < |results| ==> results[i].ref != results[j].ref
  }

  /** The loop over the first round's results, which also adds up the blobs. */
  method AccountFirst(results: seq<WarmResult>) returns (warmErr: map<string, Outcome>, blobs: nat)
    requires DistinctRefs(results)
    ensures LatestFailures(warmErr, results)
    ensures |warmErr| == Failures(results) && blobs == BlobSum(results)
  {
    warmErr, blobs := map[], 0;
    for i := 0 to |results|
      invariant LatestFailures(warmErr, results[..i])
      invariant |warmErr| == Failures(results[..i]) && blobs == BlobSum(results[..i])
    {
      var r := results[i];
      assert results[..i + 1][..i] == results[..i];
      NotAttempted(results[..i], r.ref);
      if r.outcome.Failed? {
        assert r.ref !in warmErr;
        warmErr := warmErr[r.ref := r.outcome];
        continue;
      }
      blobs := blobs + r.outcome.blobs;
    }
    assert results[..|results|] == results;
  }

  lemma {:induction false} NotAttempted(attempts: seq<WarmResult>, ref: string)
    requires forall i :: 0 <= i < |attempts| ==> attempts[i].ref != ref
    ensures LastAttempt(attempts, ref).None?
  {
    if attempts != [] {
      NotAttempted(attempts[..|attempts| - 1], ref);
    }
  }

  /** pull-release once its arguments are accepted and the release image has been read and warmed. */
  method WarmAndVerify(w: World, at: Targets, ref: string, refs: seq<string>, platform: string)
      returns (report: Report, n: nat, warmErr: map<string, Outcome>, summary: Summary)
    requires Distinct(refs)
    ensures summary == SummaryOf(w, refs)
    ensures n <= 2 && ReWarms(w, at, [ref] + refs, platform, n)
    ensures LatestFailures(warmErr, Attempts(w, at, refs, [ref] + refs, platform, n))
    ensures report.Verified? ==>
              (report.err.None? <==> forall r :: r in [ref] + refs ==> OnDiskInFull(w.disk(n), at, r, platform))
    ensures FailsAt(w, at, [ref] + refs, platform, n) ==>
              && report.Unverified? && Names(report.lines, FailureTexts(w, warmErr))
              && report.err == if warmErr == map[] then None else Some(Failure(|warmErr|, |refs|))
    ensures !FailsAt(w, at, [ref] + refs, platform, n) ==> report.Verified? && Honest(w, at, ref, refs, platform, n, report)
  {
    var missing;
    missing, n, warmErr, summary := WarmRounds(w, at, refs, [ref] + refs, platform);
    if missing.None? {
      var failed := FailureTexts(w, warmErr);
      var err, lines := ReportFailures(failed, |refs|);
      assert failed.Keys == warmErr.Keys;
      SameSize(failed, warmErr);
      return Unverified(err, lines), n, warmErr, summary;
    }
    report := VerifiedReport(w, at, ref, refs, platform, n, missing.value, warmErr);
    HonestMeans(w, at, ref, refs, platform, n, report);
  }

  /** The warm, the check and the re-warms: what the last check found missing (None if it could not be
      made), how often it re-warmed, and the failures of the latest attempts. */
  method WarmRounds(w: World, at: Targets, refs: seq<string>, all: seq<string>, platform: string)
      returns (missing: Option<seq<string>>, n: nat, warmErr: map<string, Outcome>, summary: Summary)
    requires Distinct(refs)
    ensures summary == SummaryOf(w, refs)
    ensures n <= 2 && ReWarms(w, at, all, platform, n)
    ensures missing.None? <==> FailsAt(w, at, all, platform, n)
    ensures missing.Some? ==> missing.value == MissingAt(w, at, all, platform, n)
    ensures LatestFailures(warmErr, Attempts(w, at, refs, all, platform, n))
  {
    missing, warmErr, summary := FirstWarm(w, at, refs, all, platform);
    n := 0;
    while missing.Some? && missing.value != [] && n + 1 <= VERIFY_ROUNDS
      invariant n <= VERIFY_ROUNDS && AllNeeded(w, at, all, platform, n)
      invariant missing.None? <==> FailsAt(w, at, all, platform, n)
      invariant missing.Some? ==> missing.value == MissingAt(w, at, all, platform, n)
      invariant LatestFailures(warmErr, Attempts(w, at, refs, all, platform, n))
      decreases VERIFY_ROUNDS - n
    {
      n := n + 1;
      missing, warmErr := WarmAgain(w, at, refs, all, platform, n, missing.value, warmErr);
    }
  }

  /** The successes of the first round, the blob references their results report, and the size of the
      claim map when it is over. */
  function SummaryOf(w: World, refs: seq<string>): Summary {
    var results := RoundResults(w, 0, refs);
    Summary(|refs| - Failures(results), BlobSum(results), |w.pool(0).seen|)
  }

  method FirstWarm(w: World, at: Targets, refs: seq<string>, all: seq<string>, platform: string)
      returns (missing: Option<seq<string>>, warmErr: map<string, Outcome>, summary: Summary)
    requires Distinct(refs)
    ensures summary == SummaryOf(w, refs)
    ensures missing.None? <==> FailsAt(w, at, all, platform, 0)
    ensures missing.Some? ==> missing.value == MissingAt(w, at, all, platform, 0)
    ensures LatestFailures(warmErr, Attempts(w, at, refs, all, platform, 0))
  {
    var results := RoundResults(w, 0, refs);
    var blobs;
    warmErr, blobs := AccountFirst(results);
    summary := Summary(|refs| - |warmErr|, blobs, |w.pool(0).seen|);
    missing := MissingOnDisk(w.disk(0), at, all, platform);
  }

  /** The n-th re-warm, of what the check before it found missing, and the check after it. */
  method WarmAgain(w: World, at: Targets, refs: seq<string>, all: seq<string>, platform: string,
                   n: nat, missing0: seq<string>, warmErr0: map<string, Outcome>)
      returns (missing: Option<seq<string>>, warmErr: map<string, Outcome>)
    requires n > 0 && missing0 == MissingAt(w, at, all, platform, n - 1)
    requires LatestFailures(warmErr0, Attempts(w, at, refs, all, platform, n - 1))
    ensures missing.None? <==> FailsAt(w, at, all, platform, n)
    ensures missing.Some? ==> missing.value == MissingAt(w, at, all, platform, n)
    ensures LatestFailures(warmErr, Attempts(w, at, refs, all, platform, n))
  {
    warmErr := Account(RoundResults(w, n, missing0), warmErr0, Attempts(w, at, refs, all, platform, n - 1));
    missing := MissingOnDisk(w.disk(n), at, all, platform);
  }

  /** What the final report of a verified run has to say: it is free of errors iff the release and its whole
      payload are on disk; its count is the number of payload images on disk; the images it names are those
      not on disk, each with the error its last warm attempt ended in, if it did. The error counts those
      images, so with the release image itself missing it may exceed the payload it is said to be "of". */
  ghost predicate Honest(w: World, at: Targets, ref: string, refs: seq<string>, platform: string, n: nat, report: Report)
    requires report.Verified?
  {
    var d, all := w.disk(n), [ref] + refs;
    && (report.err.None? <==> forall r :: r in all ==> Judge(d, at, r, platform).Present?)
    && report.onDisk == |OnDisk(d, at, refs, platform)|
    && Names(report.lines, CauseTexts(w, report.causes))
    && (forall r :: r in report.causes <==> r in all && Judge(d, at, r, platform).Absent?)
    && (forall r :: r in report.causes ==> report.causes[r] == Cause(Attempts(w, at, refs, all, platform, n), r))
    && (report.err.Some? ==>
          report.err.value == Failure(|refs| - report.onDisk + (if ref !in refs && Judge(d, at, ref, platform).Absent? then 1 else 0), |refs|))
  }

  /** So a verified report is free of errors exactly when the release and every image of its payload are on
      disk in full, it names exactly those that are not, and it counts those of the payload that are. */
  lemma HonestMeans(w: World, at: Targets, ref: string, refs: seq<string>, platform: string, n: nat, report: Report)
    requires !FailsAt(w, at, [ref] + refs, platform, n) && report.Verified? && Honest(w, at, ref, refs, platform, n, report)
    ensures report.err.None? <==> forall r :: r in [ref] + refs ==> OnDiskInFull(w.disk(n), at, r, platform)
    ensures forall r :: r in report.causes <==> r in [ref] + refs && !OnDiskInFull(w.disk(n), at, r, platform)
    ensures report.onDisk == |set r | r in refs && OnDiskInFull(w.disk(n), at, r, platform)|
    ensures forall r :: r in report.causes ==>
              var last := LastAttempt(Attempts(w, at, refs, [ref] + refs, platform, n), r);
              report.causes[r] == if last.Some? && last.value.Failed? then last else None
  {
    var d, all := w.disk(n), [ref] + refs;
    forall r | r in all
      ensures Judge(d, at, r, platform).Present? <==> OnDiskInFull(d, at, r, platform)
    {
      JudgeIff(d, at, r, platform);
      assert !Judge(d, at, r, platform).Unreadable?;
    }
    assert OnDisk(d, at, refs, platform) == set r | r in refs && OnDiskInFull(d, at, r, platform) by {
      assert forall r :: r in refs ==> r in all;
    }
  }

  method VerifiedReport(w: World, at: Targets, ref: string, refs: seq<string>, platform: string, n: nat,
                        missing: seq<string>, warmErr: map<string, Outcome>)
      returns (report: Report)
    requires Distinct(refs) && !FailsAt(w, at, [ref] + refs, platform, n)
    requires missing == MissingAt(w, at, [ref] + refs, platform, n)
    requires LatestFailures(warmErr, Attempts(w, at, refs, [ref] + refs, platform, n))
    ensures report.Verified? && Honest(w, at, ref, refs, platform, n, report)
  {
    var causes := CausesOf(missing, warmErr, Attempts(w, at, refs, [ref] + refs, platform, n));
    var payloadMissing := |missing|;
    if ref in causes {
      payloadMissing := payloadMissing - 1;
    }
    var failed := CauseTexts(w, causes);
    var err, lines := ReportFailures(failed, |refs|);
    SameSize(failed, causes);
    report := Verified(err, |refs| - payloadMissing, causes, lines);
    ReportedHonestly(w, at, ref, refs, platform, n, missing, report);
  }

  /** The reasons given for the missing images. */
  method CausesOf(missing: seq<string>, warmErr: map<string, Outcome>, ghost attempts: seq<WarmResult>) returns (causes: map<string, Option<Outcome>>)
    requires LatestFailures(warmErr, attempts)
    ensures causes.Keys == Members(missing)
    ensures forall r :: r in causes ==> causes[r] == Cause(attempts, r)
  {
    causes := map[];
    for i := 0 to |missing|
      invariant causes.Keys == Members(missing[..i])
      invariant forall r :: r in causes ==> causes[r] == Cause(attempts, r)
    {
      var m := missing[i];
      assert missing[..i + 1] == missing[..i] + [m];
      causes := causes[m := if m in warmErr then Some(warmErr[m]) else None];
    }
    assert missing[..|missing|] == missing;
  }

  /** What is left out of a count of the missing images, and what is counted, is what Honest asks. */
  lemma ReportedHonestly(w: World, at: Targets, ref: string, refs: seq<string>, platform: string, n: nat, missing: seq<string>, report: Report)
    requires Distinct(refs) && !FailsAt(w, at, [ref] + refs, platform, n) && missing == MissingAt(w, at, [ref] + refs, platform, n)
    requires report.Verified? && report.causes.Keys == Members(missing)
    requires forall r :: r in report.causes ==> report.causes[r] == Cause(Attempts(w, at, refs, [ref] + refs, platform, n), r)
    requires report.onDisk == |refs| - |missing| + (if ref in report.causes then 1 else 0)
    requires Names(report.lines, CauseTexts(w, report.causes))
    requires report.err == if |report.causes| == 0 then None else Some(Failure(|report.causes|, |refs|))
    ensures Honest(w, at, ref, refs, platform, n, report)
  {
    var d, all := w.disk(n), [ref] + refs;
    assert !CannotVerify(d, at, refs, platform) by {
      assert forall r :: r in refs ==> r in all;
    }
    MissingCounts(d, at, ref, refs, platform);
    AbsentRefsMembers(d, at, all, platform);
    assert |report.causes| == |report.causes.Keys|;
    assert (forall r :: r in all ==> Judge(d, at, r, platform).Present?) <==> report.causes.Keys == {};
  }

  /** The missing list against the payload's own, and its distinct members. */
  lemma MissingCounts(d: Disk, at: Targets, ref: string, refs: seq<string>, platform: string)
    requires Distinct(refs) && !CannotVerify(d, at, refs, platform)
    ensures var missing, payload := AbsentRefs(d, at, [ref] + refs, platform), AbsentRefs(d, at, refs, platform);
            && |missing| == |payload| + (if ref in missing then 1 else 0)
            && |Members(missing)| == |payload| + (if ref in missing && ref !in refs then 1 else 0)
            && |payload| == |refs| - |OnDisk(d, at, refs, platform)|
            && (ref in missing <==> Judge(d, at, ref, platform).Absent?)
  {
    var missing, payload := AbsentRefs(d, at, [ref] + refs, platform), AbsentRefs(d, at, refs, platform);
    MissingWithRelease(d, at, ref, refs, platform);
    OnDiskCount(d, at, refs, platform);
    AbsentRefsDistinct(d, at, refs, platform);
    AbsentRefsMembers(d, at, refs, platform);
    DistinctWithOne(missing, ref, payload, ref in missing);
  }

  lemma DistinctWithOne(missing: seq<string>, ref: string, payload: seq<string>, with: bool)
    requires Distinct(payload) && missing == (if with then [ref] else []) + payload
    ensures |Members(missing)| == |payload| + (if with && ref !in payload then 1 else 0)
  {
    DistinctSize(payload);
    var distinct := Members(payload);
    assert Members(missing) == if with then {ref} + distinct else distinct;
  }

  lemma MissingWithRelease(d: Disk, at: Targets, ref: string, refs: seq<string>, platform: string)
    ensures var missing, payload := AbsentRefs(d, at, [ref] + refs, platform), AbsentRefs(d, at, refs, platform);
            && missing == (if ref in missing then [ref] else []) + payload
            && (ref in missing <==> Judge(d, at, ref, platform).Absent?)
            && (ref in payload <==> ref in refs && ref in missing)
  {
    AbsentRefsConcat(d, at, [ref], refs, platform);
    AbsentRefsMember(d, at, refs, platform, ref);
    AbsentRefsMember(d, at, [ref] + refs, platform, ref);
    AbsentRefsOfOne(d, at, ref, platform);
  }

  lemma AbsentRefsOfOne(d: Disk, at: Targets, ref: string, platform: string)
    ensures AbsentRefs(d, at, [ref], platform) == if Judge(d, at, ref, platform).Absent? then [ref] else []
  {
    assert [ref][..0] == [];
  }
}
