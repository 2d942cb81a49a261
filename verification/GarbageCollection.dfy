/** Garbage collection over the fleet (cache.go, GC and gcOne): each cache is stopped, collected and started
    again, whatever fails in between. */
module GarbageCollection {
  import opened Text
  import opened Refs

  // ----- commands -----------------------------------------------------------------------------------

  datatype Command = Stop | Collect(deleteUntagged: bool) | Start

  /** How a command of the runtime ends. One that fails may nevertheless have taken effect, as when it is
      interrupted after the container has stopped. */
  datatype Answer = Done | Failed(message: string, took: bool)

  /** A command that was given: to which cache, whether cancelling the caller's context interrupts it, and
      how it ended. */
  datatype Event = Event(command: Command, cache: nat, tied: bool, answer: Answer)

  predicate TookEffect(a: Answer) {
    a.Failed? ==> a.took
  }

  /** The caches running after a command. */
  function Effect(running: set<nat>, e: Event): set<nat> {
    if !TookEffect(e.answer) then running
    else match e.command
      case Stop => running - {e.cache}
      case Start => running + {e.cache}
      case Collect(_) => running
  }

  function RunningAfter(running: set<nat>, log: seq<Event>): set<nat> {
    if log == [] then running else Effect(RunningAfter(running, log[..|log| - 1]), log[|log| - 1])
  }

  lemma {:induction false} RunningConcat(running: set<nat>, a: seq<Event>, b: seq<Event>)
    ensures RunningAfter(running, a + b) == RunningAfter(RunningAfter(running, a), b)
  {
    if b == [] {
      assert a + b == a;
    } else {
      assert (a + b)[..|a + b| - 1] == a + b[..|b| - 1];
      RunningConcat(running, a, b[..|b| - 1]);
    }
  }

  /** strings.Contains. */
  predicate Contains(s: string, part: string) {
    part <= s || (s != "" && Contains(s[1..], part))
  }

  // ----- one cache ----------------------------------------------------------------------------------

  /** How the commands for one cache would end; image is the error of looking up the container's image. */
  datatype Attempt = Attempt(image: Option<string>, stop: Answer, collect: Answer, start: Answer)

  /** Collecting a cache that holds nothing yet fails in a way that is no error. */
  predicate Collected(a: Answer) {
    a.Failed? ==> Contains(a.message, "Path not found")
  }

  /** The commands given for one cache. */
  function CommandsFor(u: nat, deleteUntagged: bool, a: Attempt): seq<Event> {
    if a.image.Some? then []
    else if a.stop.Failed? then [Event(Stop, u, true, a.stop)]
    else [Event(Stop, u, true, a.stop), Event(Collect(deleteUntagged), u, true, a.collect), Event(Start, u, false, a.start)]
  }

  /** The first error wins; that of the deferred start is reported only where there is no other. */
  function ErrorOf(a: Attempt): Option<string> {
    if a.image.Some? then a.image
    else if a.stop.Failed? then Some(a.stop.message)
    else if !Collected(a.collect) then Some(a.collect.message)
    else if a.start.Failed? then Some(a.start.message)
    else None
  }

  predicate Succeeds(a: Attempt) {
    && a.image.None? && a.stop.Done? && a.start.Done?
    && (a.collect.Failed? ==> Contains(a.collect.message, "Path not found"))
  }

  lemma ErrorIff(a: Attempt)
    ensures ErrorOf(a).None? <==> Succeeds(a)
  {
  }

  /** The commands leave the cache stopped: stopping it failed yet took effect, so that nothing starts it
      again, or starting it had no effect. */
  predicate LeftStopped(a: Attempt) {
    a.image.None? && TookEffect(a.stop) && (a.stop.Failed? || !TookEffect(a.start))
  }

  /** A running cache is running afterwards unless it is left stopped, which is always reported; no other
      cache is touched. */
  lemma OneCache(running: set<nat>, u: nat, deleteUntagged: bool, a: Attempt)
    requires u in running
    ensures RunningAfter(running, CommandsFor(u, deleteUntagged, a)) == if LeftStopped(a) then running - {u} else running
    ensures LeftStopped(a) ==> ErrorOf(a).Some?
  {
    var log := CommandsFor(u, deleteUntagged, a);
    if a.image.None? {
      var stop := [Event(Stop, u, true, a.stop)];
      assert RunningAfter(running, []) == running;
      if a.stop.Failed? {
        assert log[..0] == [];
      } else {
        assert log[..2][..1][..0] == [];
        assert log[..2][..1] == log[..1];
        var stopped := RunningAfter(running, log[..1]);
        assert stopped == running - {u};
        assert RunningAfter(running, log[..2]) == stopped;
      }
    }
  }

  // ----- the fleet ----------------------------------------------------------------------------------

  /** What happens at one cache of the fleet: the error of asking for its state, if that fails, and how the
      commands for it would end. */
  datatype Visit = Visit(lookup: Option<string>, attempt: Attempt)

  datatype Progress = Progress(running: set<nat>, log: seq<Event>, err: Option<string>)

  predicate ToCollect(fleet: seq<Upstream>, running: set<nat>, u: nat)
    requires u < |fleet|
  {
    u in running && !fleet[u].blobcache
  }

  /** The run at cache u. */
  function Visited(fleet: seq<Upstream>, p: Progress, u: nat, v: Visit, deleteUntagged: bool): Progress
    requires u < |fleet|
  {
    if v.lookup.Some? then p.(err := v.lookup)
    else if !ToCollect(fleet, p.running, u) then p
    else
      var log := CommandsFor(u, deleteUntagged, v.attempt);
      var err := ErrorOf(v.attempt);
      Progress(RunningAfter(p.running, log), p.log + log, if err.None? then None else Some(GcError(fleet[u], err.value)))
  }

  function GcError(u: Upstream, message: string): string {
    "gc " + u.name + ": " + message
  }

  /** The run over the first n caches; it ends at the first error. */
  function RunOver(fleet: seq<Upstream>, running: set<nat>, visits: seq<Visit>, deleteUntagged: bool, n: nat): Progress
    requires n <= |fleet| == |visits|
  {
    if n == 0 then Progress(running, [], None)
    else
      var p := RunOver(fleet, running, visits, deleteUntagged, n - 1);
      if p.err.Some? then p else Visited(fleet, p, n - 1, visits[n - 1], deleteUntagged)
  }

  /** Untagged manifests are deleted by every collection or by none, as was asked. */
  ghost predicate Flagged(log: seq<Event>, deleteUntagged: bool) {
    forall i :: 0 <= i < |log| && log[i].command.Collect? ==> log[i].command.deleteUntagged == deleteUntagged
  }

  class Engine {
    const fleet: seq<Upstream>
    var running: set<nat>
    ghost var log: seq<Event>

    constructor (fleet: seq<Upstream>, running: set<nat>)
      ensures this.fleet == fleet && this.running == running && log == []
    {
      this.fleet, this.running, log := fleet, running, [];
    }

    /** run, for a command that stops, starts or collects a cache. */
    method Run(command: Command, u: nat, tied: bool, answer: Answer) returns (err: Option<string>)
      modifies this
      ensures log == old(log) + [Event(command, u, tied, answer)]
      ensures running == Effect(old(running), Event(command, u, tied, answer))
      ensures err == if answer.Failed? then Some(answer.message) else None
    {
      log := log + [Event(command, u, tied, answer)];
      running := Effect(running, Event(command, u, tied, answer));
      return if answer.Failed? then Some(answer.message) else None;
    }

    /** gcOne. It succeeds iff the image is found, the container stopped, collected or found to be empty, and
        started again; otherwise the first failure is its error, that of the start coming last. Every
        collection it adds to the log is run with the flag it was given. */
    method GcOne(u: nat, deleteUntagged: bool, a: Attempt) returns (err: Option<string>)
      modifies this
      ensures err.None? <==> a.image.None? && a.stop.Done? && (a.collect.Failed? ==> Contains(a.collect.message, "Path not found")) && a.start.Done?
      ensures a.image.Some? ==> err == a.image && log == old(log)
      ensures a.image.None? && a.stop.Failed? ==> err == Some(a.stop.message)
      ensures a.image.None? && a.stop.Done? && a.collect.Failed? && !Contains(a.collect.message, "Path not found") ==> err == Some(a.collect.message)
      ensures old(log) <= log && Flagged(log[|old(log)|..], deleteUntagged)
      ensures log == old(log) + CommandsFor(u, deleteUntagged, a)
      ensures running == RunningAfter(old(running), CommandsFor(u, deleteUntagged, a))
      ensures err == ErrorOf(a)
    {
      ghost var all := CommandsFor(u, deleteUntagged, a);
      if a.image.Some? {
        return a.image;
      }
      err := Run(Stop, u, true, a.stop);
      assert all[..1][..0] == [];
      assert running == RunningAfter(old(running), all[..1]);
      if err.Some? {
        assert all[..1] == all;
        assert log[|old(log)|..] == all;
        return;
      }
      err := Run(Collect(deleteUntagged), u, true, a.collect);
      assert all[..2][..1] == all[..1];
      assert running == RunningAfter(old(running), all[..2]);
      if err.Some? && Contains(err.value, "Path not found") {
        err := None;
      }
      var serr := Run(Start, u, false, a.start);
      if serr.Some? && err.None? {
        err := serr;
      }
      assert all[..|all| - 1] == all[..2];
      assert log[|old(log)|..] == all;
    }

    /** GC. Without an error the caches that ran still run; whatever happens, every collection is run with the
        flag given, and only registry caches that were running are given any command. */
    method GC(deleteUntagged: bool, visits: seq<Visit>) returns (err: Option<string>)
      requires |visits| == |fleet|
      modifies this
      ensures err.None? ==> running == old(running)
      ensures old(log) <= log && Flagged(log[|old(log)|..], deleteUntagged)
      ensures forall i :: |old(log)| <= i < |log| ==>
                log[i].cache in old(running) && log[i].cache < |fleet| && !fleet[log[i].cache].blobcache
      ensures var p := RunOver(fleet, old(running), visits, deleteUntagged, |fleet|);
              running == p.running && log == old(log) + p.log && err == p.err
    {
      err := Sweep(deleteUntagged, visits);
      GcFacts(fleet, old(running), visits, deleteUntagged, old(log));
    }

    /** The loop of GC. */
    method Sweep(deleteUntagged: bool, visits: seq<Visit>) returns (err: Option<string>)
      requires |visits| == |fleet|
      modifies this
      ensures var p := RunOver(fleet, old(running), visits, deleteUntagged, |fleet|);
              running == p.running && log == old(log) + p.log && err == p.err
    {
      for u := 0 to |fleet|
        invariant var p := RunOver(fleet, old(running), visits, deleteUntagged, u);
                  running == p.running && log == old(log) + p.log && p.err.None?
      {
        if visits[u].lookup.Some? {
          EndsHere(fleet, old(running), visits, deleteUntagged, u);
          return visits[u].lookup;
        }
        if u !in running {
          continue;
        }
        if fleet[u].blobcache {
          continue;
        }
        err := GcOne(u, deleteUntagged, visits[u].attempt);
        if err.Some? {
          err := Some(GcError(fleet[u], err.value));
          EndsHere(fleet, old(running), visits, deleteUntagged, u);
          return;
        }
      }
      return None;
    }
  }

  lemma {:induction false} ErrorEnds(fleet: seq<Upstream>, running: set<nat>, visits: seq<Visit>, deleteUntagged: bool, n: nat, m: nat)
    requires n <= m <= |fleet| == |visits| && RunOver(fleet, running, visits, deleteUntagged, n).err.Some?
    ensures RunOver(fleet, running, visits, deleteUntagged, m) == RunOver(fleet, running, visits, deleteUntagged, n)
    decreases m
  {
    if n < m {
      ErrorEnds(fleet, running, visits, deleteUntagged, n, m - 1);
    }
  }

  /** The run ends at a visit that fails. */
  lemma EndsHere(fleet: seq<Upstream>, running: set<nat>, visits: seq<Visit>, deleteUntagged: bool, u: nat)
    requires u < |fleet| == |visits| && RunOver(fleet, running, visits, deleteUntagged, u).err.None?
    requires Visited(fleet, RunOver(fleet, running, visits, deleteUntagged, u), u, visits[u], deleteUntagged).err.Some?
    ensures RunOver(fleet, running, visits, deleteUntagged, |fleet|) ==
            Visited(fleet, RunOver(fleet, running, visits, deleteUntagged, u), u, visits[u], deleteUntagged)
  {
    ErrorEnds(fleet, running, visits, deleteUntagged, u + 1, |fleet|);
  }

  lemma GcFacts(fleet: seq<Upstream>, running: set<nat>, visits: seq<Visit>, deleteUntagged: bool, log: seq<Event>)
    requires |visits| == |fleet|
    ensures var p := RunOver(fleet, running, visits, deleteUntagged, |fleet|);
            && (p.err.None? ==> p.running == running)
            && Flagged((log + p.log)[|log|..], deleteUntagged)
            && forall i :: |log| <= i < |log + p.log| ==>
                 var u := (log + p.log)[i].cache; u in running && u < |fleet| && !fleet[u].blobcache
  {
    FleetKeptRunning(fleet, running, visits, deleteUntagged, |fleet|);
    FleetSafe(fleet, running, visits, deleteUntagged, |fleet|);
    var more := RunOver(fleet, running, visits, deleteUntagged, |fleet|).log;
    assert (log + more)[|log|..] == more;
  }

  // ----- every run ----------------------------------------------------------------------------------

  /** Caches are collected only while stopped, and only registry caches that were running are given any
      command. */
  ghost predicate Safe(fleet: seq<Upstream>, running: set<nat>, log: seq<Event>) {
    forall i :: 0 <= i < |log| ==>
      && log[i].cache < |fleet| && log[i].cache in running && !fleet[log[i].cache].blobcache
      && (log[i].command.Collect? ==> log[i].cache !in RunningAfter(running, log[..i]))
  }

  /** A stop that succeeded is followed, after the collection and nothing else, by a start of the same cache
      that does not depend on the caller's context. */
  ghost predicate Restarted(log: seq<Event>, i: nat)
    requires i < |log|
  {
    log[i].command.Stop? && log[i].answer.Done? ==>
      && i + 2 < |log| && log[i + 1].command.Collect? && log[i + 1].cache == log[i].cache
      && log[i + 2].command.Start? && log[i + 2].cache == log[i].cache && !log[i + 2].tied
  }

  ghost predicate AllRestarted(log: seq<Event>) {
    forall i :: 0 <= i < |log| ==> Restarted(log, i)
  }

  lemma CommandsSafe(fleet: seq<Upstream>, running: set<nat>, u: nat, deleteUntagged: bool, a: Attempt)
    requires u < |fleet| && ToCollect(fleet, running, u)
    ensures Safe(fleet, running, CommandsFor(u, deleteUntagged, a))
    ensures AllRestarted(CommandsFor(u, deleteUntagged, a))
  {
    var log := CommandsFor(u, deleteUntagged, a);
    if |log| > 1 {
      assert log[..1] == [Event(Stop, u, true, a.stop)] && log[..1][..0] == [];
    }
  }

  /** Two safe stretches make a safe run, if the caches of the second were running all along. */
  lemma SafeConcat(fleet: seq<Upstream>, running: set<nat>, a: seq<Event>, b: seq<Event>)
    requires Safe(fleet, running, a) && Safe(fleet, RunningAfter(running, a), b) && RunningAfter(running, a) <= running
    requires AllRestarted(a) && AllRestarted(b)
    ensures Safe(fleet, running, a + b) && AllRestarted(a + b)
  {
    forall i | 0 <= i < |a + b|
      ensures RunningAfter(running, (a + b)[..i]) == if i < |a| then RunningAfter(running, a[..i]) else RunningAfter(RunningAfter(running, a), b[..i - |a|])
      ensures Restarted(a + b, i)
    {
      if i < |a| {
        assert (a + b)[..i] == a[..i];
        assert Restarted(a, i);
      } else {
        assert (a + b)[..i] == a + b[..i - |a|];
        RunningConcat(running, a, b[..i - |a|]);
        assert Restarted(b, i - |a|);
      }
    }
  }

  /** The cache at which a run ended with an error. */
  ghost predicate EndedAt(fleet: seq<Upstream>, running: set<nat>, visits: seq<Visit>, u: nat)
    requires |fleet| == |visits|
  {
    u < |fleet| && FailsHere(fleet, running, visits, u) && forall k :: 0 <= k < u ==> !FailsHere(fleet, running, visits, k)
  }

  /** Visiting cache u ends the run: its state cannot be read, or it is collected and that fails. */
  predicate FailsHere(fleet: seq<Upstream>, running: set<nat>, visits: seq<Visit>, u: nat)
    requires u < |fleet| == |visits|
  {
    visits[u].lookup.Some? || (u in running && !fleet[u].blobcache && !Succeeds(visits[u].attempt))
  }

  /** The caches left stopped by the run: at most the one at which it ended. */
  predicate StoppedBy(fleet: seq<Upstream>, running: set<nat>, visits: seq<Visit>, u: nat)
    requires u < |fleet| == |visits|
  {
    visits[u].lookup.None? && u in running && !fleet[u].blobcache && LeftStopped(visits[u].attempt)
  }

  /** Over any fleet and any pattern of failures a run fails iff some visit does, and then ends at the first
      such visit. Without an error the running caches are those that ran before; with one, only the cache
      at which it ended can be left stopped, which happens exactly when its stop failed but took effect or
      its start had no effect. */
  lemma {:induction false} FleetKeptRunning(fleet: seq<Upstream>, running: set<nat>, visits: seq<Visit>, deleteUntagged: bool, n: nat)
    requires n <= |fleet| == |visits|
    ensures var p := RunOver(fleet, running, visits, deleteUntagged, n);
            && (p.err.None? <==> forall u :: 0 <= u < n ==> !FailsHere(fleet, running, visits, u))
            && (p.err.None? ==> p.running == running)
            && (p.err.Some? ==> exists u: nat :: u < n && EndedAt(fleet, running, visits, u)
                                                 && p.running == if StoppedBy(fleet, running, visits, u) then running - {u} else running)
  {
    if n > 0 {
      FleetKeptRunning(fleet, running, visits, deleteUntagged, n - 1);
      var p := RunOver(fleet, running, visits, deleteUntagged, n - 1);
      var u, v := n - 1, visits[n - 1];
      if p.err.None? {
        ErrorIff(v.attempt);
        if ToCollect(fleet, running, u) {
          OneCache(running, u, deleteUntagged, v.attempt);
        }
        if FailsHere(fleet, running, visits, u) {
          assert EndedAt(fleet, running, visits, u);
        }
      }
    }
  }

  /** And in every such run collection happens only while the cache is stopped, every successful stop is
      followed by a start that cancelling the run does not reach, the blob cache and the caches that were
      not running are left alone, and untagged manifests are deleted only if that was asked for. */
  lemma {:induction false} FleetSafe(fleet: seq<Upstream>, running: set<nat>, visits: seq<Visit>, deleteUntagged: bool, n: nat)
    requires n <= |fleet| == |visits|
    ensures var p := RunOver(fleet, running, visits, deleteUntagged, n);
            Safe(fleet, running, p.log) && p.running == RunningAfter(running, p.log) && AllRestarted(p.log) && Flagged(p.log, deleteUntagged)
  {
    if n > 0 {
      FleetSafe(fleet, running, visits, deleteUntagged, n - 1);
      var p := RunOver(fleet, running, visits, deleteUntagged, n - 1);
      if p.err.None? {
        assert p.running == running by {
          FleetKeptRunning(fleet, running, visits, deleteUntagged, n - 1);
        }
        VisitSafe(fleet, p, n - 1, visits[n - 1], deleteUntagged);
      }
    }
  }

  lemma VisitSafe(fleet: seq<Upstream>, p: Progress, u: nat, v: Visit, deleteUntagged: bool)
    requires u < |fleet| && Safe(fleet, p.running, p.log) && p.running == RunningAfter(p.running, p.log) && AllRestarted(p.log)
    requires Flagged(p.log, deleteUntagged)
    ensures var p' := Visited(fleet, p, u, v, deleteUntagged);
            && Safe(fleet, p.running, p'.log) && p'.running == RunningAfter(p.running, p'.log) && AllRestarted(p'.log)
            && Flagged(p'.log, deleteUntagged)
  {
    if v.lookup.None? && ToCollect(fleet, p.running, u) {
      var log := CommandsFor(u, deleteUntagged, v.attempt);
      CommandsSafe(fleet, p.running, u, deleteUntagged, v.attempt);
      SafeConcat(fleet, p.running, p.log, log);
      RunningConcat(p.running, p.log, log);
    }
  }

  /** A run without error has collected every registry cache that was running, each once, and no other. */
  lemma {:induction false} AllCollected(fleet: seq<Upstream>, running: set<nat>, visits: seq<Visit>, deleteUntagged: bool, n: nat)
    requires n <= |fleet| == |visits| && RunOver(fleet, running, visits, deleteUntagged, n).err.None?
    ensures CollectionsIn(RunOver(fleet, running, visits, deleteUntagged, n).log) == ToCollectAmong(fleet, running, n)
  {
    if n > 0 {
      FleetKeptRunning(fleet, running, visits, deleteUntagged, n - 1);
      AllCollected(fleet, running, visits, deleteUntagged, n - 1);
      var p := RunOver(fleet, running, visits, deleteUntagged, n - 1);
      if ToCollect(fleet, running, n - 1) {
        CollectionsConcat(p.log, CommandsFor(n - 1, deleteUntagged, visits[n - 1].attempt));
        CollectionsOf(n - 1, deleteUntagged, visits[n - 1].attempt);
      }
    }
  }

  /** The caches collected, in order. */
  function CollectionsIn(log: seq<Event>): seq<nat> {
    if log == [] then []
    else
      var last := log[|log| - 1];
      CollectionsIn(log[..|log| - 1]) + if last.command.Collect? then [last.cache] else []
  }

  /** The running registry caches among the first n, in fleet order. */
  function ToCollectAmong(fleet: seq<Upstream>, running: set<nat>, n: nat): seq<nat>
    requires n <= |fleet|
  {
    if n == 0 then [] else ToCollectAmong(fleet, running, n - 1) + if n - 1 in running && !fleet[n - 1].blobcache then [n - 1] else []
  }

  lemma {:induction false} CollectionsConcat(a: seq<Event>, b: seq<Event>)
    ensures CollectionsIn(a + b) == CollectionsIn(a) + CollectionsIn(b)
  {
    if b == [] {
      assert a + b == a;
    } else {
      assert (a + b)[..|a + b| - 1] == a + b[..|b| - 1];
      CollectionsConcat(a, b[..|b| - 1]);
    }
  }

  lemma CollectionsOf(u: nat, deleteUntagged: bool, a: Attempt)
    requires a.image.None? && a.stop.Done?
    ensures CollectionsIn(CommandsFor(u, deleteUntagged, a)) == [u]
  {
    var log := CommandsFor(u, deleteUntagged, a);
    assert log[..2][..1] == log[..1] && log[..1][..0] == [];
    assert CollectionsIn(log[..1]) == [];
    assert CollectionsIn(log[..2]) == [u];
  }
}
