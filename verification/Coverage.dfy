/** How much of a release one cache holds (coverage.go, releaseCoverage), and its agreement with the check
    that pull-release makes. */
module Coverage {
  import opened Text
  import opened Ordering
  import opened Refs
  import opened Manifests
  import opened Payload
  import opened LayerSearch
  import opened Release

  /** ReleaseCoverage; missing includes the images of which only the manifest is on disk. */
  datatype Covered = Covered(total: nat, full: nat, manifestOnly: nat, missing: seq<string>, elsewhere: nat)

  /** The references that parse, with their parts. */
  function ParsesOf(refs: seq<string>): map<string, ImageRef> {
    map r | r in refs && ParseRef(r).Some? :: ParseRef(r).value
  }

  /** A registry cache: its index in the fleet and the registry it serves. */
  datatype Cache = Cache(index: nat, host: string)

  datatype Kind = Elsewhere | Complete | ManifestOnly | Nothing

  /** How a payload image counts. Unlike missingOnDisk this takes the reference for a digest as it is. */
  function KindOf(s: Store, u: Cache, p: ImageRef, platform: string): Kind {
    if p.host != u.host then Elsewhere
    else
      var n := Name(u.index, p.repo, p.ref);
      if Full(s, n, platform) then Complete
      else if n in s.manifests then ManifestOnly
      else Nothing
  }

  predicate Lacking(k: Kind) {
    k.ManifestOnly? || k.Nothing?
  }

  function MissingRefs(s: Store, u: Cache, parses: map<string, ImageRef>, refs: seq<string>, platform: string): seq<string>
    requires forall r :: r in refs ==> r in parses
  {
    if refs == [] then []
    else
      var before, r := MissingRefs(s, u, parses, refs[..|refs| - 1], platform), refs[|refs| - 1];
      if Lacking(KindOf(s, u, parses[r], platform)) then before + [r] else before
  }

  function HowMany(s: Store, u: Cache, parses: map<string, ImageRef>, refs: seq<string>, platform: string, k: Kind): nat
    requires forall r :: r in refs ==> r in parses
  {
    if refs == [] then 0
    else
      var r := refs[|refs| - 1];
      HowMany(s, u, parses, refs[..|refs| - 1], platform, k) + if KindOf(s, u, parses[r], platform) == k then 1 else 0
  }

  ghost predicate HeldHere(s: Store, u: Cache, p: ImageRef, platform: string) {
    p.host == u.host && ImageHeld(s, Name(u.index, p.repo, p.ref), platform)
  }

  /** How an image counts, told by its registry, what is held of it and whether its top manifest is stored. */
  lemma KindIff(s: Store, u: Cache, p: ImageRef, platform: string)
    ensures var k, n := KindOf(s, u, p, platform), Name(u.index, p.repo, p.ref);
            && (k.Elsewhere? <==> p.host != u.host)
            && (k.Complete? <==> p.host == u.host && ImageHeld(s, n, platform))
            && (k.ManifestOnly? <==> p.host == u.host && !ImageHeld(s, n, platform) && n in s.manifests)
            && (k.Nothing? <==> p.host == u.host && !ImageHeld(s, n, platform) && n !in s.manifests)
  {
    FullIffHeld(s, Name(u.index, p.repo, p.ref), platform);
  }

  /** The payload images that count so. */
  function OfKind(s: Store, u: Cache, parses: map<string, ImageRef>, refs: seq<string>, platform: string, k: Kind): set<nat>
    requires forall r :: r in refs ==> r in parses
  {
    set i: nat | i < |refs| && KindOf(s, u, parses[refs[i]], platform) == k
  }

  lemma {:induction false} HowManyCounts(s: Store, u: Cache, parses: map<string, ImageRef>, refs: seq<string>, platform: string, k: Kind)
    requires forall r :: r in refs ==> r in parses
    ensures HowMany(s, u, parses, refs, platform, k) == |OfKind(s, u, parses, refs, platform, k)|
  {
    if refs != [] {
      HowManyCounts(s, u, parses, refs[..|refs| - 1], platform, k);
      OfKindMore(s, u, parses, refs, platform, k);
    }
  }

  lemma OfKindMore(s: Store, u: Cache, parses: map<string, ImageRef>, refs: seq<string>, platform: string, k: Kind)
    requires refs != [] && forall r :: r in refs ==> r in parses
    ensures var n := |refs| - 1; var before := OfKind(s, u, parses, refs[..n], platform, k);
            n !in before && OfKind(s, u, parses, refs, platform, k) == before + if KindOf(s, u, parses[refs[n]], platform) == k then {n} else {}
  {
    var n := |refs| - 1;
    var kinds := seq(|refs|, i requires 0 <= i < |refs| => KindOf(s, u, parses[refs[i]], platform));
    assert OfKind(s, u, parses, refs, platform, k) == set i: nat | i < |kinds| && kinds[i] == k;
    assert OfKind(s, u, parses, refs[..n], platform, k) == set i: nat | i < n && kinds[i] == k;
  }

  lemma {:induction false} MissingChosen(s: Store, u: Cache, parses: map<string, ImageRef>, refs: seq<string>, platform: string)
    requires forall r :: r in refs ==> r in parses
    ensures MissingRefs(s, u, parses, refs, platform) == Chosen(refs, LackedHere(s, u, parses, refs, platform))
  {
    if refs != [] {
      var n := |refs| - 1;
      MissingChosen(s, u, parses, refs[..n], platform);
      KindIff(s, u, parses[refs[n]], platform);
      assert LackedHere(s, u, parses, refs, platform)[..n] == LackedHere(s, u, parses, refs[..n], platform);
    }
  }

  /** Which payload images belong to the cache's registry and are not held. */
  ghost function LackedHere(s: Store, u: Cache, parses: map<string, ImageRef>, refs: seq<string>, platform: string): seq<bool>
    requires forall r :: r in refs ==> r in parses
  {
    seq(|refs|, k requires 0 <= k < |refs| =>
      var p := parses[refs[k]]; p.host == u.host && !ImageHeld(s, Name(u.index, p.repo, p.ref), platform))
  }

  /** The coverage counts the images: those of other registries, those held, and those of which no more than
      the top manifest is stored; and it lists those of the cache's registry that are not held, in order. */
  ghost predicate Counts(s: Store, u: Cache, parses: map<string, ImageRef>, refs: seq<string>, platform: string, c: Covered)
    requires forall r :: r in refs ==> r in parses
  {
    && c.total == |refs|
    && c.elsewhere == |set i: nat | i < |refs| && parses[refs[i]].host != u.host|
    && c.full == |set i: nat | i < |refs| && HeldHere(s, u, parses[refs[i]], platform)|
    && c.manifestOnly == |set i: nat | i < |refs| && ManifestHere(s, u, parses[refs[i]], platform)|
    && Selection(c.missing, refs, LackedHere(s, u, parses, refs, platform))
  }

  ghost predicate ManifestHere(s: Store, u: Cache, p: ImageRef, platform: string) {
    var n := Name(u.index, p.repo, p.ref);
    p.host == u.host && !ImageHeld(s, n, platform) && n in s.manifests
  }

  lemma CompleteCounts(s: Store, u: Cache, parses: map<string, ImageRef>, refs: seq<string>, platform: string)
    requires forall r :: r in refs ==> r in parses
    ensures HowMany(s, u, parses, refs, platform, Complete) == |set i: nat | i < |refs| && HeldHere(s, u, parses[refs[i]], platform)|
  {
    forall i: nat | i < |refs|
      ensures KindOf(s, u, parses[refs[i]], platform) == Complete <==> HeldHere(s, u, parses[refs[i]], platform)
    {
      KindIff(s, u, parses[refs[i]], platform);
    }
    HowManyCounts(s, u, parses, refs, platform, Complete);
    assert OfKind(s, u, parses, refs, platform, Complete) == set i: nat | i < |refs| && HeldHere(s, u, parses[refs[i]], platform);
  }

  lemma ManifestOnlyCounts(s: Store, u: Cache, parses: map<string, ImageRef>, refs: seq<string>, platform: string)
    requires forall r :: r in refs ==> r in parses
    ensures HowMany(s, u, parses, refs, platform, ManifestOnly) == |set i: nat | i < |refs| && ManifestHere(s, u, parses[refs[i]], platform)|
  {
    forall i: nat | i < |refs|
      ensures KindOf(s, u, parses[refs[i]], platform) == ManifestOnly <==> ManifestHere(s, u, parses[refs[i]], platform)
    {
      KindIff(s, u, parses[refs[i]], platform);
    }
    HowManyCounts(s, u, parses, refs, platform, ManifestOnly);
    assert OfKind(s, u, parses, refs, platform, ManifestOnly) == set i: nat | i < |refs| && ManifestHere(s, u, parses[refs[i]], platform);
  }

  lemma ElsewhereCounts(s: Store, u: Cache, parses: map<string, ImageRef>, refs: seq<string>, platform: string)
    requires forall r :: r in refs ==> r in parses
    ensures HowMany(s, u, parses, refs, platform, Elsewhere) == |set i: nat | i < |refs| && parses[refs[i]].host != u.host|
  {
    forall i: nat | i < |refs|
      ensures KindOf(s, u, parses[refs[i]], platform) == Elsewhere <==> parses[refs[i]].host != u.host
    {
      KindIff(s, u, parses[refs[i]], platform);
    }
    HowManyCounts(s, u, parses, refs, platform, Elsewhere);
    assert OfKind(s, u, parses, refs, platform, Elsewhere) == set i: nat | i < |refs| && parses[refs[i]].host != u.host;
  }

  lemma CountsRight(s: Store, u: Cache, parses: map<string, ImageRef>, refs: seq<string>, platform: string, c: Covered)
    requires forall r :: r in refs ==> r in parses
    requires c.total == |refs| && c.missing == MissingRefs(s, u, parses, refs, platform)
    requires c.full == HowMany(s, u, parses, refs, platform, Complete)
    requires c.manifestOnly == HowMany(s, u, parses, refs, platform, ManifestOnly)
    requires c.elsewhere == HowMany(s, u, parses, refs, platform, Elsewhere)
    ensures Counts(s, u, parses, refs, platform, c)
  {
    CompleteCounts(s, u, parses, refs, platform);
    ManifestOnlyCounts(s, u, parses, refs, platform);
    ElsewhereCounts(s, u, parses, refs, platform);
    MissingChosen(s, u, parses, refs, platform);
    ChosenIsSelection(refs, LackedHere(s, u, parses, refs, platform));
  }

  /** The coverage of a payload: None iff a reference cannot be parsed. */
  method CoverPayload(s: Store, u: Cache, refs: seq<string>, parses: map<string, ImageRef>, platform: string) returns (r: Option<Covered>)
    ensures r.None? <==> exists ref :: ref in refs && ref !in parses
    ensures r.Some? ==> Counts(s, u, parses, refs, platform, r.value)
    ensures r.Some? ==>
              && r.value.missing == MissingRefs(s, u, parses, refs, platform)
              && r.value.total == r.value.full + |r.value.missing| + r.value.elsewhere
              && r.value.manifestOnly <= |r.value.missing|
  {
    r := CountEach(s, u, refs, parses, platform);
    if r.Some? {
      CountsRight(s, u, parses, refs, platform, r.value);
    }
  }

  /** Its loop. */
  method CountEach(s: Store, u: Cache, refs: seq<string>, parses: map<string, ImageRef>, platform: string) returns (r: Option<Covered>)
    ensures r.None? <==> exists ref :: ref in refs && ref !in parses
    ensures r.Some? ==>
              && r.value.total == |refs|
              && r.value.missing == MissingRefs(s, u, parses, refs, platform)
              && r.value.full == HowMany(s, u, parses, refs, platform, Complete)
              && r.value.manifestOnly == HowMany(s, u, parses, refs, platform, ManifestOnly)
              && r.value.elsewhere == HowMany(s, u, parses, refs, platform, Elsewhere)
    ensures r.Some? ==>
              && r.value.total == r.value.full + |r.value.missing| + r.value.elsewhere
              && r.value.manifestOnly <= |r.value.missing|
  {
    var cov := Covered(|refs|, 0, 0, [], 0);
    for i := 0 to |refs|
      invariant forall k :: 0 <= k < i ==> refs[k] in parses
      invariant cov.total == |refs|
      invariant cov.missing == MissingRefs(s, u, parses, refs[..i], platform)
      invariant cov.full == HowMany(s, u, parses, refs[..i], platform, Complete)
      invariant cov.manifestOnly == HowMany(s, u, parses, refs[..i], platform, ManifestOnly)
      invariant cov.elsewhere == HowMany(s, u, parses, refs[..i], platform, Elsewhere)
      invariant i == cov.full + |cov.missing| + cov.elsewhere && cov.manifestOnly <= |cov.missing|
    {
      assert refs[..i + 1][..i] == refs[..i];
      if refs[i] !in parses {
        return None;
      }
      var pr := parses[refs[i]];
      if pr.host != u.host {
        cov := cov.(elsewhere := cov.elsewhere + 1);
        continue;
      }
      var full, manifest := ImageOnDisk(s, Name(u.index, pr.repo, pr.ref), platform);
      if full {
        cov := cov.(full := cov.full + 1);
      } else if manifest {
        cov := cov.(manifestOnly := cov.manifestOnly + 1, missing := cov.missing + [refs[i]]);
      } else {
        cov := cov.(missing := cov.missing + [refs[i]]);
      }
    }
    assert refs[..|refs|] == refs;
    return Some(cov);
  }

  /** The payload the release image on disk lists; decode is the JSON decoder. */
  function ListedPayload(lib: Library, decode: string -> Option<ImageStream>, u: Cache, rf: ImageRef, platform: string, ghost rank: Name -> nat): Option<seq<string>>
    requires Acyclic(lib.store, rank)
  {
    var named := Name(u.index, rf.repo, rf.ref);
    if !DigestPinned(rf.ref) && named !in lib.store.tags then None
    else
      var top := if DigestPinned(rf.ref) then named else named.(digest := lib.store.tags[named]);
      match LocalFile(lib, top, platform, IMAGE_REFERENCES, rank)
      case None => None
      case Some(raw) => Listed(decode(raw))
  }

  /** A tag is resolved on disk: its payload is that of the digest it points at, and there is none without. */
  lemma TaggedPayload(lib: Library, decode: string -> Option<ImageStream>, u: Cache, rf: ImageRef, platform: string, rank: Name -> nat)
    requires Acyclic(lib.store, rank) && !("sha256:" <= rf.ref)
    ensures var named, payload := Name(u.index, rf.repo, rf.ref), ListedPayload(lib, decode, u, rf, platform, rank);
            if named !in lib.store.tags then payload.None?
            else "sha256:" <= lib.store.tags[named] ==> payload == ListedPayload(lib, decode, u, rf.(ref := lib.store.tags[named]), platform, rank)
  {
  }

  /** Reads the release image on disk; nothing that is not there is touched. */
  method ReadPayload(lib: Library, decode: string -> Option<ImageStream>, u: Cache, rf: ImageRef, platform: string, ghost rank: Name -> nat)
      returns (payload: Option<seq<string>>, touched: seq<Name>)
    requires Acyclic(lib.store, rank)
    ensures forall n :: n in touched ==> n in lib.store.manifests || n in lib.store.blobs
    ensures payload == ListedPayload(lib, decode, u, rf, platform, rank)
  {
    touched := [];
    var digest := rf.ref;
    var named := Name(u.index, rf.repo, rf.ref);
    if !DigestPinned(digest) {
      if named !in lib.store.tags {
        return None, touched;
      }
      digest := lib.store.tags[named];
    }
    var top := named.(digest := digest);
    var manifest := LocalPlatformManifest(lib.store, top, platform, rank);
    touched := manifest.touched;
    if manifest.result.None? {
      return None, touched;
    }
    var raw := LocalFileInLayers(lib, u.index, rf.repo, manifest.result.value, IMAGE_REFERENCES);
    touched := touched + raw.touched;
    if raw.result.None? {
      return None, touched;
    }
    payload := ParseImageReferences(decode(raw.result.value));
  }

  /** releaseCoverage: None for any of its errors. */
  method ReleaseCoverage(lib: Library, decode: string -> Option<ImageStream>, u: Cache, rf: ImageRef, platform: string, ghost rank: Name -> nat)
      returns (r: Option<Covered>)
    requires Acyclic(lib.store, rank)
    ensures var payload := ListedPayload(lib, decode, u, rf, platform, rank);
            && (r.Some? ==> payload.Some?)
            && (payload.Some? ==> (r.Some? <==> forall ref :: ref in payload.value ==> ref in ParsesOf(payload.value)))
            && (r.Some? ==>
                  && Counts(lib.store, u, ParsesOf(payload.value), payload.value, platform, r.value)
                  && r.value.missing == MissingRefs(lib.store, u, ParsesOf(payload.value), payload.value, platform)
                  && r.value.total == r.value.full + |r.value.missing| + r.value.elsewhere
                  && r.value.manifestOnly <= |r.value.missing|)
  {
    var payload, _ := ReadPayload(lib, decode, u, rf, platform, rank);
    if payload.None? {
      return None;
    }
    r := CoverPayload(lib.store, u, payload.value, ParsesOf(payload.value), platform);
  }

  /** The missing images are listed in payload order: each is the payload image at some position, and the
      positions increase. */
  lemma {:induction false} MissingInOrder(s: Store, u: Cache, parses: map<string, ImageRef>, refs: seq<string>, platform: string) returns (at: seq<nat>)
    requires forall r :: r in refs ==> r in parses
    ensures |at| == |MissingRefs(s, u, parses, refs, platform)|
    ensures forall i :: 0 <= i < |at| ==> at[i] < |refs| && refs[at[i]] == MissingRefs(s, u, parses, refs, platform)[i]
    ensures forall i, j :: 0 <= i < j < |at| ==> at[i] < at[j]
  {
    at := [];
    if refs != [] {
      at := MissingInOrder(s, u, parses, refs[..|refs| - 1], platform);
      if Lacking(KindOf(s, u, parses[refs[|refs| - 1]], platform)) {
        at := at + [|refs| - 1];
      }
    }
  }

  lemma {:induction false} MissingMembers(s: Store, u: Cache, parses: map<string, ImageRef>, refs: seq<string>, platform: string)
    requires forall r :: r in refs ==> r in parses
    ensures forall r :: r in MissingRefs(s, u, parses, refs, platform) <==> r in refs && Lacking(KindOf(s, u, parses[r], platform))
  {
    if refs != [] {
      MissingMembers(s, u, parses, refs[..|refs| - 1], platform);
      assert refs == refs[..|refs| - 1] + [refs[|refs| - 1]];
    }
  }

  // ----- the two checks -----------------------------------------------------------------------------

  /** A reference to the cache's registry, which both checks look up in the same place. */
  predicate SamePlace(u: Cache, p: ImageRef, at: Targets, r: string) {
    p.host == u.host && r in at && at[r] == Name(u.index, p.repo, p.ref)
  }

  /** Both checks parse a reference alike, so a reference to the registry of a registry cache is looked up
      in the same place by both. */
  lemma ReferencesPlacedAlike(refs: seq<string>, u: Cache, r: string)
    requires r in refs && r in ParsesOf(refs) && ParsesOf(refs)[r].host == u.host
    requires UpstreamIndex(u.host) == Some(u.index) && !UPSTREAMS[u.index].blobcache
    ensures SamePlace(u, ParsesOf(refs)[r], TargetsOf(refs), r)
  {
  }

  /** Over the same store the two checks judge a digest-pinned image alike; a tag the coverage always counts
      as missing, wherever it points. */
  lemma KindsAgree(d: Disk, u: Cache, p: ImageRef, at: Targets, r: string, platform: string)
    requires SamePlace(u, p, at, r) && u.index in d.readable
    ensures DigestPinned(p.ref) ==> (Judge(d, at, r, platform).Absent? <==> Lacking(KindOf(d.store, u, p, platform)))
    ensures !DigestPinned(p.ref) && (forall n :: n in d.store.manifests ==> DigestPinned(n.digest)) ==>
              Lacking(KindOf(d.store, u, p, platform))
  {
  }

  /** So the two lists are the same exactly when no reference is a tag that points at a complete image. */
  lemma ChecksAgree(d: Disk, u: Cache, parses: map<string, ImageRef>, at: Targets, refs: seq<string>, platform: string)
    requires forall r :: r in refs ==> r in parses && SamePlace(u, parses[r], at, r)
    requires u.index in d.readable && forall n :: n in d.store.manifests ==> DigestPinned(n.digest)
    ensures MissingRefs(d.store, u, parses, refs, platform) == AbsentRefs(d, at, refs, platform)
            <==> forall r :: r in refs && !DigestPinned(parses[r].ref) ==> Judge(d, at, r, platform).Absent?
  {
    forall r | r in refs
      ensures DigestPinned(parses[r].ref) ==> (Judge(d, at, r, platform).Absent? <==> Lacking(KindOf(d.store, u, parses[r], platform)))
      ensures !DigestPinned(parses[r].ref) ==> Lacking(KindOf(d.store, u, parses[r], platform))
    {
      KindsAgree(d, u, parses[r], at, r, platform);
    }
    MissingMembers(d.store, u, parses, refs, platform);
    AbsentRefsMembers(d, at, refs, platform);
    if forall r :: r in refs && !DigestPinned(parses[r].ref) ==> Judge(d, at, r, platform).Absent? {
      SameFilter(d, u, parses, at, refs, platform);
    }
  }

  lemma {:induction false} SameFilter(d: Disk, u: Cache, parses: map<string, ImageRef>, at: Targets, refs: seq<string>, platform: string)
    requires forall r :: r in refs ==> r in parses && (Judge(d, at, r, platform).Absent? <==> Lacking(KindOf(d.store, u, parses[r], platform)))
    ensures MissingRefs(d.store, u, parses, refs, platform) == AbsentRefs(d, at, refs, platform)
  {
    if refs != [] {
      SameFilter(d, u, parses, at, refs[..|refs| - 1], platform);
    }
  }
}
