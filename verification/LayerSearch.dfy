/** Finding a file in an image, once through the cache (release.go: platformManifest, findFileInLayers) and
    once on disk only (coverage.go: localPlatformManifest, localFileInLayers). */
module LayerSearch {
  import opened Text
  import opened Platforms
  import opened Manifests

  const DEFAULT_PLATFORM := "linux/amd64"

  // ----- one layer ----------------------------------------------------------------------------------

  /** A tar entry; whole says whether its content can be read to the end. */
  datatype TarEntry = TarEntry(name: string, regular: bool, content: string, whole: bool)

  /** A layer blob: whether it starts like gzip and, if so, whether the gzip header is sound; the entries a
      tar reader gets from it, and whether it then meets an error rather than the end. */
  datatype Blob = Blob(gzipped: bool, header: bool, entries: seq<TarEntry>, broken: bool)

  datatype Look = Broken | NotHere | Found(content: string)

  predicate IsFile(e: TarEntry, path: string) {
    TrimPrefix(e.name, "./") == path && e.regular
  }

  function FirstFile(entries: seq<TarEntry>, path: string): Option<TarEntry> {
    if entries == [] then None
    else if IsFile(entries[0], path) then Some(entries[0])
    else FirstFile(entries[1..], path)
  }

  /** A gzip layer that breaks off is an error; anything else unreadable just does not contain the file. */
  function LookIn(b: Blob, path: string): Look {
    if b.gzipped && !b.header then Broken
    else match FirstFile(b.entries, path)
      case Some(e) => if e.whole then Found(e.content) else Broken
      case None => if b.broken && b.gzipped then Broken else NotHere
  }

  /** Entry k of the layer is the first regular one that bears the path, with or without "./" before it. */
  ghost predicate FirstBearing(b: Blob, path: string, k: nat) {
    k < |b.entries| && Bears(b.entries[k], path) && forall j :: 0 <= j < k ==> !Bears(b.entries[j], path)
  }

  predicate Bears(e: TarEntry, path: string) {
    e.regular && (e.name == "./" + path || (e.name == path && !("./" <= path)))
  }

  /** The layer can be opened, and its first entry for the path can be read to the end and has this content. */
  ghost predicate HasFile(b: Blob, path: string, content: string) {
    (b.gzipped ==> b.header) && exists k: nat :: FirstBearing(b, path, k) && b.entries[k].whole && b.entries[k].content == content
  }

  /** With whatever content. */
  ghost predicate HasWholeFile(b: Blob, path: string) {
    (b.gzipped ==> b.header) && exists k: nat :: FirstBearing(b, path, k) && b.entries[k].whole
  }

  /** No entry is for the path, and the layer is read through: it is not gzip, or gzip that is sound. */
  predicate WithoutFile(b: Blob, path: string) {
    (forall k :: 0 <= k < |b.entries| ==> !Bears(b.entries[k], path)) && (b.gzipped ==> b.header && !b.broken)
  }

  lemma {:induction false} FirstFileIff(entries: seq<TarEntry>, path: string) returns (k: nat)
    ensures FirstFile(entries, path).None? <==> forall j :: 0 <= j < |entries| ==> !Bears(entries[j], path)
    ensures FirstFile(entries, path).Some? ==>
              && k < |entries| && FirstFile(entries, path) == Some(entries[k]) && Bears(entries[k], path)
              && forall j :: 0 <= j < k ==> !Bears(entries[j], path)
  {
    k := 0;
    if entries != [] {
      BearsIff(entries[0], path);
      if !IsFile(entries[0], path) {
        k := FirstFileIff(entries[1..], path);
        k := k + 1;
      }
    }
  }

  lemma BearsIff(e: TarEntry, path: string)
    ensures Bears(e, path) <==> IsFile(e, path)
  {
    if "./" <= e.name {
      assert e.name == "./" + e.name[2..];
    }
  }

  /** What looking in a layer gives, told by its entries. */
  lemma LookInIff(b: Blob, path: string)
    ensures forall content :: LookIn(b, path) == Found(content) <==> HasFile(b, path, content)
    ensures LookIn(b, path).Found? <==> HasWholeFile(b, path)
    ensures LookIn(b, path) == NotHere <==> WithoutFile(b, path)
  {
    var k := FirstFileIff(b.entries, path);
    if FirstFile(b.entries, path).Some? {
      assert FirstBearing(b, path, k);
      assert forall j: nat :: FirstBearing(b, path, j) ==> j == k;
    }
  }

  /** fileInLayer finds the file iff the layer has it, misses it iff the layer was read through without it, and
      reports an error in all other cases. */
  method FileInLayer(b: Blob, path: string) returns (r: Look)
    ensures r.Found? <==> HasWholeFile(b, path)
    ensures r.Found? ==> HasFile(b, path, r.content)
    ensures r.NotHere? <==> WithoutFile(b, path)
    ensures r == LookIn(b, path)
  {
    LookInIff(b, path);
    if b.gzipped && !b.header {
      return Broken;
    }
    for i := 0 to |b.entries|
      invariant FirstFile(b.entries, path) == FirstFile(b.entries[i..], path)
    {
      var h := b.entries[i];
      if TrimPrefix(h.name, "./") == path && h.regular {
        return if h.whole then Found(h.content) else Broken;
      }
      assert b.entries[i..][1..] == b.entries[i + 1..];
    }
    return if b.broken && b.gzipped then Broken else NotHere;
  }

  // ----- through the cache --------------------------------------------------------------------------

  /** What requesting a blob gives: an error, or its content, and whether it can be drained to the end. */
  datatype Stream = Unavailable | Opened(blob: Blob, drained: bool)

  /** The requests a cache answers; a manifest or blob left out is answered with an error. */
  datatype Served = Served(manifests: map<Name, Document>, blobs: map<Name, Stream>)

  function Wanted(platform: string): string {
    if platform == "" then DEFAULT_PLATFORM else platform
  }

  function FirstChild(entries: seq<Entry>, want: string): (r: Option<Entry>)
    ensures r.Some? ==> r.value in entries && PlatformMatches(want, r.value.plat)
  {
    if entries == [] then None
    else if entries[0].plat != "attestation" && PlatformMatches(want, entries[0].plat) then Some(entries[0])
    else FirstChild(entries[1..], want)
  }

  /** The child is asked for, and is no attestation. */
  predicate Eligible(e: Entry, want: string) {
    e.plat != "attestation" && PlatformMatches(want, e.plat)
  }

  ghost predicate FirstEligible(entries: seq<Entry>, want: string, k: nat) {
    k < |entries| && Eligible(entries[k], want) && forall j :: 0 <= j < k ==> !Eligible(entries[j], want)
  }

  lemma {:induction false} FirstChildIff(entries: seq<Entry>, want: string) returns (k: nat)
    ensures FirstChild(entries, want).None? <==> forall e :: e in entries ==> !Eligible(e, want)
    ensures FirstChild(entries, want).Some? ==> FirstEligible(entries, want, k) && FirstChild(entries, want) == Some(entries[k])
  {
    k := 0;
    if entries != [] && !Eligible(entries[0], want) {
      k := FirstChildIff(entries[1..], want);
      k := k + 1;
      assert forall e :: e in entries <==> e == entries[0] || e in entries[1..];
    }
  }

  /** The first child asked for that is no attestation, and none iff there is no such child. */
  method SelectChild(entries: seq<Entry>, want: string) returns (r: Option<Entry>)
    ensures r.None? <==> forall e :: e in entries ==> !Eligible(e, want)
    ensures r.Some? ==> exists k: nat :: FirstEligible(entries, want, k) && r.value == entries[k]
    ensures r == FirstChild(entries, want)
  {
    ghost var _ := FirstChildIff(entries, want);
    for i := 0 to |entries|
      invariant FirstChild(entries, want) == FirstChild(entries[i..], want)
    {
      if entries[i].plat != "attestation" && PlatformMatches(want, entries[i].plat) {
        return Some(entries[i]);
      }
      assert entries[i..][1..] == entries[i + 1..];
    }
    return None;
  }

  /** platformManifest: the document itself, or the first wanted child of its index. */
  function PlatformManifest(net: Served, top: Name, platform: string): Option<Document> {
    if top !in net.manifests then None
    else
      var doc := net.manifests[top];
      if !doc.index then Some(doc)
      else if doc.children.None? then None
      else match FirstChild(Entries(doc.children.value), Wanted(platform))
        case None => None
        case Some(e) =>
          var child := Name(top.cache, top.repo, e.digest);
          if child in net.manifests then Some(net.manifests[child]) else None
  }

  /** Of an index it is the first eligible child, for linux/amd64 where no platform is asked for. */
  lemma PlatformManifestIff(net: Served, top: Name, platform: string, want: string, entries: seq<Entry>) returns (k: nat)
    requires top in net.manifests && net.manifests[top].index && net.manifests[top].children.Some?
    requires entries == Entries(net.manifests[top].children.value) && want == if platform == "" then "linux/amd64" else platform
    ensures var r := PlatformManifest(net, top, platform);
            && (r.Some? ==> FirstEligible(entries, want, k) && ServedUnder(net, top, entries[k].digest, r.value))
            && (r.None? ==>
                  || (forall e :: e in entries ==> !Eligible(e, want))
                  || (FirstEligible(entries, want, k) && Name(top.cache, top.repo, entries[k].digest) !in net.manifests))
  {
    k := FirstChildIff(entries, want);
  }

  predicate ServedUnder(net: Served, top: Name, digest: string, doc: Document) {
    var child := Name(top.cache, top.repo, digest);
    child in net.manifests && net.manifests[child] == doc
  }

  /** An index of which no platform is asked for yields its first linux/amd64 child, as the children's parts
      say, if that is served; one that names no operating system may be taken for such a child. */
  lemma DefaultChild(net: Served, top: Name) returns (k: nat)
    requires top in net.manifests && net.manifests[top].index && net.manifests[top].children.Some?
    requires SlashFree(net.manifests[top].children.value)
    ensures var children, r := net.manifests[top].children.value, PlatformManifest(net, top, "");
            && (r.Some? ==> FirstAmd64(children, k) && ServedUnder(net, top, children[k].digest, r.value))
            && (r.None? ==>
                  || (forall c :: c in children ==> !IsAmd64(c))
                  || (FirstAmd64(children, k) && Name(top.cache, top.repo, children[k].digest) !in net.manifests))
  {
    k := FirstAmd64Child(net.manifests[top].children.value);
    assert Wanted("") == "linux/amd64";
  }

  predicate IsAmd64(c: Descriptor) {
    (c.os == "linux" && c.arch == "amd64") || (c.os == "" && c.arch == "linux" && c.variant == "amd64")
  }

  ghost predicate FirstAmd64(children: seq<Descriptor>, k: nat) {
    k < |children| && IsAmd64(children[k]) && forall j :: 0 <= j < k ==> !IsAmd64(children[j])
  }

  lemma FirstAmd64Child(children: seq<Descriptor>) returns (k: nat)
    requires SlashFree(children)
    ensures var first := FirstChild(Entries(children), "linux/amd64");
            if first.None? then forall c :: c in children ==> !IsAmd64(c)
            else FirstAmd64(children, k) && first.value.digest == children[k].digest
  {
    forall c | c in children
      ensures TellsAmd64(c, "linux/amd64")
    {
      Amd64Entry(c);
    }
    k := FirstTold(children, "linux/amd64");
  }

  predicate TellsAmd64(c: Descriptor, want: string) {
    Eligible(Entry(c.digest, PlatformString(c.os, c.arch, c.variant)), want) <==> IsAmd64(c)
  }

  lemma {:induction false} FirstTold(children: seq<Descriptor>, want: string) returns (k: nat)
    requires forall c :: c in children ==> TellsAmd64(c, want)
    ensures var first := FirstChild(Entries(children), want);
            if first.None? then forall c :: c in children ==> !IsAmd64(c)
            else FirstAmd64(children, k) && first.value.digest == children[k].digest
  {
    k := 0;
    if children != [] {
      assert TellsAmd64(children[0], want);
      if !IsAmd64(children[0]) {
        k := FirstTold(children[1..], want);
        k := k + 1;
        assert forall c :: c in children <==> c == children[0] || c in children[1..];
      }
    }
  }

  lemma Amd64Entry(c: Descriptor)
    requires '/' !in c.os && '/' !in c.arch && '/' !in c.variant
    ensures Eligible(Entry(c.digest, PlatformString(c.os, c.arch, c.variant)), "linux/amd64") <==> IsAmd64(c)
  {
    var os, arch := "linux", "amd64";
    assert Component(os) && Component(arch) && os != "unknown";
    EligibleIff(os, arch, c);
    assert os + "/" + arch == "linux/amd64";
  }

  lemma EligibleIff(os: string, arch: string, c: Descriptor)
    requires '/' !in c.os && '/' !in c.arch && '/' !in c.variant
    requires Component(os) && Component(arch) && os != "unknown"
    ensures Eligible(Entry(c.digest, PlatformString(c.os, c.arch, c.variant)), os + "/" + arch) <==>
            (c.os == os && c.arch == arch) || (c.os == "" && c.arch == os && c.variant == arch)
  {
    MatchesAnyVariant(os, arch, c.os, c.arch, c.variant);
    assert '/' !in "attestation" && (os + "/" + arch)[|os|] == '/';
    NoSlashNoMatch(os + "/" + arch, "attestation");
  }

  /** The layers findFileInLayers reads to the end without error, top layer first, until it stops. */
  function Scanned(net: Served, cache: nat, repo: string, layers: seq<string>, path: string): set<Name> {
    if layers == [] then {}
    else
      var n := Name(cache, repo, layers[|layers| - 1]);
      if n !in net.blobs || net.blobs[n].Unavailable? || LookIn(net.blobs[n].blob, path).Broken? || !net.blobs[n].drained then {}
      else if LookIn(net.blobs[n].blob, path).Found? then {n}
      else {n} + Scanned(net, cache, repo, layers[..|layers| - 1], path)
  }

  function SearchLayers(net: Served, cache: nat, repo: string, layers: seq<string>, path: string): Option<string> {
    if layers == [] then None
    else
      var n := Name(cache, repo, layers[|layers| - 1]);
      if n !in net.blobs || net.blobs[n].Unavailable? || !net.blobs[n].drained then None
      else match LookIn(net.blobs[n].blob, path)
        case Broken => None
        case Found(content) => Some(content)
        case NotHere => SearchLayers(net, cache, repo, layers[..|layers| - 1], path)
  }

  function NamesIn(cache: nat, repo: string, digests: seq<string>): set<Name> {
    set d | d in digests :: Name(cache, repo, d)
  }

  lemma NamesInMore(cache: nat, repo: string, digests: seq<string>, k: nat)
    requires k < |digests|
    ensures NamesIn(cache, repo, digests[..k + 1]) == NamesIn(cache, repo, digests[..k]) + {Name(cache, repo, digests[k])}
    ensures digests[k] in digests
  {
    assert digests[..k + 1] == digests[..k] + [digests[k]];
  }

  /** The client reading the release image: it shares the claim map with the pool that follows. fetched is
      what it has read to the end. */
  class PullClient {
    const cache: nat
    const repo: string
    var seen: set<Name>
    ghost var fetched: set<Name>

    constructor (cache: nat, repo: string)
      ensures this.cache == cache && this.repo == repo && seen == {} && fetched == {}
    {
      this.cache, this.repo, seen, fetched := cache, repo, {}, {};
    }

    /** Looks for path in one blob, drains it and marks it seen. */
    method FileInBlob(net: Served, digest: string, path: string) returns (r: Look)
      modifies this
      ensures var n := Name(cache, repo, digest);
              if n in net.blobs && net.blobs[n].Opened? && net.blobs[n].drained && !LookIn(net.blobs[n].blob, path).Broken?
              then r == LookIn(net.blobs[n].blob, path) && seen == old(seen) + {n} && fetched == old(fetched) + {n}
              else r == Broken && seen == old(seen) && fetched == old(fetched)
    {
      var n := Name(cache, repo, digest);
      if n !in net.blobs || net.blobs[n].Unavailable? {
        return Broken;
      }
      r := FileInLayer(net.blobs[n].blob, path);
      if r.Broken? || !net.blobs[n].drained {
        return Broken;
      }
      fetched := fetched + {n};
      seen := seen + {n};
    }

    /** findFileInLayers: None for any error, the file not being found among them. */
    method FindFileInLayers(net: Served, doc: Document, path: string) returns (r: Option<string>)
      modifies this
      ensures doc.manifest.None? ==> r.None? && seen == old(seen) && fetched == old(fetched)
      ensures doc.manifest.Some? ==>
                && r == SearchLayers(net, cache, repo, doc.manifest.value.layers, path)
                && seen == old(seen) + Scanned(net, cache, repo, doc.manifest.value.layers, path)
                && fetched == old(fetched) + Scanned(net, cache, repo, doc.manifest.value.layers, path)
    {
      if doc.manifest.None? {
        return None;
      }
      var layers := doc.manifest.value.layers;
      var i := |layers|;
      assert layers[..i] == layers;
      while i > 0
        invariant 0 <= i <= |layers|
        invariant SearchLayers(net, cache, repo, layers, path) == SearchLayers(net, cache, repo, layers[..i], path)
        invariant old(seen) + Scanned(net, cache, repo, layers, path) == seen + Scanned(net, cache, repo, layers[..i], path)
        invariant old(fetched) + Scanned(net, cache, repo, layers, path) == fetched + Scanned(net, cache, repo, layers[..i], path)
      {
        i := i - 1;
        assert layers[..i + 1][..i] == layers[..i];
        var look := FileInBlob(net, layers[i], path);
        if look.Broken? {
          return None;
        }
        if look.Found? {
          return Some(look.content);
        }
      }
      return None;
    }

    /** warmManifestBlobs, alone at work; readable says which blobs can be read to the end. It claims and fetches
        what is not claimed yet; the claim of a blob whose fetch fails is dropped, and it stops there. */
    method WarmManifestBlobs(doc: Document, readable: string -> bool) returns (ok: bool)
      modifies this
      ensures doc.manifest.None? ==> !ok && seen == old(seen) && fetched == old(fetched)
      ensures doc.manifest.Some? ==>
                var digests := BlobsToWarm(doc.manifest.value);
                && (ok <==> forall d :: d in digests ==> Name(cache, repo, d) in old(seen) || readable(d))
                && (ok ==> seen == old(seen) + NamesIn(cache, repo, digests))
      ensures old(seen) <= seen && fetched == old(fetched) + (seen - old(seen))
      ensures forall n :: n in seen && n !in old(seen) ==> readable(n.digest)
    {
      if doc.manifest.None? {
        return false;
      }
      var digests := BlobsListed(doc.manifest.value);
      ok := WarmBlobs(digests, readable);
    }

    /** Its loop. */
    method WarmBlobs(digests: seq<string>, readable: string -> bool) returns (ok: bool)
      modifies this
      ensures ok <==> forall d :: d in digests ==> Name(cache, repo, d) in old(seen) || readable(d)
      ensures ok ==> seen == old(seen) + NamesIn(cache, repo, digests)
      ensures old(seen) <= seen && fetched == old(fetched) + (seen - old(seen))
      ensures forall n :: n in seen && n !in old(seen) ==> readable(n.digest)
    {
      for k := 0 to |digests|
        invariant fetched == old(fetched) + (seen - old(seen))
        invariant seen == old(seen) + NamesIn(cache, repo, digests[..k])
        invariant forall j :: 0 <= j < k ==> Name(cache, repo, digests[j]) in old(seen) || readable(digests[j])
      {
        var key := Name(cache, repo, digests[k]);
        NamesInMore(cache, repo, digests, k);
        if key in seen {
          continue;
        }
        seen := seen + {key};
        if !readable(digests[k]) {
          seen := seen - {key};
          return false;
        }
        fetched := fetched + {key};
      }
      assert digests[..|digests|] == digests;
      return true;
    }
  }

  // ----- on disk only -------------------------------------------------------------------------------

  /** What the local reader can open: the store, and the content of its blobs. */
  datatype Library = Library(store: Store, blobs: map<Name, Blob>)

  /** A local answer, with the manifests and blobs read for it. */
  datatype Answer<T> = Answer(result: Option<T>, touched: seq<Name>)

  /** No index leads back to itself: its children rank below it. */
  ghost predicate Acyclic(s: Store, rank: Name -> nat) {
    forall n, e :: n in s.docs && s.docs[n].index && s.docs[n].children.Some? && e in Entries(s.docs[n].children.value) ==>
      rank(Name(n.cache, n.repo, e.digest)) < rank(n)
  }

  /** localPlatformManifest; a child is resolved again, for the default platform. It reads only manifests the
      store has confirmed, and never ends in an index. */
  function LocalPlatformManifest(s: Store, top: Name, platform: string, ghost rank: Name -> nat): (a: Answer<Document>)
    requires Acyclic(s, rank)
    ensures forall n :: n in a.touched ==> n in s.manifests
    ensures a.result.Some? ==> !a.result.value.index && a.result.value in s.docs.Values
    decreases rank(top)
  {
    if top !in s.manifests then Answer(None, [])
    else if top !in s.docs then Answer(None, [top])
    else
      var doc := s.docs[top];
      if !doc.index then Answer(Some(doc), [top])
      else if doc.children.None? then Answer(None, [top])
      else match FirstChild(Entries(doc.children.value), Wanted(platform))
        case None => Answer(None, [top])
        case Some(e) =>
          var below := LocalPlatformManifest(s, Name(top.cache, top.repo, e.digest), "", rank);
          Answer(below.result, [top] + below.touched)
  }

  function LocalSearch(lib: Library, cache: nat, repo: string, layers: seq<string>, path: string): (a: Answer<string>)
    ensures forall n :: n in a.touched ==> n in lib.store.blobs
  {
    if layers == [] then Answer(None, [])
    else
      var n := Name(cache, repo, layers[|layers| - 1]);
      if n !in lib.store.blobs then Answer(None, [])
      else if n !in lib.blobs then Answer(None, [n])
      else match LookIn(lib.blobs[n], path)
        case Broken => Answer(None, [n])
        case Found(content) => Answer(Some(content), [n])
        case NotHere =>
          var below := LocalSearch(lib, cache, repo, layers[..|layers| - 1], path);
          Answer(below.result, [n] + below.touched)
  }

  method LocalFileInLayers(lib: Library, cache: nat, repo: string, doc: Document, path: string) returns (a: Answer<string>)
    ensures a == if doc.manifest.None? then Answer(None, []) else LocalSearch(lib, cache, repo, doc.manifest.value.layers, path)
  {
    if doc.manifest.None? {
      return Answer(None, []);
    }
    a := LocalFileIn(lib, cache, repo, doc.manifest.value.layers, path);
  }

  /** The loop of localFileInLayers, from the top layer down. */
  method LocalFileIn(lib: Library, cache: nat, repo: string, layers: seq<string>, path: string) returns (a: Answer<string>)
    ensures a == LocalSearch(lib, cache, repo, layers, path)
  {
    var touched: seq<Name> := [];
    var i := |layers|;
    assert layers[..i] == layers;
    ghost var all := LocalSearch(lib, cache, repo, layers, path);
    while i > 0
      invariant 0 <= i <= |layers|
      invariant all == Below(touched, LocalSearch(lib, cache, repo, layers[..i], path))
    {
      ghost var here := LocalSearch(lib, cache, repo, layers[..i], path);
      i := i - 1;
      assert layers[..i + 1][..i] == layers[..i];
      var n := Name(cache, repo, layers[i]);
      if n !in lib.store.blobs {
        return Answer(None, touched);
      }
      if n !in lib.blobs {
        return Answer(None, touched + [n]);
      }
      var look := FileInLayer(lib.blobs[n], path);
      if look.Broken? {
        return Answer(None, touched + [n]);
      }
      if look.Found? {
        return Answer(Some(look.content), touched + [n]);
      }
      assert here == Below([n], LocalSearch(lib, cache, repo, layers[..i], path));
      BelowBelow(touched, n, LocalSearch(lib, cache, repo, layers[..i], path));
      touched := touched + [n];
    }
    return Answer(None, touched);
  }

  /** An answer that comes after reading some blobs in vain. */
  function Below(touched: seq<Name>, a: Answer<string>): Answer<string> {
    Answer(a.result, touched + a.touched)
  }

  lemma BelowBelow(touched: seq<Name>, n: Name, a: Answer<string>)
    ensures Below(touched, Below([n], a)) == Below(touched + [n], a)
  {
    assert touched + ([n] + a.touched) == touched + [n] + a.touched;
  }

  // ----- agreement ----------------------------------------------------------------------------------

  /** The manifest the remote resolver would stop at below an index. */
  function Selected(doc: Document, top: Name, platform: string): Option<Name> {
    if !doc.index || doc.children.None? then None
    else match FirstChild(Entries(doc.children.value), Wanted(platform))
      case None => None
      case Some(e) => Some(Name(top.cache, top.repo, e.digest))
  }

  predicate HeldManifest(lib: Library, net: Served, n: Name) {
    Readable(lib.store, n) && n in net.manifests && net.manifests[n] == lib.store.docs[n]
  }

  predicate HeldLayers(lib: Library, net: Served, cache: nat, repo: string, layers: seq<string>) {
    forall d :: d in layers ==>
      var n := Name(cache, repo, d);
      n in lib.store.blobs && n in lib.blobs && n in net.blobs && net.blobs[n] == Opened(lib.blobs[n], true)
  }

  /** Where the store holds the manifests both look at, the two resolvers agree exactly when the child they
      select is not itself an index: the remote one returns such a child as it is, the local one resolves it
      further. */
  lemma ResolversAgree(lib: Library, net: Served, top: Name, platform: string, rank: Name -> nat)
    requires Acyclic(lib.store, rank) && HeldManifest(lib, net, top)
    requires var child := Selected(lib.store.docs[top], top, platform); child.Some? ==> HeldManifest(lib, net, child.value)
    ensures var child := Selected(lib.store.docs[top], top, platform);
            LocalPlatformManifest(lib.store, top, platform, rank).result == PlatformManifest(net, top, platform)
            <==> (child.Some? ==> !lib.store.docs[child.value].index)
  {
  }

  lemma {:induction false} SearchesAgree(lib: Library, net: Served, cache: nat, repo: string, layers: seq<string>, path: string)
    requires HeldLayers(lib, net, cache, repo, layers)
    ensures LocalSearch(lib, cache, repo, layers, path).result == SearchLayers(net, cache, repo, layers, path)
  {
    if layers != [] {
      SearchesAgree(lib, net, cache, repo, layers[..|layers| - 1], path);
    }
  }

  /** The file's content as read through the cache, and as read on disk. */
  function RemoteFile(net: Served, top: Name, platform: string, path: string): Option<string> {
    match PlatformManifest(net, top, platform)
    case Some(doc) => if doc.manifest.Some? then SearchLayers(net, top.cache, top.repo, doc.manifest.value.layers, path) else None
    case None => None
  }

  function LocalFile(lib: Library, top: Name, platform: string, path: string, ghost rank: Name -> nat): Option<string>
    requires Acyclic(lib.store, rank)
  {
    match LocalPlatformManifest(lib.store, top, platform, rank).result
    case Some(doc) => if doc.manifest.Some? then LocalSearch(lib, top.cache, top.repo, doc.manifest.value.layers, path).result else None
    case None => None
  }

  /** Reading on disk refines reading through the cache: on a store that holds what both touch, and where
      the selected child is no index, the same file is found, or none by either. */
  lemma LocalRefinesRemote(lib: Library, net: Served, top: Name, platform: string, path: string, rank: Name -> nat)
    requires Acyclic(lib.store, rank) && HeldManifest(lib, net, top)
    requires var child := Selected(lib.store.docs[top], top, platform);
             child.Some? ==> HeldManifest(lib, net, child.value) && !lib.store.docs[child.value].index
    requires forall doc :: PlatformManifest(net, top, platform) == Some(doc) && doc.manifest.Some? ==>
               HeldLayers(lib, net, top.cache, top.repo, doc.manifest.value.layers)
    ensures LocalFile(lib, top, platform, path, rank) == RemoteFile(net, top, platform, path)
  {
    ResolversAgree(lib, net, top, platform, rank);
    var doc := PlatformManifest(net, top, platform);
    if doc.Some? && doc.value.manifest.Some? {
      SearchesAgree(lib, net, top.cache, top.repo, doc.value.manifest.value.layers, path);
    }
  }

  /** The layer is stored and can be opened. */
  predicate Opens(lib: Library, n: Name) {
    n in lib.store.blobs && n in lib.blobs
  }

  ghost predicate TopmostStored(lib: Library, cache: nat, repo: string, layers: seq<string>, path: string, k: nat, content: string) {
    && k < |layers| && Opens(lib, Name(cache, repo, layers[k])) && HasFile(lib.blobs[Name(cache, repo, layers[k])], path, content)
    && forall j :: k < j < |layers| ==>
         Opens(lib, Name(cache, repo, layers[j])) && WithoutFile(lib.blobs[Name(cache, repo, layers[j])], path)
  }

  /** On disk too what is found is the file of the topmost layer that has it, every layer above being stored,
      readable and without it: no layer that is missing is passed over. */
  lemma {:induction false} TopmostStoredWins(lib: Library, cache: nat, repo: string, layers: seq<string>, path: string, content: string)
    ensures LocalSearch(lib, cache, repo, layers, path).result == Some(content)
            <==> exists k :: TopmostStored(lib, cache, repo, layers, path, k, content)
  {
    if layers != [] {
      var below, last := layers[..|layers| - 1], |layers| - 1;
      var n := Name(cache, repo, layers[last]);
      TopmostStoredWins(lib, cache, repo, below, path, content);
      if Opens(lib, n) {
        LookInIff(lib.blobs[n], path);
      }
      if Opens(lib, n) && WithoutFile(lib.blobs[n], path) {
        forall k: nat
          ensures TopmostStored(lib, cache, repo, layers, path, k, content) <==> TopmostStored(lib, cache, repo, below, path, k, content)
        {
        }
      } else {
        assert forall k: nat :: TopmostStored(lib, cache, repo, layers, path, k, content) ==> k == last;
        if Opens(lib, n) && HasFile(lib.blobs[n], path, content) {
          assert TopmostStored(lib, cache, repo, layers, path, last, content);
        }
      }
    }
  }

  /** The layer can be read to its end. */
  predicate Drains(net: Served, n: Name) {
    n in net.blobs && net.blobs[n].Opened? && net.blobs[n].drained
  }

  /** Layer k can be read to its end and has the file, and each layer above it can be and is without. */
  ghost predicate Topmost(net: Served, cache: nat, repo: string, layers: seq<string>, path: string, k: nat, content: string) {
    && k < |layers| && Drains(net, Name(cache, repo, layers[k])) && HasFile(net.blobs[Name(cache, repo, layers[k])].blob, path, content)
    && forall j :: k < j < |layers| ==>
         Drains(net, Name(cache, repo, layers[j])) && WithoutFile(net.blobs[Name(cache, repo, layers[j])].blob, path)
  }

  /** What is found is the file of the topmost layer that has it, every layer above being readable and
      without it. */
  lemma {:induction false} TopmostLayerWins(net: Served, cache: nat, repo: string, layers: seq<string>, path: string, content: string)
    ensures SearchLayers(net, cache, repo, layers, path) == Some(content)
            <==> exists k :: Topmost(net, cache, repo, layers, path, k, content)
  {
    if layers != [] {
      var below, last := layers[..|layers| - 1], |layers| - 1;
      var n := Name(cache, repo, layers[last]);
      TopmostLayerWins(net, cache, repo, below, path, content);
      if Drains(net, n) {
        LookInIff(net.blobs[n].blob, path);
      }
      if Drains(net, n) && WithoutFile(net.blobs[n].blob, path) {
        forall k: nat
          ensures Topmost(net, cache, repo, layers, path, k, content) <==> Topmost(net, cache, repo, below, path, k, content)
        {
        }
      } else {
        assert forall k: nat :: Topmost(net, cache, repo, layers, path, k, content) ==> k == last;
        if Drains(net, n) && HasFile(net.blobs[n].blob, path, content) {
          assert Topmost(net, cache, repo, layers, path, last, content);
        }
      }
    }
  }

  /** The search reads layer j: it can be read to its end, with or without the file, and so can each layer
      above it, without the file. */
  ghost predicate Reads(net: Served, cache: nat, repo: string, layers: seq<string>, path: string, j: nat) {
    && j < |layers| && Drains(net, Name(cache, repo, layers[j]))
    && (HasWholeFile(net.blobs[Name(cache, repo, layers[j])].blob, path) || WithoutFile(net.blobs[Name(cache, repo, layers[j])].blob, path))
    && forall i :: j < i < |layers| ==> ReadsThrough(net, Name(cache, repo, layers[i]), path)
  }

  predicate ReadsThrough(net: Served, n: Name, path: string) {
    Drains(net, n) && WithoutFile(net.blobs[n].blob, path)
  }

  /** Exactly these layers are marked seen, whether or not the file is found. */
  lemma {:induction false} ScannedIff(net: Served, cache: nat, repo: string, layers: seq<string>, path: string, n: Name)
    ensures n in Scanned(net, cache, repo, layers, path) <==>
            exists j: nat :: Reads(net, cache, repo, layers, path, j) && n == Name(cache, repo, layers[j])
  {
    if layers != [] {
      var below, last := layers[..|layers| - 1], |layers| - 1;
      var top := Name(cache, repo, layers[last]);
      ScannedIff(net, cache, repo, below, path, n);
      if Drains(net, top) {
        LookInIff(net.blobs[top].blob, path);
      }
      forall j: nat | j < last
        ensures Reads(net, cache, repo, layers, path, j) <==> ReadsThrough(net, top, path) && Reads(net, cache, repo, below, path, j)
      {
        ReadsBelow(net, cache, repo, layers, path, j);
      }
      if n in Scanned(net, cache, repo, layers, path) {
        if n == top {
          assert Reads(net, cache, repo, layers, path, last);
        } else {
          var j: nat :| Reads(net, cache, repo, below, path, j) && n == Name(cache, repo, below[j]);
          assert Reads(net, cache, repo, layers, path, j);
        }
      }
      if j: nat :| Reads(net, cache, repo, layers, path, j) && n == Name(cache, repo, layers[j]) {
        assert j < last ==> Reads(net, cache, repo, below, path, j);
      }
    }
  }

  lemma ReadsBelow(net: Served, cache: nat, repo: string, layers: seq<string>, path: string, j: nat)
    requires j < |layers| - 1
    ensures Reads(net, cache, repo, layers, path, j) <==>
            && ReadsThrough(net, Name(cache, repo, layers[|layers| - 1]), path)
            && Reads(net, cache, repo, layers[..|layers| - 1], path, j)
  {
    var below, last := layers[..|layers| - 1], |layers| - 1;
    if Reads(net, cache, repo, layers, path, j) {
      assert forall i :: j < i < last ==> below[i] == layers[i] && ReadsThrough(net, Name(cache, repo, layers[i]), path);
      assert ReadsThrough(net, Name(cache, repo, layers[last]), path);
    } else if Reads(net, cache, repo, below, path, j) && ReadsThrough(net, Name(cache, repo, layers[last]), path) {
      assert forall i :: j < i < last ==> ReadsThrough(net, Name(cache, repo, below[i]), path);
      assert false;
    }
  }

  /** And exactly that layer and those above it have then been read to the end and are marked seen. */
  lemma {:induction false} ScannedDownTo(net: Served, cache: nat, repo: string, layers: seq<string>, path: string, k: nat, content: string)
    requires Topmost(net, cache, repo, layers, path, k, content)
    ensures Scanned(net, cache, repo, layers, path) == set d | d in layers[k..] :: Name(cache, repo, d)
  {
    var below, last := layers[..|layers| - 1], |layers| - 1;
    LookInIff(net.blobs[Name(cache, repo, layers[last])].blob, path);
    if k == last {
      assert layers[k..] == [layers[k]];
    } else {
      assert Topmost(net, cache, repo, below, path, k, content);
      ScannedDownTo(net, cache, repo, below, path, k, content);
      assert layers[k..] == below[k..] + [layers[last]];
    }
  }
}
