/** Manifests as the registry serves them, what a warm of an image fetches, what the on-disk check demands
    of a store, and why the two agree (pull.go, coverage.go). */
module Manifests {
  import opened Text
  import opened Ordering
  import opened Platforms

  /** A manifest or blob as one cache knows it: linked into one repository of one registry. */
  datatype Name = Name(cache: nat, repo: string, digest: string)

  /** One element of an index's "manifests". */
  datatype Descriptor = Descriptor(digest: string, os: string, arch: string, variant: string)

  /** indexEntry: a descriptor with its platform made into one string. */
  datatype Entry = Entry(digest: string, plat: string)

  /** The digests of an image manifest; "" where one is absent. */
  datatype Manifest = Manifest(config: string, layers: seq<string>)

  /** A manifest body: whether its content type names an index, and what decoding it as an image manifest
      and as an index yields (None where the decoder fails). */
  datatype Document = Document(index: bool, manifest: Option<Manifest>, children: Option<seq<Descriptor>>)

  function Entries(children: seq<Descriptor>): seq<Entry> {
    if children == [] then [] else
      var c := children[0];
      [Entry(c.digest, PlatformString(c.os, c.arch, c.variant))] + Entries(children[1..])
  }

  /** The entry has the child's digest, and is wanted as the child's three parts say: by a platform without
      variant where operating system and architecture are its own (or stand one place further on), by one
      with a variant where all three are its own, and by an empty one in any case. */
  ghost predicate EntryOf(c: Descriptor, e: Entry) {
    && e.digest == c.digest && PlatformMatches("", e.plat)
    && ('/' !in c.os && '/' !in c.arch && '/' !in c.variant ==>
          && (forall os, arch | Component(os) && Component(arch) ::
                PlatformMatches(os + "/" + arch, e.plat) <==>
                || (c.os == os && c.arch == arch && !(os == "unknown" && arch == "unknown" && c.variant == ""))
                || (c.os == "" && c.arch == os && c.variant == arch && !(os == "unknown" && arch == "unknown")))
          && (forall os, arch, variant | Component(os) && Component(arch) && Component(variant) ::
                PlatformMatches(os + "/" + (arch + "/" + variant), e.plat) <==> c.os == os && c.arch == arch && c.variant == variant))
  }

  lemma DescriptorEntry(c: Descriptor)
    ensures EntryOf(c, Entry(c.digest, PlatformString(c.os, c.arch, c.variant)))
  {
    var e := Entry(c.digest, PlatformString(c.os, c.arch, c.variant));
    if '/' !in c.os && '/' !in c.arch && '/' !in c.variant {
      forall os, arch | Component(os) && Component(arch)
        ensures PlatformMatches(os + "/" + arch, e.plat) <==>
                || (c.os == os && c.arch == arch && !(os == "unknown" && arch == "unknown" && c.variant == ""))
                || (c.os == "" && c.arch == os && c.variant == arch && !(os == "unknown" && arch == "unknown"))
      {
        MatchesAnyVariant(os, arch, c.os, c.arch, c.variant);
      }
      forall os, arch, variant | Component(os) && Component(arch) && Component(variant)
        ensures PlatformMatches(os + "/" + (arch + "/" + variant), e.plat) <==> c.os == os && c.arch == arch && c.variant == variant
      {
        MatchesOneVariant(os, arch, variant, c.os, c.arch, c.variant);
      }
    }
  }

  predicate SlashFree(children: seq<Descriptor>) {
    forall i :: 0 <= i < |children| ==> '/' !in children[i].os && '/' !in children[i].arch && '/' !in children[i].variant
  }

  /** One entry for each child, in index order. */
  lemma {:induction false} EachEntry(children: seq<Descriptor>)
    ensures |Entries(children)| == |children|
    ensures forall i :: 0 <= i < |children| ==> EntryOf(children[i], Entries(children)[i])
  {
    if children != [] {
      EachEntry(children[1..]);
      DescriptorEntry(children[0]);
    }
  }

  method ParseIndex(children: seq<Descriptor>) returns (out: seq<Entry>)
    ensures |out| == |children| && forall i :: 0 <= i < |out| ==> EntryOf(children[i], out[i])
    ensures out == Entries(children)
  {
    EachEntry(children);
    out := [];
    for i := 0 to |children|
      invariant out + Entries(children[i..]) == Entries(children)
    {
      var c := children[i];
      assert children[i..][1..] == children[i + 1..];
      out := out + [Entry(c.digest, PlatformString(c.os, c.arch, c.variant))];
    }
  }

  function NonEmpty(digests: seq<string>): seq<string> {
    if digests == [] then []
    else (if digests[0] != "" then [digests[0]] else []) + NonEmpty(digests[1..])
  }

  lemma {:induction false} NonEmptyMembers(digests: seq<string>)
    ensures forall d :: d in NonEmpty(digests) <==> d in digests && d != ""
  {
    if digests != [] {
      NonEmptyMembers(digests[1..]);
      assert forall d :: d in digests <==> d == digests[0] || d in digests[1..];
    }
  }

  /** The blobs warmManifestBlobs walks, in its order: config first, absent digests skipped. */
  function BlobsToWarm(m: Manifest): seq<string> {
    (if m.config != "" then [m.config] else []) + NonEmpty(m.layers)
  }

  lemma {:induction false} NonEmptyChosen(digests: seq<string>)
    ensures NonEmpty(digests) == Chosen(digests, Named(digests))
  {
    if digests != [] {
      NonEmptyChosen(digests[1..]);
      ChosenFromFront(digests, Named(digests));
      assert Named(digests)[1..] == Named(digests[1..]);
    }
  }

  /** Which of the digests are not empty. */
  function Named(digests: seq<string>): seq<bool> {
    seq(|digests|, k requires 0 <= k < |digests| => digests[k] != "")
  }

  lemma BlobsChosen(m: Manifest)
    ensures Selection(BlobsToWarm(m), [m.config] + m.layers, Named([m.config] + m.layers))
  {
    var all := [m.config] + m.layers;
    NonEmptyChosen(all);
    assert all[1..] == m.layers;
    ChosenIsSelection(all, Named(all));
  }

  method ListBlobs(m: Manifest) returns (digs: seq<string>)
    ensures Selection(digs, [m.config] + m.layers, Named([m.config] + m.layers))
    ensures digs == BlobsToWarm(m)
  {
    digs := BlobsListed(m);
    BlobsChosen(m);
  }

  method BlobsListed(m: Manifest) returns (digs: seq<string>)
    ensures digs == BlobsToWarm(m)
  {
    digs := [];
    if m.config != "" {
      digs := digs + [m.config];
    }
    for i := 0 to |m.layers|
      invariant digs + NonEmpty(m.layers[i..]) == BlobsToWarm(m)
    {
      assert m.layers[i..][1..] == m.layers[i + 1..];
      if m.layers[i] != "" {
        digs := digs + [m.layers[i]];
      }
    }
  }

  // ----- what a warm fetches ------------------------------------------------------------------------

  /** The documents of the wanted children, in index order. */
  function ChildDocs(docs: map<Name, Document>, cache: nat, repo: string, entries: seq<Entry>, platform: string): seq<Document>
    requires ChildrenKnown(docs, cache, repo, entries, platform)
  {
    if entries == [] then []
    else
      var rest := ChildDocs(docs, cache, repo, entries[1..], platform);
      if PlatformMatches(platform, entries[0].plat) then [docs[Name(cache, repo, entries[0].digest)]] + rest else rest
  }

  predicate ChildrenKnown(docs: map<Name, Document>, cache: nat, repo: string, entries: seq<Entry>, platform: string) {
    forall e :: e in entries && PlatformMatches(platform, e.plat) ==> Name(cache, repo, e.digest) in docs
  }

  /** docs says what every manifest that warming or checking the image reads contains. */
  predicate Known(docs: map<Name, Document>, top: Name, platform: string) {
    && top in docs
    && (docs[top].index && docs[top].children.Some? ==>
          ChildrenKnown(docs, top.cache, top.repo, Entries(docs[top].children.value), platform))
  }

  /** The documents whose blobs a warm of the image walks. */
  function Walked(docs: map<Name, Document>, top: Name, platform: string): seq<Document>
    requires Known(docs, top, platform)
  {
    if !docs[top].index then [docs[top]]
    else if docs[top].children.None? then []
    else ChildDocs(docs, top.cache, top.repo, Entries(docs[top].children.value), platform)
  }

  /** Some child of the index is wanted; true of an image that is no index. */
  predicate HasMatch(doc: Document, platform: string) {
    doc.index ==> doc.children.Some? && exists e :: e in Entries(doc.children.value) && PlatformMatches(platform, e.plat)
  }

  /** Every request succeeding, warming the image succeeds. */
  predicate Warmable(docs: map<Name, Document>, top: Name, platform: string)
    requires Known(docs, top, platform)
  {
    && (docs[top].index ==> docs[top].children.Some?)
    && (forall doc :: doc in Walked(docs, top, platform) ==> doc.manifest.Some?)
    && (platform != "" ==> HasMatch(docs[top], platform))
  }

  /** No layer of a walked manifest lacks its digest. */
  predicate LayersNamed(walked: seq<Document>) {
    forall doc :: doc in walked && doc.manifest.Some? ==> "" !in doc.manifest.value.layers
  }

  /** The manifests a successful warm reads. */
  function ManifestNames(docs: map<Name, Document>, top: Name, platform: string): set<Name>
    requires Known(docs, top, platform)
  {
    {top} + if docs[top].index && docs[top].children.Some?
            then ChildNames(top.cache, top.repo, Entries(docs[top].children.value), platform) else {}
  }

  function ChildNames(cache: nat, repo: string, entries: seq<Entry>, platform: string): set<Name> {
    set e | e in entries && PlatformMatches(platform, e.plat) :: Name(cache, repo, e.digest)
  }

  /** The configs and layers of the walked documents. */
  function BlobNames(cache: nat, repo: string, walked: seq<Document>): set<Name> {
    set doc, d | doc in walked && doc.manifest.Some? && d in BlobsToWarm(doc.manifest.value) :: Name(cache, repo, d)
  }

  // ----- what the check demands ---------------------------------------------------------------------

  /** What the registries keep on disk: the manifests and blobs stored and linked, what reading back a
      manifest gives (absent where reading it fails), and the digest each tag points at. */
  datatype Store = Store(manifests: set<Name>, blobs: set<Name>, docs: map<Name, Document>, tags: map<Name, string>)

  predicate HoldsBlobs(s: Store, cache: nat, repo: string, doc: Document) {
    && doc.manifest.Some?
    && (doc.manifest.value.config != "" ==> Name(cache, repo, doc.manifest.value.config) in s.blobs)
    && (forall l :: l in doc.manifest.value.layers ==> Name(cache, repo, l) in s.blobs)
  }

  method BlobsOnDisk(s: Store, cache: nat, repo: string, doc: Document) returns (held: bool)
    ensures held <==> HoldsBlobs(s, cache, repo, doc)
  {
    if doc.manifest.None? {
      return false;
    }
    var m := doc.manifest.value;
    if m.config != "" && Name(cache, repo, m.config) !in s.blobs {
      return false;
    }
    for i := 0 to |m.layers|
      invariant forall k :: 0 <= k < i ==> Name(cache, repo, m.layers[k]) in s.blobs
    {
      if Name(cache, repo, m.layers[i]) !in s.blobs {
        return false;
      }
    }
    return true;
  }

  /** The manifest is stored and can be read back. */
  predicate Readable(s: Store, n: Name) {
    n in s.manifests && n in s.docs
  }

  predicate HoldsChild(s: Store, cache: nat, repo: string, e: Entry) {
    Readable(s, Name(cache, repo, e.digest)) && HoldsBlobs(s, cache, repo, s.docs[Name(cache, repo, e.digest)])
  }

  /** The image is completely on disk: its manifest, the wanted children (at least one), every blob. */
  predicate Full(s: Store, top: Name, platform: string) {
    && Readable(s, top)
    && var doc := s.docs[top];
    if !doc.index then HoldsBlobs(s, top.cache, top.repo, doc)
    else
      && HasMatch(doc, platform)
      && forall e :: e in Entries(doc.children.value) && PlatformMatches(platform, e.plat) ==> HoldsChild(s, top.cache, top.repo, e)
  }

  method ImageOnDisk(s: Store, top: Name, platform: string) returns (full: bool, manifest: bool)
    ensures full <==> Full(s, top, platform)
    ensures manifest <==> top in s.manifests
  {
    if top !in s.manifests {
      return false, false;
    }
    if top !in s.docs {
      return false, true;
    }
    var doc := s.docs[top];
    if !doc.index {
      full := BlobsOnDisk(s, top.cache, top.repo, doc);
      return full, true;
    }
    if doc.children.None? {
      return false, true;
    }
    var ix := ParseIndex(doc.children.value);
    full := ChildrenOnDisk(s, top.cache, top.repo, ix, platform);
    return full, true;
  }

  /** The loop of imageOnDisk over the index's children. */
  method ChildrenOnDisk(s: Store, cache: nat, repo: string, ix: seq<Entry>, platform: string) returns (full: bool)
    ensures full <==>
            && (exists e :: e in ix && PlatformMatches(platform, e.plat))
            && (forall e :: e in ix && PlatformMatches(platform, e.plat) ==> HoldsChild(s, cache, repo, e))
  {
    var matched := 0;
    for i := 0 to |ix|
      invariant matched > 0 <==> exists k :: 0 <= k < i && PlatformMatches(platform, ix[k].plat)
      invariant matched >= 0
      invariant forall k :: 0 <= k < i && PlatformMatches(platform, ix[k].plat) ==> HoldsChild(s, cache, repo, ix[k])
    {
      if !PlatformMatches(platform, ix[i].plat) {
        continue;
      }
      matched := matched + 1;
      var child := Name(cache, repo, ix[i].digest);
      if child !in s.manifests || child !in s.docs {
        assert !HoldsChild(s, cache, repo, ix[i]);
        return false;
      }
      var held := BlobsOnDisk(s, cache, repo, s.docs[child]);
      if !held {
        assert !HoldsChild(s, cache, repo, ix[i]);
        return false;
      }
    }
    return matched > 0;
  }

  /** A store that only gained content: what could be read still reads the same. */
  predicate Grows(s: Store, s': Store) {
    && s.manifests <= s'.manifests
    && s.blobs <= s'.blobs
    && forall n :: n in s.docs ==> n in s'.docs && s'.docs[n] == s.docs[n]
  }

  /** What is fully on disk stays so while the store grows. */
  lemma FullIsMonotone(s: Store, s': Store, top: Name, platform: string)
    requires Grows(s, s') && Full(s, top, platform)
    ensures Full(s', top, platform)
  {
    var doc := s.docs[top];
    if doc.index {
      forall e | e in Entries(doc.children.value) && PlatformMatches(platform, e.plat)
        ensures HoldsChild(s', top.cache, top.repo, e)
      {
        assert HoldsChild(s, top.cache, top.repo, e);
      }
    }
  }

  /** An image full for all platforms is full for every platform it has. */
  lemma FullForAllIsFullForEach(s: Store, top: Name, platform: string)
    requires Full(s, top, "") && HasMatch(s.docs[top], platform)
    ensures Full(s, top, platform)
  {
    var doc := s.docs[top];
    if doc.index {
      forall e | e in Entries(doc.children.value) && PlatformMatches(platform, e.plat)
        ensures HoldsChild(s, top.cache, top.repo, e)
      {
        assert PlatformMatches("", e.plat);
      }
    }
  }

  // ----- the warm and the check agree ---------------------------------------------------------------

  /** Reading a stored manifest gives the content its digest names, and no blob is stored without digest. */
  predicate Faithful(s: Store, docs: map<Name, Document>) {
    && (forall n :: n in s.manifests && n in docs ==> n in s.docs && s.docs[n] == docs[n])
    && (forall n :: n in s.blobs ==> n.digest != "")
  }

  lemma HoldsBlobsIff(s: Store, cache: nat, repo: string, doc: Document)
    requires forall n :: n in s.blobs ==> n.digest != ""
    ensures HoldsBlobs(s, cache, repo, doc)
            <==> doc.manifest.Some? && LayersNamed([doc]) && BlobNames(cache, repo, [doc]) <= s.blobs
  {
    if doc.manifest.Some? {
      var m := doc.manifest.value;
      NonEmptyMembers(m.layers);
      var names := BlobNames(cache, repo, [doc]);
      assert doc in [doc];
      assert forall d :: d in BlobsToWarm(m) ==> Name(cache, repo, d) in names;
      if HoldsBlobs(s, cache, repo, doc) {
        assert "" in m.layers ==> Name(cache, repo, "") in s.blobs;
      } else if LayersNamed([doc]) && names <= s.blobs {
        assert forall l :: l in m.layers ==> l in BlobsToWarm(m);
        assert false;
      }
    }
  }

  lemma {:induction false} ChildDocsMembers(docs: map<Name, Document>, cache: nat, repo: string, entries: seq<Entry>, platform: string)
    requires ChildrenKnown(docs, cache, repo, entries, platform)
    ensures forall e :: e in entries && PlatformMatches(platform, e.plat) ==>
              docs[Name(cache, repo, e.digest)] in ChildDocs(docs, cache, repo, entries, platform)
    ensures forall doc :: doc in ChildDocs(docs, cache, repo, entries, platform) ==>
              exists e :: e in entries && PlatformMatches(platform, e.plat) && docs[Name(cache, repo, e.digest)] == doc
  {
    if entries != [] {
      ChildDocsMembers(docs, cache, repo, entries[1..], platform);
      var all, rest := ChildDocs(docs, cache, repo, entries, platform), ChildDocs(docs, cache, repo, entries[1..], platform);
      forall e | e in entries && PlatformMatches(platform, e.plat)
        ensures docs[Name(cache, repo, e.digest)] in all
      {
        if e != entries[0] {
          assert e in entries[1..];
        }
      }
      forall doc | doc in all
        ensures exists e :: e in entries && PlatformMatches(platform, e.plat) && docs[Name(cache, repo, e.digest)] == doc
      {
        if doc in rest {
          var e :| e in entries[1..] && PlatformMatches(platform, e.plat) && docs[Name(cache, repo, e.digest)] == doc;
          assert e in entries;
        } else {
          assert entries[0] in entries;
        }
      }
    }
  }

  /** The check demands exactly what a warm fetches: over any store, the image is full iff warming it can
      succeed, it has a wanted child, no layer lacks its digest, and everything the warm fetches is there. */
  lemma FullIffWarmedContentHeld(docs: map<Name, Document>, s: Store, top: Name, platform: string)
    requires Known(docs, top, platform) && Faithful(s, docs)
    ensures Full(s, top, platform) <==>
            && Warmable(docs, top, platform) && HasMatch(docs[top], platform) && LayersNamed(Walked(docs, top, platform))
            && ManifestNames(docs, top, platform) <= s.manifests
            && BlobNames(top.cache, top.repo, Walked(docs, top, platform)) <= s.blobs
  {
    var walked, doc := Walked(docs, top, platform), docs[top];
    if !doc.index {
      HoldsBlobsIff(s, top.cache, top.repo, doc);
    } else if doc.children.Some? && top in s.manifests {
      var entries := Entries(doc.children.value);
      ChildDocsMembers(docs, top.cache, top.repo, entries, platform);
      EachDocument(s, top.cache, top.repo, walked);
      forall e | e in entries && PlatformMatches(platform, e.plat)
        ensures HoldsChild(s, top.cache, top.repo, e) <==>
                Name(top.cache, top.repo, e.digest) in s.manifests && HoldsBlobs(s, top.cache, top.repo, docs[Name(top.cache, top.repo, e.digest)])
      {
      }
      assert ManifestNames(docs, top, platform) <= s.manifests <==>
             forall e :: e in entries && PlatformMatches(platform, e.plat) ==> Name(top.cache, top.repo, e.digest) in s.manifests by {
        var names := ChildNames(top.cache, top.repo, entries, platform);
        assert forall e :: e in entries && PlatformMatches(platform, e.plat) ==> Name(top.cache, top.repo, e.digest) in names;
      }
    }
  }

  lemma EachDocument(s: Store, cache: nat, repo: string, walked: seq<Document>)
    requires forall n :: n in s.blobs ==> n.digest != ""
    ensures (forall doc :: doc in walked ==> HoldsBlobs(s, cache, repo, doc)) <==>
            && (forall doc :: doc in walked ==> doc.manifest.Some?)
            && LayersNamed(walked)
            && BlobNames(cache, repo, walked) <= s.blobs
  {
    forall doc | doc in walked
      ensures HoldsBlobs(s, cache, repo, doc) <==>
              doc.manifest.Some? && LayersNamed([doc]) && BlobNames(cache, repo, [doc]) <= s.blobs
      ensures BlobNames(cache, repo, [doc]) <= BlobNames(cache, repo, walked)
    {
      HoldsBlobsIff(s, cache, repo, doc);
    }
    if forall doc :: doc in walked ==> HoldsBlobs(s, cache, repo, doc) {
      forall n | n in BlobNames(cache, repo, walked)
        ensures n in s.blobs
      {
        var doc, d :| doc in walked && doc.manifest.Some? && d in BlobsToWarm(doc.manifest.value) && n == Name(cache, repo, d);
        assert n in BlobNames(cache, repo, [doc]);
      }
    }
  }

  // ----- what it means to be complete ---------------------------------------------------------------

  /** The image is held in full: the store has every manifest a warm of it reads and can read them back, that
      warm can succeed, some child is wanted, and the store has the config and every layer of each manifest
      that it walks. */
  ghost predicate ImageHeld(s: Store, top: Name, platform: string) {
    && Known(s.docs, top, platform) && Warmable(s.docs, top, platform) && HasMatch(s.docs[top], platform)
    && ManifestNames(s.docs, top, platform) <= s.manifests
    && forall doc :: doc in Walked(s.docs, top, platform) ==> ContentStored(s.blobs, top.cache, top.repo, doc.manifest.value)
  }

  /** The config, where there is one, and every layer are among the blobs. */
  predicate ContentStored(blobs: set<Name>, cache: nat, repo: string, m: Manifest) {
    && (m.config == "" || Name(cache, repo, m.config) in blobs)
    && forall k :: 0 <= k < |m.layers| ==> Name(cache, repo, m.layers[k]) in blobs
  }

  lemma FullIffHeld(s: Store, top: Name, platform: string)
    ensures Full(s, top, platform) <==> ImageHeld(s, top, platform)
  {
    if top in s.docs && s.docs[top].index && s.docs[top].children.Some? {
      var entries := Entries(s.docs[top].children.value);
      IndexFullIffHeld(s, top, platform, entries);
    }
  }

  lemma IndexFullIffHeld(s: Store, top: Name, platform: string, entries: seq<Entry>)
    requires top in s.docs && s.docs[top].index && s.docs[top].children.Some? && entries == Entries(s.docs[top].children.value)
    ensures Full(s, top, platform) <==> ImageHeld(s, top, platform)
  {
    var cache, repo := top.cache, top.repo;
    if ChildrenKnown(s.docs, cache, repo, entries, platform) {
      var walked := Walked(s.docs, top, platform);
      ChildDocsMembers(s.docs, cache, repo, entries, platform);
      var names := ChildNames(cache, repo, entries, platform);
      assert ManifestNames(s.docs, top, platform) <= s.manifests <==>
             top in s.manifests && forall e :: e in entries && PlatformMatches(platform, e.plat) ==> Name(cache, repo, e.digest) in s.manifests by {
        assert forall e :: e in entries && PlatformMatches(platform, e.plat) ==> Name(cache, repo, e.digest) in names;
      }
      forall doc | doc in walked
        ensures HoldsBlobs(s, cache, repo, doc) <==> doc.manifest.Some? && ContentStored(s.blobs, cache, repo, doc.manifest.value)
      {
      }
    }
  }

  /** Where no blob is stored without a digest, that is all the warm fetches, no layer lacking its digest. */
  lemma HeldIffFetched(s: Store, top: Name, platform: string)
    requires Known(s.docs, top, platform) && forall n :: n in s.blobs ==> n.digest != ""
    ensures ImageHeld(s, top, platform) <==>
            && Warmable(s.docs, top, platform) && HasMatch(s.docs[top], platform) && LayersNamed(Walked(s.docs, top, platform))
            && ManifestNames(s.docs, top, platform) <= s.manifests
            && BlobNames(top.cache, top.repo, Walked(s.docs, top, platform)) <= s.blobs
  {
    FullIffHeld(s, top, platform);
    FullIffWarmedContentHeld(s.docs, s, top, platform);
  }
}
