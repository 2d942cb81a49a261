/** Which children of an index a warm walks, by their operating system, architecture and variant
    (pull.go: parseIndex, platformMatches and the loop of warmImage). */
module IndexWalk {
  import opened Ordering
  import opened Platforms
  import opened Manifests
  import opened WarmPool

  function Digests(children: seq<Descriptor>): seq<string> {
    seq(|children|, k requires 0 <= k < |children| => children[k].digest)
  }

  /** The documents are those of the chosen children of the index, in its order. */
  ghost predicate WalksJust(docs: map<Name, Document>, top: Name, children: seq<Descriptor>, chosen: seq<bool>, walked: seq<Document>) {
    exists digests :: Selection(digests, Digests(children), chosen) && AreDocs(docs, top, digests, walked)
  }

  ghost predicate AreDocs(docs: map<Name, Document>, top: Name, digests: seq<string>, walked: seq<Document>) {
    && |walked| == |digests|
    && forall i :: 0 <= i < |walked| ==>
         Name(top.cache, top.repo, digests[i]) in docs && walked[i] == docs[Name(top.cache, top.repo, digests[i])]
  }

  /** Which entries are wanted. */
  ghost predicate Matching(entries: seq<Entry>, platform: string, chosen: seq<bool>) {
    |chosen| == |entries| && forall i :: 0 <= i < |entries| ==> (chosen[i] <==> PlatformMatches(platform, entries[i].plat))
  }

  lemma {:induction false} ChildDocsChosen(docs: map<Name, Document>, top: Name, children: seq<Descriptor>, platform: string, chosen: seq<bool>)
    requires ChildrenKnown(docs, top.cache, top.repo, Entries(children), platform)
    requires Matching(Entries(children), platform, chosen) && |children| == |chosen|
    ensures AreDocs(docs, top, Chosen(Digests(children), chosen), ChildDocs(docs, top.cache, top.repo, Entries(children), platform))
  {
    if children != [] {
      var entries := Entries(children);
      assert Digests(children)[1..] == Digests(children[1..]);
      assert entries[1..] == Entries(children[1..]);
      assert entries[0].digest == children[0].digest;
      ChosenFromFront(Digests(children), chosen);
      ChildDocsChosen(docs, top, children[1..], platform, chosen[1..]);
    }
  }

  /** Walking an index means walking its wanted children. */
  lemma WalksWanted(docs: map<Name, Document>, top: Name, platform: string, chosen: seq<bool>)
    requires Known(docs, top, platform) && docs[top].index && docs[top].children.Some?
    requires Matching(Entries(docs[top].children.value), platform, chosen)
    ensures WalksJust(docs, top, docs[top].children.value, chosen, Walked(docs, top, platform))
  {
    var children := docs[top].children.value;
    EachEntry(children);
    ChosenIsSelection(Digests(children), chosen);
    ChildDocsChosen(docs, top, children, platform, chosen);
  }

  function ThisVariant(children: seq<Descriptor>, os: string, arch: string, variant: string): seq<bool> {
    seq(|children|, k requires 0 <= k < |children| => children[k].os == os && children[k].arch == arch && children[k].variant == variant)
  }

  function AnyVariant(children: seq<Descriptor>, os: string, arch: string): seq<bool> {
    seq(|children|, k requires 0 <= k < |children| =>
      var c := children[k];
      || (c.os == os && c.arch == arch && !(os == "unknown" && arch == "unknown" && c.variant == ""))
      || (c.os == "" && c.arch == os && c.variant == arch && !(os == "unknown" && arch == "unknown")))
  }

  function All(children: seq<Descriptor>): seq<bool> {
    seq(|children|, _ => true)
  }

  lemma WalksAll(docs: map<Name, Document>, top: Name)
    requires Known(docs, top, "") && docs[top].index && docs[top].children.Some?
    ensures WalksJust(docs, top, docs[top].children.value, All(docs[top].children.value), Walked(docs, top, ""))
  {
    EachEntry(docs[top].children.value);
    WalksWanted(docs, top, "", All(docs[top].children.value));
  }

  lemma WalksPlatform(docs: map<Name, Document>, top: Name, os: string, arch: string)
    requires Known(docs, top, os + "/" + arch) && docs[top].index && docs[top].children.Some?
    requires SlashFree(docs[top].children.value) && Component(os) && Component(arch)
    ensures var children := docs[top].children.value;
            WalksJust(docs, top, children, AnyVariant(children, os, arch), Walked(docs, top, os + "/" + arch))
  {
    EachEntry(docs[top].children.value);
    WalksWanted(docs, top, os + "/" + arch, AnyVariant(docs[top].children.value, os, arch));
  }

  lemma WalksVariant(docs: map<Name, Document>, top: Name, os: string, arch: string, variant: string)
    requires Known(docs, top, os + "/" + (arch + "/" + variant)) && docs[top].index && docs[top].children.Some?
    requires SlashFree(docs[top].children.value) && Component(os) && Component(arch) && Component(variant)
    ensures var children := docs[top].children.value;
            WalksJust(docs, top, children, ThisVariant(children, os, arch, variant), Walked(docs, top, os + "/" + (arch + "/" + variant)))
  {
    EachEntry(docs[top].children.value);
    WalksWanted(docs, top, os + "/" + (arch + "/" + variant), ThisVariant(docs[top].children.value, os, arch, variant));
  }

  /** What a successful warm of a pinned index has walked, for each form of the platform asked for: with a
      variant, exactly the children of that operating system, architecture and variant; without one, those
      of that operating system and architecture; and all children if no platform is asked for. */
  lemma WarmedChildren(c: Config, s: State, i: nat, os: string, arch: string, variant: string)
    requires Reachable(c, s) && i in s.results && s.results[i].outcome.Warmed?
    requires i < |c.refs| && c.refs[i] in c.target && Known(c.pinned, Top(c, i), c.platform)
    requires c.pinned[Top(c, i)].index
    ensures c.pinned[Top(c, i)].children.Some?
    ensures var children, docs := c.pinned[Top(c, i)].children.value, s.results[i].outcome.docs;
            && (c.platform == "" ==> WalksJust(c.pinned, Top(c, i), children, All(children), docs))
            && (SlashFree(children) && Component(os) && Component(arch) ==>
                  && (c.platform == os + "/" + arch ==> WalksJust(c.pinned, Top(c, i), children, AnyVariant(children, os, arch), docs))
                  && (Component(variant) && c.platform == os + "/" + (arch + "/" + variant) ==>
                        WalksJust(c.pinned, Top(c, i), children, ThisVariant(children, os, arch, variant), docs)))
  {
    ReachableResults(c, s, i);
    var top := Top(c, i);
    if c.platform == "" {
      WalksAll(c.pinned, top);
    }
    if SlashFree(c.pinned[top].children.value) && Component(os) && Component(arch) {
      if c.platform == os + "/" + arch {
        WalksPlatform(c.pinned, top, os, arch);
      }
      if Component(variant) && c.platform == os + "/" + (arch + "/" + variant) {
        WalksVariant(c.pinned, top, os, arch, variant);
      }
    }
  }

  /** An image can be warmed iff its manifest is an image manifest that can be decoded; or an index that can
      be, of which each wanted child is such a manifest and, if a platform is asked for, some child is wanted. */
  lemma WarmableIff(docs: map<Name, Document>, top: Name, platform: string)
    requires Known(docs, top, platform)
    ensures Warmable(docs, top, platform) <==>
            if !docs[top].index then docs[top].manifest.Some?
            else
              && docs[top].children.Some?
              && var entries := Entries(docs[top].children.value);
                 && (forall e :: e in entries && PlatformMatches(platform, e.plat) ==> docs[Name(top.cache, top.repo, e.digest)].manifest.Some?)
                 && (platform == "" || exists e :: e in entries && PlatformMatches(platform, e.plat))
  {
    var doc := docs[top];
    if doc.index && doc.children.Some? {
      var entries := Entries(doc.children.value);
      var walked := Walked(docs, top, platform);
      ChildDocsMembers(docs, top.cache, top.repo, entries, platform);
      assert (forall d :: d in walked ==> d.manifest.Some?) <==>
             forall e :: e in entries && PlatformMatches(platform, e.plat) ==> docs[Name(top.cache, top.repo, e.digest)].manifest.Some?;
    } else if !doc.index {
      assert doc in Walked(docs, top, platform);
    }
  }
}
