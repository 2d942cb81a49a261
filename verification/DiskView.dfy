/** The view of a running cache's disk that the checks query (coverage.go, diskView): one listing of all
    blobs, and for each repository one listing of its links, made when first needed and then kept. */
module DiskView {
  import opened Text
  import opened Manifests
  import opened Ordering
  import Sidecars

  // ----- the registry's layout ----------------------------------------------------------------------

  /** What is on disk at one moment: the algorithm and hex of every blob stored, and per repository the
      hex of the layers and of the manifest revisions linked into it. */
  datatype Tree = Tree(data: set<(string, string)>, layers: map<string, set<string>>, revisions: map<string, set<string>>)

  datatype Link = Layer | Revision

  function LinksIn(t: Tree, link: Link, repo: string): set<string> {
    var m := if link.Layer? then t.layers else t.revisions;
    if repo in m then m[repo] else {}
  }

  predicate Segment(s: string) {
    s != "" && '/' !in s && Solid(s)
  }

  ghost predicate WellFormed(t: Tree) {
    && (forall a, h :: (a, h) in t.data ==> Segment(a) && ':' !in a && Segment(h) && |h| >= 2)
    && (forall link, repo, h :: h in LinksIn(t, link, repo) ==> Segment(h))
  }

  ghost predicate TreeGrows(t: Tree, t': Tree) {
    t.data <= t'.data && forall link, repo :: LinksIn(t, link, repo) <= LinksIn(t', link, repo)
  }

  datatype Query = Query(link: Link, repo: string, digest: string)

  function Sha256(h: string): (d: string)
    ensures d == "sha256" + [':'] + h && d[7..] == h
  {
    "sha256:" + h
  }

  /** What a query asks: is the content stored, and linked into the repository? */
  predicate Stored(t: Tree, q: Query) {
    exists h :: h in LinksIn(t, q.link, q.repo) && ("sha256", h) in t.data && q.digest == Sha256(h)
  }

  // ----- paths --------------------------------------------------------------------------------------

  /** path.Dir, on a path without empty or dot segments. */
  function Dir(p: string): string {
    var i := LastIndexOf(p, '/');
    if i < 0 then "." else p[..i]
  }

  /** path.Base, on the same paths. */
  function Base(p: string): string {
    p[LastIndexOf(p, '/') + 1..]
  }

  function Join(dir: string, name: string): string {
    dir + ['/'] + name
  }

  lemma JoinParts(dir: string, name: string)
    requires '/' !in name
    ensures Dir(Join(dir, name)) == dir && Base(Join(dir, name)) == name
    ensures Solid(dir) && Solid(name) ==> Solid(Join(dir, name))
  {
    LastIndexOfSplit(dir, '/', name);
  }

  const BLOBS := "/var/lib/registry/docker/registry/v2/blobs"

  /** Where the registry keeps a blob. */
  function BlobPath(blob: (string, string)): string
    requires |blob.1| >= 2
  {
    Join(Join(Join(Join(BLOBS, blob.0), blob.1[..2]), blob.1), "data")
  }

  function DigestAt(p: string): string {
    Base(Dir(Dir(Dir(p)))) + ":" + Base(Dir(p))
  }

  function DigestOf(blob: (string, string)): string {
    blob.0 + ":" + blob.1
  }

  /** Taking the path apart gives back the digest it was made from; no blob's path holds white space. */
  lemma LayoutInverted(blob: (string, string))
    requires Segment(blob.0) && Segment(blob.1) && |blob.1| >= 2
    ensures DigestAt(BlobPath(blob)) == DigestOf(blob)
    ensures Solid(BlobPath(blob)) && BlobPath(blob) != ""
  {
    var (a, h) := blob;
    BlobsDirIsSolid();
    var p1 := Join(BLOBS, a);
    JoinParts(BLOBS, a);
    var p2 := Join(p1, h[..2]);
    JoinParts(p1, h[..2]);
    var p3 := Join(p2, h);
    JoinParts(p2, h);
    JoinParts(p3, "data");
    assert BlobPath(blob) == Join(p3, "data");
  }

  lemma BlobsDirIsSolid()
    ensures Solid(BLOBS) && Solid("data") && '/' !in "data"
  {
  }

  // ----- what the commands print --------------------------------------------------------------------

  function DigestsAt(paths: seq<string>): set<string> {
    set p | p in paths :: DigestAt(p)
  }

  lemma DigestsAtMore(paths: seq<string>, p: string)
    ensures DigestsAt(paths + [p]) == DigestsAt(paths) + {DigestAt(p)}
  {
  }

  /** The digests in the output of `find`. */
  function DigestsFound(out: string): set<string> {
    DigestsAt(Fields(out))
  }

  /** The digests in the output of `ls`; none when it failed. */
  function DigestsLinked(out: Option<string>): set<string> {
    if out.None? then {} else DigestsNamed(Fields(out.value))
  }

  function DigestsNamed(names: seq<string>): set<string> {
    set h | h in names :: Sha256(h)
  }

  lemma DigestsNamedMore(names: seq<string>, h: string)
    ensures DigestsNamed(names + [h]) == DigestsNamed(names) + {Sha256(h)}
  {
  }

  predicate Words(names: seq<string>) {
    forall i :: 0 <= i < |names| ==> names[i] != "" && Solid(names[i])
  }

  /** Names printed one a line, the output trimmed, are read back as they were. */
  lemma {:induction false} PrintedFields(names: seq<string>)
    requires Words(names)
    ensures Fields(TrimSpace(Sidecars.Print(names))) == names
  {
    FieldsTrimmed(Sidecars.Print(names));
    FieldsPrinted(names);
  }

  lemma {:induction false} FieldsPrinted(names: seq<string>)
    requires Words(names)
    ensures Fields(Sidecars.Print(names)) == names
    ensures var out := Sidecars.Print(names); out != "" ==> IsSpace(out[|out| - 1])
  {
    if names != [] {
      var before, last := names[..|names| - 1], names[|names| - 1];
      FieldsPrinted(before);
      FieldsLast(Sidecars.Print(before), last);
      var out := Sidecars.Print(names);
      assert out[..|out| - 1] == Sidecars.Print(before) + last;
      assert names == before + [last];
    }
  }

  /** out is what `find` prints of the blobs of t, in any order. */
  ghost predicate FindPrints(t: Tree, out: string) {
    exists blobs: seq<(string, string)> :: Lists(t, blobs) && out == TrimSpace(Sidecars.Print(PathsOf(blobs)))
  }

  ghost predicate Lists(t: Tree, blobs: seq<(string, string)>) {
    forall b :: b in blobs <==> b in t.data
  }

  function PathOf(blob: (string, string)): string {
    if |blob.1| >= 2 then BlobPath(blob) else ""
  }

  function PathsOf(blobs: seq<(string, string)>): seq<string> {
    if blobs == [] then [] else PathsOf(blobs[..|blobs| - 1]) + [PathOf(blobs[|blobs| - 1])]
  }

  lemma {:induction false} PathsAt(blobs: seq<(string, string)>)
    ensures |PathsOf(blobs)| == |blobs|
    ensures forall i :: 0 <= i < |blobs| ==> PathsOf(blobs)[i] == PathOf(blobs[i])
  {
    if blobs != [] {
      PathsAt(blobs[..|blobs| - 1]);
    }
  }

  lemma PathsReadBack(blobs: seq<(string, string)>)
    requires forall i :: 0 <= i < |blobs| ==> Segment(blobs[i].0) && Segment(blobs[i].1) && |blobs[i].1| >= 2
    ensures Fields(TrimSpace(Sidecars.Print(PathsOf(blobs)))) == PathsOf(blobs) && |PathsOf(blobs)| == |blobs|
    ensures forall i :: 0 <= i < |blobs| ==> DigestAt(PathsOf(blobs)[i]) == DigestOf(blobs[i])
  {
    var paths := PathsOf(blobs);
    PathsAt(blobs);
    forall i | 0 <= i < |blobs|
      ensures DigestAt(paths[i]) == DigestOf(blobs[i]) && paths[i] != "" && Solid(paths[i])
    {
      LayoutInverted(blobs[i]);
    }
    PrintedFields(paths);
  }

  /** The listing of all blobs gives exactly their digests. */
  lemma FoundIsStored(t: Tree, out: string)
    requires WellFormed(t) && FindPrints(t, out)
    ensures DigestsFound(out) == BlobDigests(t)
  {
    var blobs: seq<(string, string)> :| Lists(t, blobs) && out == TrimSpace(Sidecars.Print(PathsOf(blobs)));
    ListedSegments(t, blobs);
    PathsReadBack(blobs);
    SameDigests(PathsOf(blobs), blobs);
    ListedDigests(t, blobs);
  }

  lemma ListedSegments(t: Tree, blobs: seq<(string, string)>)
    requires WellFormed(t) && Lists(t, blobs)
    ensures forall i :: 0 <= i < |blobs| ==> Segment(blobs[i].0) && Segment(blobs[i].1) && |blobs[i].1| >= 2
  {
    forall i | 0 <= i < |blobs|
      ensures Segment(blobs[i].0) && Segment(blobs[i].1) && |blobs[i].1| >= 2
    {
      assert (blobs[i].0, blobs[i].1) in t.data;
    }
  }

  lemma ListedDigests(t: Tree, blobs: seq<(string, string)>)
    requires Lists(t, blobs)
    ensures BlobDigests(t) == set b | b in blobs :: DigestOf(b)
  {
  }

  lemma SameDigests(paths: seq<string>, blobs: seq<(string, string)>)
    requires |paths| == |blobs| && forall i :: 0 <= i < |blobs| ==> DigestAt(paths[i]) == DigestOf(blobs[i])
    ensures DigestsAt(paths) == set b | b in blobs :: DigestOf(b)
  {
    var digests := set b | b in blobs :: DigestOf(b);
    forall d | d in DigestsAt(paths)
      ensures d in digests
    {
      var i :| 0 <= i < |paths| && d == DigestAt(paths[i]);
      assert blobs[i] in blobs;
    }
    forall d | d in digests
      ensures d in DigestsAt(paths)
    {
      var i :| 0 <= i < |blobs| && d == DigestOf(blobs[i]);
      assert paths[i] in paths;
    }
  }

  function BlobDigests(t: Tree): set<string> {
    set b | b in t.data :: DigestOf(b)
  }

  /** out is what `ls -1` prints of the links: the names in any order, or nothing known when it failed. */
  ghost predicate LsPrints(hs: set<string>, out: Option<string>) {
    out.Some? ==> exists names: seq<string> :: Members(names) == hs && out.value == TrimSpace(Sidecars.Print(names))
  }

  lemma LinkedIsLinked(hs: set<string>, out: Option<string>)
    requires LsPrints(hs, out) && forall h :: h in hs ==> Segment(h)
    ensures DigestsLinked(out) == if out.None? then {} else set h | h in hs :: Sha256(h)
  {
    if out.Some? {
      var names: seq<string> :| Members(names) == hs && out.value == TrimSpace(Sidecars.Print(names));
      NamesAreWords(names, hs);
      PrintedFields(names);
      NamedDigests(names, hs);
    }
  }

  lemma NamesAreWords(names: seq<string>, hs: set<string>)
    requires Members(names) == hs && forall h :: h in hs ==> Segment(h)
    ensures Words(names)
  {
    forall i | 0 <= i < |names|
      ensures names[i] != "" && Solid(names[i])
    {
      assert names[i] in hs;
    }
  }

  lemma NamedDigests(names: seq<string>, hs: set<string>)
    requires Members(names) == hs
    ensures DigestsNamed(names) == set h | h in hs :: Sha256(h)
  {
    assert forall h :: h in hs <==> h in names;
  }

  // ----- the view -----------------------------------------------------------------------------------

  /** The view's contents: the blobs listed, and the listings kept for each repository. */
  datatype View = View(blobs: set<string>, layers: map<string, set<string>>, revs: map<string, set<string>>)

  function Kept(v: View, link: Link): map<string, set<string>> {
    if link.Layer? then v.layers else v.revs
  }

  function Keep(v: View, link: Link, repo: string, l: set<string>): View {
    if link.Layer? then v.(layers := v.layers[repo := l]) else v.(revs := v.revs[repo := l])
  }

  /** The view after a query; ls is what listing the links would give at that moment. */
  function Queried(v: View, q: Query, ls: Option<string>): View {
    if q.digest !in v.blobs || q.repo in Kept(v, q.link) then v else Keep(v, q.link, q.repo, DigestsLinked(ls))
  }

  class DiskView {
    var blobs: set<string>
    var layers: map<string, set<string>>
    var revs: map<string, set<string>>

    function Contents(): View
      reads this
    {
      View(blobs, layers, revs)
    }

    constructor ()
      ensures Contents() == View({}, map[], map[])
    {
      blobs, layers, revs := {}, map[], map[];
    }

    /** loadBlobs; out is what `find` printed, None if it failed. */
    method LoadBlobs(out: Option<string>) returns (ok: bool)
      modifies this
      ensures ok <==> out.Some?
      ensures Contents() == if ok then old(Contents()).(blobs := DigestsFound(out.value)) else old(Contents())
    {
      if out.None? {
        return false;
      }
      blobs := {};
      var paths := Fields(out.value);
      for i := 0 to |paths|
        invariant blobs == DigestsAt(paths[..i])
        invariant layers == old(layers) && revs == old(revs)
      {
        assert paths[..i + 1] == paths[..i] + [paths[i]];
        DigestsAtMore(paths[..i], paths[i]);
        blobs := blobs + {DigestAt(paths[i])};
      }
      assert paths[..|paths|] == paths;
      return true;
    }

    /** links: a listing is made once per repository, and one that failed is kept as empty. */
    method Links(link: Link, repo: string, ls: Option<string>) returns (l: set<string>)
      modifies this
      ensures var kept := Kept(old(Contents()), link);
              if repo in kept then l == kept[repo] && Contents() == old(Contents())
              else l == DigestsLinked(ls) && Contents() == Keep(old(Contents()), link, repo, l)
    {
      var cache := if link.Layer? then layers else revs;
      if repo in cache {
        return cache[repo];
      }
      l := {};
      if ls.Some? {
        var names := Fields(ls.value);
        for i := 0 to |names|
          invariant l == DigestsNamed(names[..i]) && Contents() == old(Contents())
        {
          assert names[..i + 1] == names[..i] + [names[i]];
          DigestsNamedMore(names[..i], names[i]);
          l := l + {Sha256(names[i])};
        }
        assert names[..|names|] == names;
      }
      if link.Layer? {
        layers := layers[repo := l];
      } else {
        revs := revs[repo := l];
      }
    }

    /** hasBlob and hasManifest: links are listed only for content that is stored. */
    method Has(q: Query, ls: Option<string>) returns (has: bool)
      modifies this
      ensures Contents() == Queried(old(Contents()), q, ls)
      ensures has <==> Holds(Contents(), q)
    {
      if q.digest !in blobs {
        return false;
      }
      var l := Links(q.link, q.repo, ls);
      return q.digest in l;
    }
  }

  /** What a view says after the query: the blob was listed, and the kept listing has it. */
  predicate Holds(v: View, q: Query) {
    q.digest in v.blobs && q.repo in Kept(v, q.link) && q.digest in Kept(v, q.link)[q.repo]
  }

  // ----- any sequence of queries --------------------------------------------------------------------

  datatype Asked = Asked(q: Query, ls: Option<string>)

  function After(blobs: set<string>, asked: seq<Asked>): View {
    if asked == [] then View(blobs, map[], map[])
    else
      var last := asked[|asked| - 1];
      Queried(After(blobs, asked[..|asked| - 1]), last.q, last.ls)
  }

  /** The answer to the last query. */
  predicate Answer(blobs: set<string>, asked: seq<Asked>)
    requires asked != []
  {
    Holds(After(blobs, asked), asked[|asked| - 1].q)
  }

  /** Which query listed the links of a repository: the first about it whose content was stored. */
  function Lister(blobs: set<string>, asked: seq<Asked>, link: Link, repo: string): (r: Option<nat>)
    ensures r.Some? ==> r.value < |asked| && asked[r.value].q.link == link && asked[r.value].q.repo == repo
  {
    if asked == [] then None
    else
      var last := asked[|asked| - 1].q;
      match Lister(blobs, asked[..|asked| - 1], link, repo)
      case Some(i) => Some(i)
      case None => if last.link == link && last.repo == repo && last.digest in blobs then Some(|asked| - 1) else None
  }

  /** What the view keeps is the first listing of each repository. */
  lemma {:induction false} KeptIsFirstListing(blobs: set<string>, asked: seq<Asked>, link: Link, repo: string)
    ensures After(blobs, asked).blobs == blobs
    ensures var kept, lister := Kept(After(blobs, asked), link), Lister(blobs, asked, link, repo);
            && (repo in kept <==> lister.Some?)
            && (lister.Some? ==> kept[repo] == DigestsLinked(asked[lister.value].ls))
  {
    if asked != [] {
      KeptIsFirstListing(blobs, asked[..|asked| - 1], link, repo);
      var last := asked[|asked| - 1].q;
      KeptIsFirstListing(blobs, asked[..|asked| - 1], last.link, last.repo);
    }
  }

  /** A history of queries: the disk at the moment of each, and its listing then, if the command worked. */
  ghost predicate History(t0: Tree, asked: seq<Asked>, trees: seq<Tree>) {
    && |trees| == |asked| && WellFormed(t0)
    && (forall i :: 0 <= i < |asked| ==> WellFormed(trees[i]) && TreeGrows(t0, trees[i]))
    && (forall i, j :: 0 <= i < j < |asked| ==> TreeGrows(trees[i], trees[j]))
    && (forall i :: 0 <= i < |asked| ==> LsPrints(LinksIn(trees[i], asked[i].q.link, asked[i].q.repo), asked[i].ls))
  }

  lemma Sha256Stored(t: Tree, h: string)
    requires WellFormed(t)
    ensures Sha256(h) in BlobDigests(t) <==> ("sha256", h) in t.data
  {
    if Sha256(h) in BlobDigests(t) {
      var b :| b in t.data && DigestOf(b) == Sha256(h);
      assert DigestOf(b) == b.0 + [':'] + b.1;
      assert b == (b.0, b.1);
      assert ':' !in "sha256";
      SplitUnique(b.0, ':', b.1, "sha256", h);
    } else {
      assert DigestOf(("sha256", h)) == Sha256(h);
    }
  }

  /** The answer to the last query is settled by two listings only: that of the blobs, and the first one of
      the repository's links, which is empty if it failed. */
  lemma AnswerSettled(t0: Tree, asked: seq<Asked>, trees: seq<Tree>)
    requires asked != [] && History(t0, asked, trees)
    ensures var q, lister := asked[|asked| - 1].q, Lister(BlobDigests(t0), asked, asked[|asked| - 1].q.link, asked[|asked| - 1].q.repo);
            Answer(BlobDigests(t0), asked) <==>
            lister.Some? && asked[lister.value].ls.Some? && exists h :: q.digest == Sha256(h) && ("sha256", h) in t0.data && h in LinksIn(trees[lister.value], q.link, q.repo)
  {
    var q := asked[|asked| - 1].q;
    var blobs := BlobDigests(t0);
    KeptIsFirstListing(blobs, asked, q.link, q.repo);
    var lister := Lister(blobs, asked, q.link, q.repo);
    if lister.Some? {
      var hs, ls := LinksIn(trees[lister.value], q.link, q.repo), asked[lister.value].ls;
      LinkedIsLinked(hs, ls);
      forall h ensures Sha256(h) in blobs <==> ("sha256", h) in t0.data {
        Sha256Stored(t0, h);
      }
    }
  }

  /** While the disk grows, what the view says is there is there; and what was there when the view was made
      it says is there, unless the listing of the links failed. */
  lemma AnswersBetween(t0: Tree, asked: seq<Asked>, trees: seq<Tree>)
    requires asked != [] && History(t0, asked, trees)
    ensures var q := asked[|asked| - 1].q;
            && (Answer(BlobDigests(t0), asked) ==> Stored(trees[|asked| - 1], q))
            && (Stored(t0, q) && (forall i :: 0 <= i < |asked| ==> asked[i].ls.Some?) ==> Answer(BlobDigests(t0), asked))
  {
    AnswerSettled(t0, asked, trees);
    var q := asked[|asked| - 1].q;
    var lister := Lister(BlobDigests(t0), asked, q.link, q.repo);
    if lister.Some? {
      assert LinksIn(trees[lister.value], q.link, q.repo) <= LinksIn(trees[|asked| - 1], q.link, q.repo);
      assert LinksIn(t0, q.link, q.repo) <= LinksIn(trees[lister.value], q.link, q.repo);
    }
    if Stored(t0, q) {
      var h :| h in LinksIn(t0, q.link, q.repo) && ("sha256", h) in t0.data && q.digest == Sha256(h);
      Sha256Stored(t0, h);
    }
  }

  /** On a disk that does not change, and with every listing working, each answer is right. */
  lemma AnswersExact(t: Tree, asked: seq<Asked>)
    requires asked != [] && WellFormed(t)
    requires forall a :: a in asked ==> a.ls.Some? && LsPrints(LinksIn(t, a.q.link, a.q.repo), a.ls)
    ensures Answer(BlobDigests(t), asked) <==> Stored(t, asked[|asked| - 1].q)
  {
    var trees := SteadyHistory(t, asked);
    AnswersBetween(t, asked, trees);
  }

  /** Asked for a blob, the view looks at the repository's layers; asked for a manifest, at its revisions. */
  lemma AnswersByKind(t: Tree, asked: seq<Asked>)
    requires asked != [] && WellFormed(t)
    requires forall a :: a in asked ==> a.ls.Some? && LsPrints(LinksIn(t, a.q.link, a.q.repo), a.ls)
    ensures var q, yes := asked[|asked| - 1].q, Answer(BlobDigests(t), asked);
            && (q.link == Layer ==>
                  (yes <==> q.repo in t.layers && exists h :: h in t.layers[q.repo] && ("sha256", h) in t.data && q.digest == "sha256:" + h))
            && (q.link == Revision ==>
                  (yes <==> q.repo in t.revisions && exists h :: h in t.revisions[q.repo] && ("sha256", h) in t.data && q.digest == "sha256:" + h))
  {
    AnswersExact(t, asked);
    assert forall h :: Sha256(h) == "sha256:" + h;
  }

  lemma SteadyHistory(t: Tree, asked: seq<Asked>) returns (trees: seq<Tree>)
    requires WellFormed(t)
    requires forall a :: a in asked ==> a.ls.Some? && LsPrints(LinksIn(t, a.q.link, a.q.repo), a.ls)
    ensures History(t, asked, trees) && forall i :: 0 <= i < |asked| ==> trees[i] == t && asked[i].ls.Some?
  {
    trees := seq(|asked|, _ => t);
    assert TreeGrows(t, t);
    forall i | 0 <= i < |asked|
      ensures asked[i].ls.Some? && LsPrints(LinksIn(trees[i], asked[i].q.link, asked[i].q.repo), asked[i].ls)
    {
      var a := asked[i];
      assert a in asked;
    }
  }

  /** A listing that failed is not made again: the repository looks empty to every later query. */
  lemma FailedListingKept(t0: Tree, asked: seq<Asked>, trees: seq<Tree>, i: nat)
    requires i < |asked| && History(t0, asked, trees)
    requires var q := asked[|asked| - 1].q; Lister(BlobDigests(t0), asked, q.link, q.repo) == Some(i) && asked[i].ls.None?
    ensures !Answer(BlobDigests(t0), asked)
  {
    AnswerSettled(t0, asked, trees);
  }

  // ----- a check made through the view --------------------------------------------------------------

  /** What the view said is there, as a store; docs is what reading the manifests gave. */
  function SeenStore(blobs: set<string>, asked: seq<Asked>, cache: nat, docs: map<Name, Document>): Store {
    Store(SeenNames(blobs, asked, cache, Revision), SeenNames(blobs, asked, cache, Layer), docs, map[])
  }

  function SeenNames(blobs: set<string>, asked: seq<Asked>, cache: nat, link: Link): set<Name> {
    set i | 0 <= i < |asked| && asked[i].q.link == link && Answer(blobs, asked[..i + 1]) ::
      Name(cache, asked[i].q.repo, asked[i].q.digest)
  }

  /** The store s is what the tree t holds. */
  ghost predicate Describes(t: Tree, s: Store, cache: nat) {
    forall q :: Stored(t, q) ==> Name(cache, q.repo, q.digest) in if q.link.Layer? then s.blobs else s.manifests
  }

  /** An image found complete by asking the view, one question at a time while the disk grows, is complete
      on the disk as it is at the end. */
  lemma CompleteThroughView(t0: Tree, asked: seq<Asked>, trees: seq<Tree>, docs: map<Name, Document>, s: Store, top: Name, platform: string)
    requires asked != [] && History(t0, asked, trees) && Describes(trees[|asked| - 1], s, top.cache)
    requires forall n :: n in docs ==> n in s.docs && s.docs[n] == docs[n]
    requires Full(SeenStore(BlobDigests(t0), asked, top.cache, docs), top, platform)
    ensures Full(s, top, platform)
  {
    forall i | 0 <= i < |asked| && Answer(BlobDigests(t0), asked[..i + 1])
      ensures Stored(trees[|asked| - 1], asked[i].q)
    {
      StillStored(t0, asked, trees, i);
    }
    FullIsMonotone(SeenStore(BlobDigests(t0), asked, top.cache, docs), s, top, platform);
  }

  lemma StillStored(t0: Tree, asked: seq<Asked>, trees: seq<Tree>, i: nat)
    requires i < |asked| && History(t0, asked, trees) && Answer(BlobDigests(t0), asked[..i + 1])
    ensures Stored(trees[|asked| - 1], asked[i].q)
  {
    AnswersBetween(t0, asked[..i + 1], trees[..i + 1]);
    var q := asked[i].q;
    var h :| h in LinksIn(trees[i], q.link, q.repo) && ("sha256", h) in trees[i].data && q.digest == Sha256(h);
    if i < |asked| - 1 {
      assert TreeGrows(trees[i], trees[|asked| - 1]);
      assert h in LinksIn(trees[|asked| - 1], q.link, q.repo);
    }
  }
}
