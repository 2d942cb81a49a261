/** Image references (pull.go), the fixed fleet of caches (cache.go), and the scope of a blob claim. */
module Refs {
  import opened Text

  datatype ImageRef = ImageRef(host: string, repo: string, ref: string)

  /** One cache of the fleet; `blobcache` marks the one that is not a registry proxy. */
  datatype Upstream = Upstream(name: string, host: string, blobcache: bool)

  const UPSTREAMS: seq<Upstream> := [
    Upstream("dockerhub", "docker.io", false),
    Upstream("ghcr", "ghcr.io", false),
    Upstream("quay", "quay.io", false),
    Upstream("f5", "repo.f5.com", true),
    Upstream("nvcr", "nvcr.io", false)
  ]

  /** The first cache whose registry is host. */
  method UpstreamIndexForHost(host: string) returns (r: Option<nat>)
    ensures r == UpstreamIndex(host)
  {
    for i := 0 to |UPSTREAMS|
      invariant UpstreamIndex(host) == UpstreamIndexFrom(host, i)
    {
      if UPSTREAMS[i].host == host {
        return Some(i);
      }
    }
    return None;
  }

  /** The cache it names is the first of the fleet for that registry; it names none iff there is none. */
  function UpstreamIndex(host: string): (r: Option<nat>)
    ensures r.Some? ==> r.value < |UPSTREAMS| && UPSTREAMS[r.value].host == host
    ensures r.Some? ==> forall i :: 0 <= i < r.value ==> UPSTREAMS[i].host != host
    ensures r.None? <==> forall i :: 0 <= i < |UPSTREAMS| ==> UPSTREAMS[i].host != host
  {
    UpstreamIndexFrom(host, 0)
  }

  function UpstreamIndexFrom(host: string, from: nat): (r: Option<nat>)
    requires from <= |UPSTREAMS|
    ensures r.Some? ==> from <= r.value < |UPSTREAMS| && UPSTREAMS[r.value].host == host
    ensures forall i :: from <= i < (if r.Some? then r.value else |UPSTREAMS|) ==> UPSTREAMS[i].host != host
    decreases |UPSTREAMS| - from
  {
    if from == |UPSTREAMS| then None
    else if UPSTREAMS[from].host == host then Some(from)
    else UpstreamIndexFrom(host, from + 1)
  }

  /** A first path segment that names a registry rather than a docker.io user. */
  predicate IsRegistryHost(segment: string) {
    '.' in segment || ':' in segment || segment == "localhost"
  }

  /** Splits off the registry; without a recognisable one the image is docker.io's. */
  function SplitHost(s: string): (r: (string, string))
    ensures IsRegistryHost(r.0) && '/' !in r.0
  {
    var slash := IndexOf(s, '/');
    assert "docker.io"[6] == '.';
    if slash >= 0 && IsRegistryHost(s[..slash]) then (s[..slash], s[slash + 1..]) else ("docker.io", s)
  }

  /** Splits off what follows the first `@`, else the last `:`, else "latest". */
  function SplitRef(name: string): (r: (string, string))
    ensures '@' !in r.0
  {
    var at, colon := IndexOf(name, '@'), LastIndexOf(name, ':');
    if at >= 0 then (name[..at], name[at + 1..])
    else if colon >= 0 then (name[..colon], name[colon + 1..])
    else (name, "latest")
  }

  /** docker.io keeps its single-segment images under library/. */
  function QualifiedRepo(host: string, name: string): (repo: string)
    ensures '@' !in name ==> '@' !in repo
    ensures repo == "" <==> name == "" && host != "docker.io"
    ensures host == "docker.io" ==> '/' in repo
  {
    assert forall tail :: ("library/" + tail)[7] == '/';
    if host == "docker.io" && '/' !in name then "library/" + name else name
  }

  /** None where the source reports that no repository could be parsed. */
  function ParseRef(s: string): (r: Option<ImageRef>)
    ensures r.Some? ==> r.value.repo != "" && '@' !in r.value.repo
    ensures r.Some? ==> '/' !in r.value.host && IsRegistryHost(r.value.host)
    ensures r.Some? && r.value.host == "docker.io" ==> '/' in r.value.repo
  {
    var (host, rest) := SplitHost(s);
    var (name, ref) := SplitRef(rest);
    var repo := QualifiedRepo(host, name);
    if repo == "" then None else Some(ImageRef(host, repo, ref))
  }

  predicate DigestPinned(ref: string) {
    HasPrefix(ref, "sha256:")
  }

  lemma SplitHostOf(host: string, rest: string)
    requires '/' !in host && IsRegistryHost(host)
    ensures SplitHost(host + "/" + rest) == (host, rest)
  {
    IndexOfSplit(host, '/', rest);
    assert (host + "/" + rest)[..|host|] == host;
    assert (host + "/" + rest)[|host| + 1..] == rest;
  }

  lemma SplitRefOfDigest(name: string, ref: string)
    requires '@' !in name
    ensures SplitRef(name + "@" + ref) == (name, ref)
  {
    IndexOfSplit(name, '@', ref);
    assert (name + "@" + ref)[..|name|] == name;
    assert (name + "@" + ref)[|name| + 1..] == ref;
  }

  lemma SplitRefOfTag(name: string, tag: string)
    requires '@' !in name + tag && ':' !in tag
    ensures SplitRef(name + ":" + tag) == (name, tag)
  {
    LastIndexOfSplit(name, ':', tag);
    assert '@' !in name + ":" + tag;
    assert (name + ":" + tag)[..|name|] == name;
    assert (name + ":" + tag)[|name| + 1..] == tag;
  }

  /** A reference written in full comes back as its three parts, except that a single-segment docker.io
      repository gains library/. It is refused only when the repository is empty and not docker.io's. */
  lemma ParseFullyWritten(host: string, repo: string, ref: string)
    requires '/' !in host && ('.' in host || ':' in host || host == "localhost") && '@' !in repo
    ensures var r := ParseRef(host + "/" + repo + "@" + ref);
            && (r.None? <==> repo == "" && host != "docker.io")
            && (r.Some? ==> r.value == ImageRef(host, if host == "docker.io" && '/' !in repo then "library/" + repo else repo, ref))
  {
    var rest := repo + "@" + ref;
    assert host + "/" + repo + "@" + ref == host + "/" + rest;
    SplitHostOf(host, rest);
    SplitRefOfDigest(repo, ref);
  }

  /** The same for a tag, which cannot itself contain the separators. */
  lemma ParseTagged(host: string, repo: string, tag: string)
    requires '/' !in host && ('.' in host || ':' in host || host == "localhost") && '@' !in repo && '@' !in tag && ':' !in tag
    ensures var r := ParseRef(host + "/" + repo + ":" + tag);
            && (r.None? <==> repo == "" && host != "docker.io")
            && (r.Some? ==> r.value == ImageRef(host, if host == "docker.io" && '/' !in repo then "library/" + repo else repo, tag))
  {
    var rest := repo + ":" + tag;
    assert host + "/" + repo + ":" + tag == host + "/" + rest;
    SplitHostOf(host, rest);
    SplitRefOfTag(repo, tag);
  }

  /** A first segment is taken for the registry iff it has a dot or a colon or is localhost; otherwise it is
      the beginning of a docker.io repository. */
  lemma HostRecognised(first: string, repo: string, ref: string)
    requires '/' !in first && '@' !in first && '@' !in repo
    ensures var r := ParseRef(first + "/" + repo + "@" + ref);
            if '.' in first || ':' in first || first == "localhost"
            then r.Some? ==> r.value.host == first && (first != "docker.io" ==> r.value.repo == repo)
            else r == Some(ImageRef("docker.io", first + "/" + repo, ref))
  {
    var name := first + "/" + repo;
    if '.' in first || ':' in first || first == "localhost" {
      ParseFullyWritten(first, repo, ref);
    } else {
      var all := name + "@" + ref;
      assert all == first + "/" + (repo + "@" + ref);
      IndexOfSplit(first, '/', repo + "@" + ref);
      assert all[..|first|] == first;
      SplitRefOfDigest(name, ref);
      assert name[|first|] == '/';
    }
  }

  /** What a reference prints as when nothing is left implicit. */
  function FullForm(r: ImageRef): string {
    r.host + "/" + r.repo + "@" + r.ref
  }

  /** Whatever form an accepted reference was written in, its full form parses to the same triple: the
      implicit docker.io, library/ and latest forms lose nothing. */
  lemma FullFormParsesBack(s: string)
    requires ParseRef(s).Some?
    ensures ParseRef(FullForm(ParseRef(s).value)) == ParseRef(s)
  {
    var r := ParseRef(s).value;
    ParseFullyWritten(r.host, r.repo, r.ref);
  }

  /** No registry is written in front: docker.io is meant. */
  predicate HostImplicit(name: string) {
    var slash := IndexOf(name, '/');
    slash < 0 || !IsRegistryHost(name[..slash])
  }

  /** An image named without a registry is docker.io's. */
  lemma ImplicitHost(name: string)
    requires HostImplicit(name)
    ensures ParseRef(name) == ParseRef("docker.io/" + name)
  {
    assert "docker.io/" + name == "docker.io" + "/" + name;
    SplitHostOf("docker.io", name);
  }

  /** An image named without tag or digest is its latest one. */
  lemma ImplicitTag(name: string)
    requires '@' !in name && ':' !in name
    ensures ParseRef(name) == ParseRef(name + ":" + "latest")
  {
    var tag := "latest";
    assert '/' !in tag && '@' !in tag && ':' !in tag;
    TagKeepsHost(name, tag);
    var rest := SplitHost(name).1;
    SplitRefOfTag(rest, tag);
  }

  lemma TagKeepsHost(name: string, tag: string)
    requires '/' !in tag && ':' !in name
    ensures SplitHost(name + ":" + tag) == (SplitHost(name).0, SplitHost(name).1 + ":" + tag)
    ensures '@' !in name ==> '@' !in SplitHost(name).1
    ensures ':' !in SplitHost(name).1
  {
    var slash := IndexOf(name, '/');
    if slash >= 0 {
      var a, b := name[..slash], name[slash + 1..];
      assert name == a + "/" + b;
      assert name + ":" + tag == a + "/" + (b + ":" + tag);
      IndexOfSplit(a, '/', b + ":" + tag);
      assert (name + ":" + tag)[..slash] == a;
      assert (name + ":" + tag)[slash + 1..] == b + ":" + tag;
    } else {
      assert '/' !in name + ":" + tag;
    }
  }

  /** Leaving out library/ in a docker.io reference changes nothing. */
  lemma ImplicitLibrary(host: string, repo: string, ref: string)
    requires '/' !in host && IsRegistryHost(host) && '@' !in repo
    ensures ParseRef(host + "/" + repo + "@" + ref) == ParseRef(host + "/" + QualifiedRepo(host, repo) + "@" + ref)
  {
    var full := QualifiedRepo(host, repo);
    ParseFullyWritten(host, repo, ref);
    ParseFullyWritten(host, full, ref);
    assert QualifiedRepo(host, full) == full;
  }

  /** Where warmRef sends a reference: the registry cache, repository and reference to pull; None where
      it gives up before any request (unparsable, no such cache, or the blob cache's host). */
  function WarmTarget(ref: string): (r: Option<(nat, ImageRef)>)
    ensures r.Some? ==> r.value.0 < |UPSTREAMS| && !UPSTREAMS[r.value.0].blobcache
    ensures r.Some? ==> ParseRef(ref) == Some(r.value.1) && UpstreamIndex(r.value.1.host) == Some(r.value.0)
  {
    match ParseRef(ref)
    case None => None
    case Some(p) =>
      match UpstreamIndex(p.host)
      case None => None
      case Some(u) => if UPSTREAMS[u].blobcache then None else Some((u, p))
  }

  /** seenKey for the cache on the given port. */
  function SeenKey(port: string, repo: string, digest: string): string {
    "http://localhost:" + port + "/" + repo + "@" + digest
  }

  predicate IsPort(port: string) {
    forall i :: 0 <= i < |port| ==> '0' <= port[i] <= '9'
  }

  /** Claims of different caches, repositories or blobs never share a key, for the repositories ParseRef
      yields; so the model keys claims by the triple itself. */
  lemma SeenKeyInjective(port: string, repo: string, digest: string, port': string, repo': string, digest': string)
    requires IsPort(port) && IsPort(port') && '@' !in repo && '@' !in repo'
    requires SeenKey(port, repo, digest) == SeenKey(port', repo', digest')
    ensures port == port' && repo == repo' && digest == digest'
  {
    var http := "http://localhost:";
    var a, a' := http + port + "/" + repo, http + port' + "/" + repo';
    assert '@' !in http;
    SplitUnique(a, '@', digest, a', digest');
    assert port + "/" + repo == a[|http|..] && port' + "/" + repo' == a'[|http|..];
    SplitUnique(port, '/', repo, port', repo');
  }
}
