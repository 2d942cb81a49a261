/** The images a release's payload names (release.go, parseImageReferences). */
module Payload {
  import opened Ordering
  import opened Text

  /** One tag of the release's ImageStream. */
  datatype StreamTag = StreamTag(fromKind: string, fromName: string)

  datatype ImageStream = ImageStream(kind: string, tags: seq<StreamTag>)

  predicate NamesImage(t: StreamTag) {
    t.fromKind == "DockerImage" && t.fromName != ""
  }

  /** The distinct image names, each where it is first listed. */
  function PayloadRefs(tags: seq<StreamTag>): seq<string> {
    if tags == [] then []
    else
      var refs, t := PayloadRefs(tags[..|tags| - 1]), tags[|tags| - 1];
      if NamesImage(t) && t.fromName !in refs then refs + [t.fromName] else refs
  }

  const IMAGE_REFERENCES := "release-manifests/image-references"

  /** The payload of a release; None where the source reports an error: undecodable, of another kind, or
      without any image. */
  function Listed(stream: Option<ImageStream>): (r: Option<seq<string>>)
    ensures r.Some? ==> r.value != []
  {
    if stream.Some? && stream.value.kind == "ImageStream" && PayloadRefs(stream.value.tags) != [] then Some(PayloadRefs(stream.value.tags))
    else None
  }

  /** Some tag names an image. */
  predicate SomeImage(tags: seq<StreamTag>) {
    exists k :: 0 <= k < |tags| && tags[k].fromKind == "DockerImage" && tags[k].fromName != ""
  }

  lemma {:induction false} NoImages(tags: seq<StreamTag>)
    ensures PayloadRefs(tags) == [] <==> !SomeImage(tags)
  {
    if tags != [] {
      NoImages(tags[..|tags| - 1]);
    }
  }

  /** It fails iff the stream cannot be decoded, is of another kind or names no image. */
  method ParseImageReferences(stream: Option<ImageStream>) returns (r: Option<seq<string>>)
    ensures r.Some? <==> stream.Some? && stream.value.kind == "ImageStream" && SomeImage(stream.value.tags)
    ensures r == Listed(stream)
    ensures r.Some? ==> Distinct(r.value)
  {
    if stream.Some? {
      NoImages(stream.value.tags);
    }
    if stream.None? || stream.value.kind != "ImageStream" {
      return None;
    }
    var tags := stream.value.tags;
    var seen: set<string> := {};
    var refs: seq<string> := [];
    for i := 0 to |tags|
      invariant refs == PayloadRefs(tags[..i])
      invariant seen == set r | r in refs
      invariant Distinct(refs)
    {
      assert tags[..i + 1][..i] == tags[..i];
      if !NamesImage(tags[i]) || tags[i].fromName in seen {
        continue;
      }
      seen := seen + {tags[i].fromName};
      refs := refs + [tags[i].fromName];
    }
    assert tags[..|tags|] == tags;
    if refs == [] {
      return None;
    }
    return Some(refs);
  }

  /** The position at which a name is first listed. */
  predicate FirstListed(tags: seq<StreamTag>, k: nat, name: string) {
    && k < |tags| && tags[k].fromKind == "DockerImage" && tags[k].fromName == name != ""
    && forall j :: 0 <= j < k ==> tags[j].fromKind != "DockerImage" || tags[j].fromName != name
  }

  /** Exactly the listed image names, in the order of their first listing. */
  lemma PayloadInOrder(tags: seq<StreamTag>)
    ensures forall name :: name in PayloadRefs(tags) <==> exists k :: FirstListed(tags, k, name)
    ensures var refs := PayloadRefs(tags);
            forall i, j, k, l :: 0 <= i < j < |refs| && FirstListed(tags, k, refs[i]) && FirstListed(tags, l, refs[j]) ==> k < l
  {
    PayloadMembers(tags);
    var at := Positions(tags);
    var refs := PayloadRefs(tags);
    forall i, j, k, l | 0 <= i < j < |refs| && FirstListed(tags, k, refs[i]) && FirstListed(tags, l, refs[j])
      ensures k < l
    {
      assert k == at[i] && l == at[j];
    }
  }

  /** Where each image of the payload is first listed. */
  lemma {:induction false} Positions(tags: seq<StreamTag>) returns (at: seq<nat>)
    ensures |at| == |PayloadRefs(tags)|
    ensures forall i :: 0 <= i < |at| ==> FirstListed(tags, at[i], PayloadRefs(tags)[i])
    ensures forall i, j :: 0 <= i < j < |at| ==> at[i] < at[j]
  {
    at := [];
    if tags != [] {
      var before, t := tags[..|tags| - 1], tags[|tags| - 1];
      at := Positions(before);
      forall i | 0 <= i < |at|
        ensures FirstListed(tags, at[i], PayloadRefs(before)[i])
      {
        StillFirst(tags, at[i], PayloadRefs(before)[i]);
      }
      if NamesImage(t) && t.fromName !in PayloadRefs(before) {
        LastIsFirstListed(tags);
        at := at + [|before|];
      }
    }
  }

  lemma StillFirst(tags: seq<StreamTag>, k: nat, name: string)
    requires k < |tags| - 1
    ensures FirstListed(tags[..|tags| - 1], k, name) <==> FirstListed(tags, k, name)
  {
    var before := tags[..|tags| - 1];
    assert forall j :: 0 <= j <= k ==> tags[j] == before[j];
  }

  lemma LastIsFirstListed(tags: seq<StreamTag>)
    requires tags != []
    requires var before, t := tags[..|tags| - 1], tags[|tags| - 1]; NamesImage(t) && t.fromName !in PayloadRefs(before)
    ensures FirstListed(tags, |tags| - 1, tags[|tags| - 1].fromName)
    decreases |tags|, 0
  {
    var before, name := tags[..|tags| - 1], tags[|tags| - 1].fromName;
    PayloadMembers(before);
    forall j | 0 <= j < |before|
      ensures !(NamesImage(tags[j]) && tags[j].fromName == name)
    {
      NotListed(before, j, name);
    }
  }

  lemma {:induction false} PayloadMembers(tags: seq<StreamTag>)
    ensures forall name :: name in PayloadRefs(tags) <==> exists k :: FirstListed(tags, k, name)
    decreases |tags|, 1
  {
    if tags != [] {
      var before, t := tags[..|tags| - 1], tags[|tags| - 1];
      PayloadMembers(before);
      forall name
        ensures name in PayloadRefs(tags) <==> exists k :: FirstListed(tags, k, name)
      {
        if name in PayloadRefs(before) {
          var k :| FirstListed(before, k, name);
          StillFirst(tags, k, name);
        } else if name in PayloadRefs(tags) {
          LastIsFirstListed(tags);
        } else if exists k :: FirstListed(tags, k, name) {
          var k :| FirstListed(tags, k, name);
          StillFirst(tags, k, name);
        }
      }
    }
  }

  lemma {:induction false} NotListed(tags: seq<StreamTag>, j: nat, name: string)
    requires j < |tags| && forall k :: !FirstListed(tags, k, name)
    ensures !(NamesImage(tags[j]) && tags[j].fromName == name)
    decreases j
  {
    forall i | 0 <= i < j
      ensures !(NamesImage(tags[i]) && tags[i].fromName == name)
    {
      NotListed(tags, i, name);
    }
    assert !FirstListed(tags, j, name);
  }
}
