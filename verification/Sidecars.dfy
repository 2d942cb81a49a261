/** The files that remember under which repositories and tags blobs were requested (blobcache.go: recordRepo,
    recordTag, readRepos): one name a line, appended under a lock. */
module Sidecars {
  import opened Ordering
  import opened Text

  // ----- reading a sidecar --------------------------------------------------------------------------

  /** strings.Split at newlines. */
  function Lines(content: string): seq<string>
    decreases |content|
  {
    var i := LastIndexOf(content, '\n');
    if i < 0 then [content] else Lines(content[..i]) + [content[i + 1..]]
  }

  /** The names of a file: its lines, trimmed, save the empty ones. */
  function NamesOf(lines: seq<string>): set<string> {
    set l | l in lines && TrimSpace(l) != "" :: TrimSpace(l)
  }

  lemma NamesOfMore(lines: seq<string>, l: string)
    ensures NamesOf(lines + [l]) == if TrimSpace(l) == "" then NamesOf(lines) else NamesOf(lines) + {TrimSpace(l)}
  {
  }

  function NamesIn(content: string): set<string> {
    NamesOf(Lines(content))
  }

  /** readRepos: every name of the file once, sorted. */
  method ReadRepos(content: string) returns (out: seq<string>)
    ensures Sorted(out) && Members(out) == NamesIn(content)
  {
    out := EachOnce(Lines(content));
    SortSorts(out);
    out := Sort(out);
  }

  /** Its loop. */
  method EachOnce(lines: seq<string>) returns (out: seq<string>)
    ensures Distinct(out) && Members(out) == NamesOf(lines)
  {
    out := [];
    var seen: set<string> := {};
    for i := 0 to |lines|
      invariant seen == Members(out) == NamesOf(lines[..i])
      invariant Distinct(out)
    {
      assert lines[..i + 1] == lines[..i] + [lines[i]];
      NamesOfMore(lines[..i], lines[i]);
      var ln := TrimSpace(lines[i]);
      if ln == "" || ln in seen {
        continue;
      }
      seen := seen + {ln};
      MembersMore(out, ln);
      out := out + [ln];
    }
    assert lines[..|lines|] == lines;
  }

  // ----- writing one --------------------------------------------------------------------------------

  /** The file after a request to record name: nothing changes if it is empty or already listed, or if the
      file cannot be opened (works is false). */
  function Recorded(content: string, name: string, works: bool): string {
    if name == "" || name in NamesIn(content) || !works then content else content + name + "\n"
  }

  /** The two kinds of sidecars. */
  datatype Sidecar = ReposOf(digest: string) | TagsOf(repo: string)

  /** The proxy's sidecar files. Both methods hold its lock from reading to appending, so that calls take
      effect one after another. */
  class Recorder {
    var files: map<Sidecar, string>

    constructor ()
      ensures files == map[]
    {
      files := map[];
    }

    function Content(f: Sidecar): string
      reads this
    {
      ContentIn(files, f)
    }

    method RecordRepo(digest: string, repo: string, works: bool)
      modifies this
      ensures ContentIn(files, ReposOf(digest)) == Recorded(old(ContentIn(files, ReposOf(digest))), repo, works)
      ensures forall f :: f != ReposOf(digest) ==> ContentIn(files, f) == old(ContentIn(files, f))
      ensures Handled(old(files), files, ForRepo(digest, repo, works))
    {
      if repo == "" {
        return;
      }
      var f := ReposOf(digest);
      var names := ReadRepos(Content(f));
      assert repo in names <==> repo in Members(names);
      if repo in names || !works {
        return;
      }
      files := files[f := Content(f) + repo + "\n"];
    }

    method RecordTag(repo: string, ref: string, works: bool)
      modifies this
      ensures repo == "" ==> files == old(files)
      ensures repo != "" ==> ContentIn(files, TagsOf(repo)) == Recorded(old(ContentIn(files, TagsOf(repo))), ref, works)
      ensures forall f :: f != TagsOf(repo) ==> ContentIn(files, f) == old(ContentIn(files, f))
      ensures Handled(old(files), files, ForTag(repo, ref, works))
    {
      if repo == "" || ref == "" {
        return;
      }
      var f := TagsOf(repo);
      var names := ReadRepos(Content(f));
      assert ref in names <==> ref in Members(names);
      if ref in names || !works {
        return;
      }
      files := files[f := Content(f) + ref + "\n"];
    }
  }

  /** A call of one of the two methods; works says whether the file can be opened for appending. */
  datatype Request = ForRepo(digest: string, repo: string, works: bool) | ForTag(repo: string, ref: string, works: bool)

  function FileOf(r: Request): Sidecar {
    if r.ForRepo? then ReposOf(r.digest) else TagsOf(r.repo)
  }

  /** What a request asks to be recorded in its file: nothing for a tag without repository. */
  function CallOf(r: Request): Call {
    if r.ForRepo? then Call(r.repo, r.works) else Call(if r.repo == "" then "" else r.ref, r.works)
  }

  /** The request has had its effect on its own file, and none on any other. */
  ghost predicate Handled(files: map<Sidecar, string>, files': map<Sidecar, string>, r: Request) {
    && ContentIn(files', FileOf(r)) == Recorded(ContentIn(files, FileOf(r)), CallOf(r).name, CallOf(r).works)
    && forall f :: f != FileOf(r) ==> ContentIn(files', f) == ContentIn(files, f)
  }

  function ContentIn(files: map<Sidecar, string>, f: Sidecar): string {
    if f in files then files[f] else ""
  }

  // ----- what is recorded is what is read -----------------------------------------------------------

  predicate WholeLines(content: string) {
    content == "" || content[|content| - 1] == '\n'
  }

  lemma LastLine(head: string, tail: string)
    requires '\n' !in tail
    ensures Lines(head + ['\n'] + tail) == Lines(head) + [tail]
  {
    var s := head + ['\n'] + tail;
    LastIndexOfSplit(head, '\n', tail);
    assert s[..|head|] == head && s[|head| + 1..] == tail;
  }

  /** The lines before the last, which is empty where every line is ended. */
  function WholeLinesOf(content: string): seq<string>
    requires WholeLines(content)
  {
    if content == "" then [] else Lines(content[..|content| - 1])
  }

  lemma LinesOfWhole(content: string)
    requires WholeLines(content)
    ensures Lines(content) == WholeLinesOf(content) + [""]
  {
    if content != "" {
      var head := content[..|content| - 1];
      assert content == head + ['\n'] + "";
      LastLine(head, "");
    }
  }

  lemma LineEnded(s: string)
    ensures Lines(s + "\n") == Lines(s) + [""]
  {
    assert s + "\n" == s + ['\n'] + "";
    LastLine(s, "");
  }

  lemma LineBegun(content: string, name: string)
    requires WholeLines(content) && '\n' !in name
    ensures Lines(content + name) == WholeLinesOf(content) + [name]
  {
    if content == "" {
      assert content + name == name;
      assert LastIndexOf(name, '\n') < 0;
    } else {
      var head := content[..|content| - 1];
      assert content + name == head + ['\n'] + name;
      LastLine(head, name);
    }
  }

  lemma LinesAppended(content: string, name: string)
    requires WholeLines(content) && '\n' !in name
    ensures Lines(content + name + "\n") == WholeLinesOf(content) + [name, ""]
  {
    LineBegun(content, name);
    LineEnded(content + name);
    assert WholeLinesOf(content) + [name] + [""] == WholeLinesOf(content) + [name, ""];
  }

  /** The name that reading a line gives, if any. */
  function NameOf(line: string): set<string> {
    if TrimSpace(line) == "" then {} else {TrimSpace(line)}
  }

  lemma NamesConcat(a: seq<string>, b: seq<string>)
    ensures NamesOf(a + b) == NamesOf(a) + NamesOf(b)
  {
  }

  lemma NamesOfOne(line: string)
    ensures NamesOf([line]) == NameOf(line)
  {
    assert forall l :: l in [line] <==> l == line;
  }

  lemma EmptyNamesNothing()
    ensures NameOf("") == {}
  {
  }

  lemma NamesEnded(front: seq<string>)
    ensures NamesOf(front + [""]) == NamesOf(front)
  {
    NamesConcat(front, [""]);
    NamesOfOne("");
    EmptyNamesNothing();
  }

  lemma NamesBeforeLast(front: seq<string>, line: string)
    ensures NamesOf(front + [line, ""]) == NamesOf(front + [""]) + NameOf(line)
  {
    NamesEnded(front);
    NamesEnded(front + [line]);
    NamesConcat(front, [line]);
    NamesOfOne(line);
    assert front + [line, ""] == front + [line] + [""];
  }

  /** Appending a line adds its trimmed text to the names. */
  lemma NamesAppended(content: string, name: string)
    requires WholeLines(content) && '\n' !in name
    ensures NamesIn(content + name + "\n") == NamesIn(content) + NameOf(name)
  {
    LinesOfWhole(content);
    LinesAppended(content, name);
    NamesBeforeLast(WholeLinesOf(content), name);
  }

  /** Recording a name a second time changes nothing exactly when the name is trimmed; an untrimmed one is
      never recognised among the lines read back and is appended every time. */
  lemma RecordedOnce(content: string, name: string)
    requires WholeLines(content) && '\n' !in name
    ensures Recorded(Recorded(content, name, true), name, true) == Recorded(content, name, true) <==> Trimmed(name)
  {
    if name != "" && name !in NamesIn(content) {
      NamesAppended(content, name);
    }
  }

  datatype Call = Call(name: string, works: bool)

  /** One sidecar after the calls that concern it, in the order the lock let them through. */
  function After(calls: seq<Call>): string {
    if calls == [] then "" else
      var last := calls[|calls| - 1];
      Recorded(After(calls[..|calls| - 1]), last.name, last.works)
  }

  /** The names whose recording did not fail. */
  function Asked(calls: seq<Call>): set<string> {
    set c | c in calls && c.works && c.name != "" :: c.name
  }

  lemma AskedMore(calls: seq<Call>, c: Call)
    ensures Asked(calls + [c]) == if c.works && c.name != "" then Asked(calls) + {c.name} else Asked(calls)
  {
  }

  function Print(ns: seq<string>): string {
    if ns == [] then "" else Print(ns[..|ns| - 1]) + ns[|ns| - 1] + "\n"
  }

  predicate Plain(name: string) {
    Trimmed(name) && '\n' !in name
  }

  /** The names in the order in which they were first recorded. */
  function FirstRecorded(calls: seq<Call>): seq<string> {
    if calls == [] then [] else
      var names, last := FirstRecorded(calls[..|calls| - 1]), calls[|calls| - 1];
      if last.works && last.name != "" && last.name !in names then names + [last.name] else names
  }

  lemma {:induction false} FirstRecordedNames(calls: seq<Call>)
    ensures Distinct(FirstRecorded(calls)) && Members(FirstRecorded(calls)) == Asked(calls)
  {
    if calls != [] {
      var before, last := calls[..|calls| - 1], calls[|calls| - 1];
      assert calls == before + [last];
      FirstRecordedNames(before);
      AskedMore(before, last);
      MembersMore(FirstRecorded(before), last.name);
      assert last.name in FirstRecorded(before) <==> last.name in Members(FirstRecorded(before));
    }
  }

  /** Whatever the order of the calls, the file lists each name asked for on one line of its own, in the
      order of their first recording, and the names read back are those asked for: printing by appending,
      and reading by splitting, trimming and dropping repeats, undo each other. */
  lemma {:induction false} SidecarIsTheSet(calls: seq<Call>)
    requires forall c :: c in calls ==> Plain(c.name)
    ensures After(calls) == Print(FirstRecorded(calls)) && Distinct(FirstRecorded(calls))
    ensures NamesIn(After(calls)) == Asked(calls) && WholeLines(After(calls))
  {
    FirstRecordedNames(calls);
    if calls == [] {
      assert Lines("") == [""];
    } else {
      var before, last := calls[..|calls| - 1], calls[|calls| - 1];
      SidecarIsTheSet(before);
      FirstRecordedNames(before);
      RecordedPrints(After(before), FirstRecorded(before), last);
    }
  }

  /** One call, on a file that lists some names. */
  lemma RecordedPrints(content: string, names: seq<string>, c: Call)
    requires Plain(c.name) && content == Print(names) && WholeLines(content) && NamesIn(content) == Members(names)
    ensures var names' := if c.works && c.name != "" && c.name !in names then names + [c.name] else names;
            var content' := Recorded(content, c.name, c.works);
            content' == Print(names') && WholeLines(content') && NamesIn(content') == Members(names')
  {
    assert c.name in names <==> c.name in Members(names);
    if c.works && c.name != "" && c.name !in names {
      NamesAppended(content, c.name);
      MembersMore(names, c.name);
      PrintMore(names, c.name);
    }
  }

  lemma PrintMore(names: seq<string>, name: string)
    ensures Print(names + [name]) == Print(names) + name + "\n"
  {
    assert (names + [name])[..|names|] == names;
  }

  /** The calls that concern one file. */
  function CallsOn(f: Sidecar, requests: seq<Request>): seq<Call> {
    if requests == [] then []
    else
      var last := requests[|requests| - 1];
      CallsOn(f, requests[..|requests| - 1]) + if FileOf(last) == f then [CallOf(last)] else []
  }

  /** The files after some requests, handled one after another from no files at all. */
  ghost predicate Sequence(requests: seq<Request>, files: seq<map<Sidecar, string>>) {
    && |files| == |requests| + 1 && files[0] == map[]
    && forall i :: 0 <= i < |requests| ==> Handled(files[i], files[i + 1], requests[i])
  }

  lemma {:induction false} EachFileItsCalls(requests: seq<Request>, files: seq<map<Sidecar, string>>, f: Sidecar)
    requires Sequence(requests, files)
    ensures ContentIn(files[|requests|], f) == After(CallsOn(f, requests))
  {
    if requests != [] {
      var n := |requests| - 1;
      assert Handled(files[n], files[n + 1], requests[n]);
      EachFileItsCalls(requests[..n], files[..n + 1], f);
      var calls := CallsOn(f, requests[..n]);
      if FileOf(requests[n]) == f {
        assert (calls + [CallOf(requests[n])])[..|calls|] == calls;
      } else {
        assert calls + [] == calls;
      }
    }
  }

  lemma {:induction false} CallsOnMembers(f: Sidecar, requests: seq<Request>)
    ensures forall c :: c in CallsOn(f, requests) <==> exists r :: r in requests && FileOf(r) == f && CallOf(r) == c
  {
    if requests != [] {
      var before, last := requests[..|requests| - 1], requests[|requests| - 1];
      CallsOnMembers(f, before);
      assert requests == before + [last];
    }
  }

  /** A request to write the name into this file was made, for a blob or for a repository that has a name, and
      the file could be opened. */
  predicate Requested(requests: seq<Request>, f: Sidecar, name: string) {
    match f
    case ReposOf(digest) => ForRepo(digest, name, true) in requests
    case TagsOf(repo) => repo != "" && ForTag(repo, name, true) in requests
  }

  /** However requests about many blobs and repositories are interleaved, each file reads back as exactly the
      names that were recorded for it. */
  lemma EachFileItsNames(requests: seq<Request>, files: seq<map<Sidecar, string>>, f: Sidecar)
    requires Sequence(requests, files)
    requires forall r :: r in requests ==> Plain(CallOf(r).name)
    ensures forall name :: name in NamesIn(ContentIn(files[|requests|], f)) <==> name != "" && Requested(requests, f, name)
  {
    EachFileItsCalls(requests, files, f);
    CallsOnMembers(f, requests);
    var calls := CallsOn(f, requests);
    SidecarIsTheSet(calls);
    forall name | name != ""
      ensures name in Asked(calls) <==> Requested(requests, f, name)
    {
      RequestBehind(requests, f, calls, name);
    }
  }

  lemma RequestBehind(requests: seq<Request>, f: Sidecar, calls: seq<Call>, name: string)
    requires forall c :: c in calls <==> exists r :: r in requests && FileOf(r) == f && CallOf(r) == c
    requires name != ""
    ensures Call(name, true) in calls <==> Requested(requests, f, name)
  {
    var r := match f
      case ReposOf(digest) => ForRepo(digest, name, true)
      case TagsOf(repo) => ForTag(repo, name, true);
    if r in requests && (f.TagsOf? ==> f.repo != "") {
      assert FileOf(r) == f && CallOf(r) == Call(name, true);
    }
    if Call(name, true) in calls {
      var q :| q in requests && FileOf(q) == f && CallOf(q) == Call(name, true);
      assert q == r;
    }
  }

  /** So two histories that asked for the same names read back the same list. */
  lemma ReadBackDependsOnNamesOnly(calls: seq<Call>, calls': seq<Call>, out: seq<string>, out': seq<string>)
    requires forall c :: c in calls + calls' ==> Plain(c.name)
    requires Asked(calls) == Asked(calls')
    requires Sorted(out) && Members(out) == NamesIn(After(calls))
    requires Sorted(out') && Members(out') == NamesIn(After(calls'))
    ensures out == out'
  {
    assert forall c :: c in calls ==> c in calls + calls';
    assert forall c :: c in calls' ==> c in calls + calls';
    SidecarIsTheSet(calls);
    SidecarIsTheSet(calls');
    SortedUnique(out, out');
  }
}
