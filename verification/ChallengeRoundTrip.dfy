/** Which lists of parameters come back when they are printed as a challenge and parsed. */
module ChallengeRoundTrip {
  import opened Text
  import opened Challenge

  /** A parameter in printed form. */
  function Quoted(p: Param): string {
    p.key + ['='] + (['"'] + p.value + ['"'])
  }

  /** The parameters joined by commas, white space before each. */
  function Printed(ps: seq<Param>, pads: seq<string>): string
    requires |pads| == |ps|
  {
    if ps == [] then ""
    else
      var n := |ps| - 1;
      var last := pads[n] + Quoted(ps[n]);
      if n == 0 then last else Printed(ps[..n], pads[..n]) + [','] + last
  }

  predicate NoCapitals(k: string) {
    forall i :: 0 <= i < |k| ==> !('A' <= k[i] <= 'Z')
  }

  /** A key in its normal form. */
  predicate PlainKey(k: string) {
    Trimmed(k) && ToLower(k) == k && '=' !in k && ',' !in k && '"' !in k
  }

  /** That is a trimmed one without capitals and separators. */
  lemma PlainKeyIff(k: string)
    ensures PlainKey(k) <==> Trimmed(k) && NoCapitals(k) && '=' !in k && ',' !in k && '"' !in k
  {
    LowerHasNoCapitals(k);
    if NoCapitals(k) {
      NoCapitalsKept(k);
    }
  }

  /** No quote at either end. */
  predicate EdgesKept(v: string) {
    v == "" || (v[0] != '"' && v[|v| - 1] != '"')
  }

  /** No comma behind an odd number of quotes. */
  predicate CommasKept(v: string) {
    forall j :: 0 <= j < |v| && v[j] == ',' ==> !InQuotes(v[..j])
  }

  predicate Intact(v: string) {
    EdgesKept(v) && CommasKept(v)
  }

  // ----- reading one part ---------------------------------------------------------------------------

  lemma ParamOfSplit(k: string, v: string)
    requires '=' !in k
    ensures ParamOf(k + ['='] + v) == Some(Param(KeyOf(k), ValueOf(v)))
  {
    var s := k + ['='] + v;
    IndexOfSplit(k, '=', v);
    assert s[..|k|] == k && s[|k| + 1..] == v;
  }

  lemma KeyKept(k: string)
    requires PlainKey(k)
    ensures KeyOf(k) == k
  {
  }

  lemma {:induction false} NoCapitalsKept(k: string)
    requires NoCapitals(k)
    ensures ToLower(k) == k
  {
    if k != "" {
      NoCapitalsKept(k[1..]);
    }
  }

  /** The letters are the same but for their case. */
  ghost predicate SameLetters(k: string, k': string) {
    |k| == |k'| && forall i :: 0 <= i < |k| ==>
      || k[i] == k'[i]
      || ('A' <= k[i] <= 'Z' && k'[i] as int == k[i] as int + 32)
      || ('A' <= k'[i] <= 'Z' && k[i] as int == k'[i] as int + 32)
  }

  lemma {:induction false} SameLower(k: string, k': string)
    requires SameLetters(k, k')
    ensures ToLower(k) == ToLower(k')
  {
    if k != "" {
      SameLower(k[1..], k'[1..]);
    }
  }

  /** The case of a key does not matter. */
  lemma CaseIgnored(k: string, k': string, v: string)
    requires SameLetters(k, k') && Trimmed(k) && Trimmed(k') && '=' !in k && '=' !in k'
    ensures ParamOf(k + ['='] + v) == ParamOf(k' + ['='] + v)
  {
    ParamOfSplit(k, v);
    ParamOfSplit(k', v);
    SameLower(k, k');
  }

  lemma {:induction false} LowerHasNoCapitals(k: string)
    ensures NoCapitals(ToLower(k)) && |ToLower(k)| == |k|
  {
    if k != "" {
      LowerHasNoCapitals(k[1..]);
    }
  }

  /** Keys are read in lower case. */
  lemma ParsedKeysLower(s: string)
    ensures forall k :: k in Parsed(s) ==> NoCapitals(k)
  {
    forall part
      ensures var p := ParamIn(part); p.Some? ==> NoCapitals(p.value.key)
    {
      PartKeyLower(part);
    }
    CollectedKeysLower(ParamIn, Parts(s));
  }

  lemma PartKeyLower(part: string)
    ensures var p := ParamIn(part); p.Some? ==> NoCapitals(p.value.key)
  {
    var cut := Cut(TrimSpace(part), '=');
    if cut.Some? {
      LowerHasNoCapitals(TrimSpace(cut.value.0));
    }
  }

  lemma {:induction false} CollectedKeysLower(read: string -> Option<Param>, parts: seq<string>)
    requires forall part :: var p := read(part); p.Some? ==> NoCapitals(p.value.key)
    ensures forall k :: k in Collected(read, parts) ==> NoCapitals(k)
  {
    if parts != [] {
      CollectedKeysLower(read, parts[..|parts| - 1]);
      var p := read(parts[|parts| - 1]);
      assert p.Some? ==> NoCapitals(p.value.key);
    }
  }

  lemma QuotedTrimmed(p: Param)
    requires Trimmed(p.key)
    ensures Trimmed(Quoted(p))
  {
    var s := Quoted(p);
    assert s[0] == if p.key == "" then '=' else p.key[0];
    assert s[|s| - 1] == '"';
  }

  /** A printed parameter is read with the value that unquoting leaves, so that it comes back iff its value
      has no quote at either end. */
  lemma ParamQuoted(pad: string, p: Param)
    requires AllSpaces(pad) && PlainKey(p.key)
    ensures ParamIn(pad + Quoted(p)) == Some(p) <==> EdgesKept(p.value)
  {
    QuotedTrimmed(p);
    TrimSpacePadded(pad, Quoted(p));
    ParamOfSplit(p.key, ['"'] + p.value + ['"']);
    KeyKept(p.key);
    ValueRead(p.value);
  }

  lemma ValueRead(v: string)
    ensures ValueOf(['"'] + v + ['"']) == v <==> EdgesKept(v)
  {
    var s := ['"'] + v + ['"'];
    assert Trimmed(s);
    if EdgesKept(v) {
      UnquoteInner(v);
    }
  }

  lemma UnquoteInner(v: string)
    requires EdgesKept(v)
    ensures Unquote(['"'] + v + ['"']) == v
  {
    var s, t := ['"'] + v + ['"'], v + ['"'];
    assert s[1..] == t;
    assert UnquoteLeft(s) == UnquoteLeft(t);
    if v == "" {
      assert t == ['"'] && t[1..] == "";
    } else {
      assert UnquoteLeft(t) == t;
      assert t[..|t| - 1] == v;
    }
  }

  /** What is read from a part is shorter than the part. */
  lemma PartShort(part: string)
    ensures ParamIn(part).Some? ==> |ParamIn(part).value.value| < |part|
  {
    var s := TrimSpace(part);
    var eq := IndexOf(s, '=');
    if eq >= 0 {
      assert |ValueOf(s[eq + 1..])| <= |s| - eq - 1;
    }
  }

  lemma {:induction false} TrimRightBehind(a: string, c: char, x: string)
    requires !IsSpace(c)
    ensures TrimRight(a + [c] + x) == a + [c] + TrimRight(x)
  {
    var s := a + [c] + x;
    if x != "" && IsSpace(x[|x| - 1]) {
      assert s[..|s| - 1] == a + [c] + x[..|x| - 1];
      TrimRightMore(s);
      TrimRightMore(x);
      TrimRightBehind(a, c, x[..|x| - 1]);
    } else if x == "" {
      assert s[|s| - 1] == c;
      assert s == a + [c] + TrimRight(x);
    }
  }

  lemma TrimSpaceRight(s: string)
    requires s != "" && !IsSpace(s[0])
    ensures TrimSpace(s) == TrimRight(s)
  {
  }

  /** A parameter cut off inside its value. */
  function Opened(k: string, x: string): string {
    k + ['='] + ['"'] + x
  }

  lemma OpenedTrimmed(k: string, x: string)
    requires Trimmed(k)
    ensures TrimSpace(Opened(k, x)) == Opened(k, TrimRight(x))
  {
    var h := k + ['='];
    assert Opened(k, x)[0] == if k == "" then '=' else k[0];
    TrimSpaceRight(Opened(k, x));
    TrimRightBehind(h, '"', x);
  }

  lemma OpenedRead(k: string, y: string)
    requires PlainKey(k)
    ensures ParamOf(Opened(k, y)) == Some(Param(KeyOf(k), ValueOf(['"'] + y)))
  {
    OpenedParts(k, y);
    ParamOfSplit(k, ['"'] + y);
  }

  lemma OpenedParts(k: string, y: string)
    ensures Opened(k, y) == k + ['='] + (['"'] + y)
  {
  }

  /** It is read with no more than what precedes the cut. */
  lemma CutPartShort(k: string, x: string)
    requires PlainKey(k)
    ensures var r := ParamIn(Opened(k, x)); r.Some? && |r.value.value| <= |x|
  {
    OpenedTrimmed(k, x);
    OpenedRead(k, TrimRight(x));
    CutValueShort(TrimRight(x));
  }

  lemma CutValueShort(y: string)
    ensures |ValueOf(['"'] + y)| <= |y|
  {
    var q := [] + ['"'] + y;
    assert q == ['"'] + y;
    TrimRightBehind([], '"', y);
    assert TrimLeft(q) == q;
    UnquoteShort(TrimRight(y));
    assert [] + ['"'] + TrimRight(y) == ['"'] + TrimRight(y);
  }

  lemma UnquoteShort(y: string)
    ensures |Unquote(['"'] + y)| <= |y|
  {
    var t := ['"'] + y;
    assert t[1..] == y;
    assert UnquoteLeft(t) == UnquoteLeft(y);
  }

  lemma {:induction false} UnquoteRightBehind(a: string, c: char, x: string)
    requires c != '"'
    ensures UnquoteRight(a + [c] + x) == a + [c] + UnquoteRight(x)
  {
    var s := a + [c] + x;
    if x != "" && x[|x| - 1] == '"' {
      assert s[..|s| - 1] == a + [c] + x[..|x| - 1];
      UnquoteRightBehind(a, c, x[..|x| - 1]);
    } else if x == "" {
      assert s[|s| - 1] == c;
      assert s == a + [c] + UnquoteRight(x);
    }
  }

  /** Removing quotes in front stops at any other character. */
  lemma {:induction false} UnquoteLeftBefore(a: string, c: char, x: string) returns (a': string)
    requires c != '"'
    ensures UnquoteLeft(a + [c] + x) == a' + [c] + x
  {
    var s := a + [c] + x;
    if a != "" && a[0] == '"' {
      assert s[1..] == a[1..] + [c] + x;
      a' := UnquoteLeftBefore(a[1..], c, x);
    } else {
      a' := a;
      assert s[0] == if a == "" then c else a[0];
    }
  }

  lemma {:induction false} TrimLeftBefore(a: string, c: char, x: string) returns (a': string)
    requires !IsSpace(c)
    ensures TrimLeft(a + [c] + x) == a' + [c] + x
  {
    var s := a + [c] + x;
    if a != "" && IsSpace(a[0]) {
      assert s[1..] == a[1..] + [c] + x;
      TrimLeftMore(s);
      a' := TrimLeftBefore(a[1..], c, x);
    } else {
      a' := a;
      assert s[0] == if a == "" then c else a[0];
    }
  }

  /** With anything but spaces and quotes in front of it, a quoted value is read as something else. */
  lemma LongValue(a: string, c: char, v: string)
    requires c != '"' && !IsSpace(c)
    ensures ValueOf(a + [c] + (['"'] + v + ['"'])) != v
  {
    var q := ['"'] + v + ['"'];
    var a1 := TrimLeftBefore(a, c, q);
    assert TrimRight(a1 + [c] + q) == a1 + [c] + q by {
      assert (a1 + [c] + q)[|a1 + [c] + q| - 1] == '"';
    }
    var a2 := UnquoteLeftBefore(a1, c, q);
    UnquoteRightBehind(a2, c, q);
    if ValueOf(a + [c] + q) == v {
      UnquoteRightQuoted(v);
    }
  }

  lemma UnquoteRightQuoted(v: string)
    requires EdgesKept(v)
    ensures |UnquoteRight(['"'] + v + ['"'])| >= |v|
  {
    var s, t := ['"'] + v + ['"'], ['"'] + v;
    assert s[..|s| - 1] == t;
    assert UnquoteRight(s) == UnquoteRight(t);
    if v != "" {
      assert t[|t| - 1] == v[|v| - 1];
    }
  }

  /** A part that begins before a parameter, at an earlier comma or none, is not read as that parameter. */
  lemma LongPart(y: string, pad: string, p: Param)
    requires PlainKey(p.key)
    ensures ParamIn(y + [','] + (pad + Quoted(p))) != Some(p)
  {
    var y' := LongPartTrimmed(y, pad + Quoted(p));
    LongPartRead(y', pad, p);
  }

  lemma LongPartRead(y: string, pad: string, p: Param)
    requires PlainKey(p.key)
    ensures ParamOf(y + [','] + (pad + Quoted(p))) != Some(p)
  {
    var k := y + [','] + (pad + p.key);
    assert y + [','] + (pad + Quoted(p)) == k + ['='] + (['"'] + p.value + ['"']);
    assert k[|y|] == ',';
    LongParam(k, p);
  }

  lemma LongPartTrimmed(y: string, tail: string) returns (y': string)
    requires tail != "" && !IsSpace(tail[|tail| - 1])
    ensures TrimSpace(y + [','] + tail) == y' + [','] + tail
  {
    y' := TrimLeftBefore(y, ',', tail);
    var t := y' + [','] + tail;
    assert t[|t| - 1] == tail[|tail| - 1];
  }

  lemma LongParam(k: string, p: Param)
    requires ',' in k && PlainKey(p.key)
    ensures ParamOf(k + ['='] + (['"'] + p.value + ['"'])) != Some(p)
  {
    var q := ['"'] + p.value + ['"'];
    if '=' in k {
      var i := IndexOf(k, '=');
      assert k + ['='] + q == k[..i] + ['='] + (k[i + 1..] + ['='] + q);
      EarlierEquals(k[..i], k[i + 1..], p);
    } else {
      var i := IndexOf(k, ',');
      assert k == k[..i] + [','] + k[i + 1..];
      CommaInKey(k[..i], k[i + 1..], p);
    }
  }

  lemma EarlierEquals(a: string, b: string, p: Param)
    requires '=' !in a
    ensures ParamOf(a + ['='] + (b + ['='] + (['"'] + p.value + ['"']))) != Some(p)
  {
    ParamOfSplit(a, b + ['='] + (['"'] + p.value + ['"']));
    LongValue(b, '=', p.value);
  }

  lemma CommaInKey(a: string, b: string, p: Param)
    requires '=' !in a + [','] + b && ',' !in p.key
    ensures ParamOf(a + [','] + b + ['='] + (['"'] + p.value + ['"'])) != Some(p)
  {
    ParamOfSplit(a + [','] + b, ['"'] + p.value + ['"']);
    KeyKeepsComma(a, b);
  }

  lemma KeyKeepsComma(a: string, b: string)
    ensures ',' in KeyOf(a + [','] + b)
  {
    var a' := TrimLeftBefore(a, ',', b);
    TrimRightBehind(a', ',', b);
    var t := a' + [','] + TrimRight(b);
    assert t[|a'|] == ',';
    LowerKeeps(t, |a'|);
  }

  lemma {:induction false} LowerKeeps(s: string, i: nat)
    requires i < |s| && s[i] == ','
    ensures ',' in ToLower(s)
  {
    if i > 0 {
      LowerKeeps(s[1..], i - 1);
    }
  }

  // ----- where a printed parameter is cut -----------------------------------------------------------

  /** What precedes the quoted value of a printed parameter. */
  function Head(pad: string, p: Param): (head: string)
    requires AllSpaces(pad) && PlainKey(p.key)
    ensures '"' !in head && ',' !in head
  {
    pad + p.key + ['=']
  }

  lemma HeadOf(pad: string, p: Param)
    requires AllSpaces(pad) && PlainKey(p.key)
    ensures pad + Quoted(p) == Head(pad, p) + ['"'] + p.value + ['"']
  {
  }

  lemma OpenQuote(head: string, v: string)
    requires '"' !in head
    ensures InQuotes(head + ['"'] + v) <==> !InQuotes(v)
  {
    NoQuotes(head);
    assert (head + ['"'])[..|head|] == head;
    InQuotesConcat(head + ['"'], v);
  }

  /** A printed parameter leaves a quote open iff its value does. */
  lemma PartQuotes(pad: string, p: Param)
    requires AllSpaces(pad) && PlainKey(p.key)
    ensures InQuotes(pad + Quoted(p)) <==> InQuotes(p.value)
  {
    var open := Head(pad, p) + ['"'] + p.value;
    HeadOf(pad, p);
    OpenQuote(Head(pad, p), p.value);
    assert (open + ['"'])[..|open|] == open;
  }

  /** No separating comma stands in s. */
  predicate Whole(s: string) {
    forall j :: 0 <= j < |s| ==> !Separates(s, j)
  }

  /** The separating commas of a printed parameter are those of its value behind an odd number of quotes. */
  lemma PartSeparates(pad: string, p: Param, j: nat)
    requires AllSpaces(pad) && PlainKey(p.key) && j < |pad + Quoted(p)|
    ensures Separates(pad + Quoted(p), j) <==>
            var k := j - |Head(pad, p)| - 1; 0 <= k < |p.value| && p.value[k] == ',' && InQuotes(p.value[..k])
  {
    var part, head := pad + Quoted(p), Head(pad, p);
    HeadOf(pad, p);
    var k := j - |head| - 1;
    if part[j] == ',' {
      assert 0 <= k < |p.value|;
      assert part[..j] == head + ['"'] + p.value[..k];
      OpenQuote(head, p.value[..k]);
    }
  }

  lemma PartWhole(pad: string, p: Param)
    requires AllSpaces(pad) && PlainKey(p.key)
    ensures Whole(pad + Quoted(p)) <==> CommasKept(p.value)
  {
    var part, head := pad + Quoted(p), Head(pad, p);
    forall j: nat | j < |part|
      ensures Separates(part, j) <==>
              var k := j - |head| - 1; 0 <= k < |p.value| && p.value[k] == ',' && InQuotes(p.value[..k])
    {
      PartSeparates(pad, p, j);
    }
    HeadOf(pad, p);
    if !CommasKept(p.value) {
      var k :| 0 <= k < |p.value| && p.value[k] == ',' && InQuotes(p.value[..k]);
      assert Separates(part, |head| + 1 + k);
    }
  }

  lemma WholeIsOnePart(s: string)
    ensures LastSeparator(s, |s|) < 0 <==> Whole(s)
    ensures Whole(s) ==> Parts(s) == [s]
  {
  }

  lemma BehindComma(front: string, part: string, k: nat)
    requires k < |part| && !InQuotes(front)
    ensures Separates(front + [','] + part, |front| + 1 + k) <==> Separates(part, k)
  {
    var s := front + [','] + part;
    assert s[..|front| + 1 + k] == front + [','] + part[..k];
    CommaParity(front, part[..k]);
  }

  lemma CommaParity(front: string, part: string)
    ensures InQuotes(front + [','] + part) <==> InQuotes(front) != InQuotes(part)
  {
    assert (front + [','])[..|front|] == front;
    InQuotesConcat(front + [','], part);
  }

  /** The comma in front of a part is the last separating one iff no quote is open there and the part has
      none itself. */
  lemma LastCommaIff(front: string, part: string)
    ensures var s := front + [','] + part; LastSeparator(s, |s|) == |front| <==> !InQuotes(front) && Whole(part)
  {
    var s, i := front + [','] + part, |front|;
    assert s[..i] == front;
    if !InQuotes(front) {
      forall j: nat | i < j < |s|
        ensures Separates(s, j) <==> Separates(part, j - i - 1)
      {
        BehindComma(front, part, j - i - 1);
      }
      if Whole(part) {
        LastSeparatorUnique(s, i);
      } else {
        var k :| 0 <= k < |part| && Separates(part, k);
        assert Separates(s, i + 1 + k);
      }
    }
  }

  // ----- which lists come back ----------------------------------------------------------------------

  function ReadAll(read: string -> Option<Param>, parts: seq<string>): seq<Option<Param>> {
    if parts == [] then [] else ReadAll(read, parts[..|parts| - 1]) + [read(parts[|parts| - 1])]
  }

  function Expected(ps: seq<Param>): seq<Option<Param>> {
    if ps == [] then [] else Expected(ps[..|ps| - 1]) + [Some(ps[|ps| - 1])]
  }

  function AsMap(ps: seq<Param>): map<string, string> {
    if ps == [] then map[] else AsMap(ps[..|ps| - 1])[ps[|ps| - 1].key := ps[|ps| - 1].value]
  }

  predicate Well(ps: seq<Param>, pads: seq<string>) {
    |pads| == |ps| && forall i :: 0 <= i < |ps| ==> PlainKey(ps[i].key) && AllSpaces(pads[i])
  }

  /** What the proof needs of the reading of a part. */
  ghost predicate Reads(read: string -> Option<Param>) {
    && (forall pad, p: Param :: AllSpaces(pad) && PlainKey(p.key) ==> (read(pad + Quoted(p)) == Some(p) <==> EdgesKept(p.value)))
    && (forall part :: read(part).Some? ==> |read(part).value.value| < |part|)
    && (forall y, pad, p: Param :: PlainKey(p.key) ==> read(y + [','] + (pad + Quoted(p))) != Some(p))
  }

  lemma PartsAreRead()
    ensures Reads(ParamIn)
  {
    var read := ParamIn;
    forall pad, p: Param | AllSpaces(pad) && PlainKey(p.key)
      ensures read(pad + Quoted(p)) == Some(p) <==> EdgesKept(p.value)
    {
      ParamQuoted(pad, p);
    }
    forall part | read(part).Some?
      ensures |read(part).value.value| < |part|
    {
      PartShort(part);
    }
    forall y, pad, p: Param | PlainKey(p.key)
      ensures read(y + [','] + (pad + Quoted(p))) != Some(p)
    {
      LongPart(y, pad, p);
    }
  }

  /** A last part that was not cut exactly before the last parameter is not read as that parameter. */
  lemma WrongCut(read: string -> Option<Param>, front: string, pad: string, p: Param, i: int)
    requires Reads(read) && AllSpaces(pad) && PlainKey(p.key)
    requires var s := front + [','] + (pad + Quoted(p)); -1 <= i < |s| && (0 <= i ==> s[i] == ',') && i != |front|
    ensures var s := front + [','] + (pad + Quoted(p)); read(s[i + 1..]) != Some(p)
  {
    var part := pad + Quoted(p);
    var s := front + [','] + part;
    var last := s[i + 1..];
    if i < |front| {
      assert last == front[i + 1..] + [','] + part;
    } else {
      HeadOf(pad, p);
      var head := Head(pad, p);
      assert part[i - |front| - 1] == ',';
      assert i - |front| - 1 > |head|;
    }
  }

  /** One parameter by itself. */
  lemma OneReadIff(read: string -> Option<Param>, pad: string, p: Param)
    requires Reads(read) && AllSpaces(pad) && PlainKey(p.key)
    ensures ReadAll(read, Parts(pad + Quoted(p))) == [Some(p)] <==> Intact(p.value)
  {
    var part := pad + Quoted(p);
    PartWhole(pad, p);
    WholeIsOnePart(part);
    ReadAllCount(read, Parts(part));
    if Whole(part) {
      ReadAllMore(read, [], part);
      assert [] + [part] == Parts(part);
      assert ReadAll(read, Parts(part)) == [read(part)];
    } else {
      assert |Parts(part)| > 1;
    }
  }

  lemma {:induction false} ReadAllCount(read: string -> Option<Param>, parts: seq<string>)
    ensures |ReadAll(read, parts)| == |parts|
  {
    if parts != [] {
      ReadAllCount(read, parts[..|parts| - 1]);
    }
  }

  lemma {:induction false} ExpectedCount(ps: seq<Param>)
    ensures |Expected(ps)| == |ps|
  {
    if ps != [] {
      ExpectedCount(ps[..|ps| - 1]);
    }
  }

  /** One parameter more: the list is read back iff the list before it is, no quote is open before the comma,
      and the value is intact. */
  lemma MoreReadIff(read: string -> Option<Param>, front: string, pad: string, p: Param, before: seq<Option<Param>>)
    requires Reads(read) && AllSpaces(pad) && PlainKey(p.key) && before != []
    ensures ReadAll(read, Parts(front + [','] + (pad + Quoted(p)))) == before + [Some(p)]
            <==> ReadAll(read, Parts(front)) == before && !InQuotes(front) && Intact(p.value)
  {
    var part := pad + Quoted(p);
    var s := front + [','] + part;
    var i := LastSeparator(s, |s|);
    PartWhole(pad, p);
    LastCommaIff(front, part);
    PartsCut(s);
    assert s[..|front|] == front;
    MoreReadFrom(read, front, pad, p, before, i, Parts(s), if i < 0 then [] else Parts(s[..i]), Parts(front));
  }

  /** The same, of a text cut at position i into some parts. */
  lemma MoreReadFrom(read: string -> Option<Param>, front: string, pad: string, p: Param, before: seq<Option<Param>>,
                     i: int, parts: seq<string>, cut: seq<string>, frontParts: seq<string>)
    requires Reads(read) && AllSpaces(pad) && PlainKey(p.key) && before != []
    requires var s := front + [','] + (pad + Quoted(p));
             && -1 <= i < |s| && (0 <= i ==> s[i] == ',')
             && (if i < 0 then |parts| == 1 else parts == cut + [s[i + 1..]])
             && (i == |front| ==> cut == frontParts)
             && (i == |front| <==> !InQuotes(front) && CommasKept(p.value))
    ensures ReadAll(read, parts) == before + [Some(p)] <==> ReadAll(read, frontParts) == before && !InQuotes(front) && Intact(p.value)
  {
    var part := pad + Quoted(p);
    var s := front + [','] + part;
    if i < 0 {
      ReadAllCount(read, parts);
    } else {
      MoreRead(read, cut, s[i + 1..], before, p);
      if i == |front| {
        assert s[i + 1..] == part;
      } else {
        WrongCut(read, front, pad, p, i);
      }
    }
  }

  lemma MoreRead(read: string -> Option<Param>, parts: seq<string>, last: string, before: seq<Option<Param>>, p: Param)
    ensures ReadAll(read, parts + [last]) == before + [Some(p)] <==> ReadAll(read, parts) == before && read(last) == Some(p)
  {
    ReadAllMore(read, parts, last);
    var x, y := ReadAll(read, parts) + [read(last)], before + [Some(p)];
    if x == y {
      assert x[..|x| - 1] == ReadAll(read, parts) && y[..|y| - 1] == before;
      assert x[|x| - 1] == y[|y| - 1];
    }
  }

  lemma ReadAllMore(read: string -> Option<Param>, parts: seq<string>, part: string)
    ensures ReadAll(read, parts + [part]) == ReadAll(read, parts) + [read(part)]
  {
    assert (parts + [part])[..|parts|] == parts;
  }

  /** The first k parameters are read back. */
  predicate ReadBack(ps: seq<Param>, pads: seq<string>, k: nat)
    requires |pads| == |ps| && k <= |ps|
  {
    ReadAll(ParamIn, Parts(Printed(ps[..k], pads[..k]))) == Expected(ps[..k])
  }

  /** No quote is open after the first k parameters. */
  predicate Closed(ps: seq<Param>, pads: seq<string>, k: nat)
    requires |pads| == |ps| && k <= |ps|
  {
    !InQuotes(Printed(ps[..k], pads[..k]))
  }

  lemma PrintedMore(ps: seq<Param>, pads: seq<string>, k: nat)
    requires |pads| == |ps| && 0 < k < |ps|
    ensures Printed(ps[..k + 1], pads[..k + 1]) == Printed(ps[..k], pads[..k]) + [','] + (pads[k] + Quoted(ps[k]))
    ensures Expected(ps[..k + 1]) == Expected(ps[..k]) + [Some(ps[k])]
  {
    assert ps[..k + 1][..k] == ps[..k] && pads[..k + 1][..k] == pads[..k];
  }

  lemma PrintedOne(ps: seq<Param>, pads: seq<string>)
    requires |pads| == |ps| > 0
    ensures Printed(ps[..1], pads[..1]) == pads[0] + Quoted(ps[0])
    ensures Expected(ps[..1]) == [Some(ps[0])]
  {
    assert ps[..1][..0] == [];
    assert Expected(ps[..1]) == [] + [Some(ps[0])];
  }

  lemma FirstReadBack(ps: seq<Param>, pads: seq<string>)
    requires |pads| == |ps| > 0 && PlainKey(ps[0].key) && AllSpaces(pads[0])
    ensures ReadBack(ps, pads, 1) <==> Intact(ps[0].value)
    ensures Closed(ps, pads, 1) <==> !InQuotes(ps[0].value)
  {
    PrintedOne(ps, pads);
    PartsAreRead();
    OneReadIff(ParamIn, pads[0], ps[0]);
    PartQuotes(pads[0], ps[0]);
  }

  lemma NextReadBack(ps: seq<Param>, pads: seq<string>, k: nat)
    requires |pads| == |ps| && 0 < k < |ps| && PlainKey(ps[k].key) && AllSpaces(pads[k])
    ensures ReadBack(ps, pads, k + 1) <==> ReadBack(ps, pads, k) && Closed(ps, pads, k) && Intact(ps[k].value)
    ensures Closed(ps, pads, k + 1) <==> Closed(ps, pads, k) == !InQuotes(ps[k].value)
  {
    var front := Printed(ps[..k], pads[..k]);
    PrintedMore(ps, pads, k);
    ExpectedCount(ps[..k]);
    PartQuotes(pads[k], ps[k]);
    CommaParity(front, pads[k] + Quoted(ps[k]));
    NextRead(front, pads[k], ps[k], Expected(ps[..k]));
  }

  lemma NextRead(front: string, pad: string, p: Param, before: seq<Option<Param>>)
    requires AllSpaces(pad) && PlainKey(p.key) && before != []
    ensures ReadAll(ParamIn, Parts(front + [','] + (pad + Quoted(p)))) == before + [Some(p)]
            <==> ReadAll(ParamIn, Parts(front)) == before && !InQuotes(front) && Intact(p.value)
  {
    PartsAreRead();
    MoreReadIff(ParamIn, front, pad, p, before);
  }

  /** The first k values are intact, and all of them but the last have an even number of quotes. */
  predicate SurvivesTo(ps: seq<Param>, k: nat)
    requires k <= |ps|
  {
    && (forall i :: 0 <= i < k ==> Intact(ps[i].value))
    && (forall i :: 0 <= i < k - 1 ==> !InQuotes(ps[i].value))
  }

  /** The pattern of the induction: r says that k values are read back, c that no quote is open. */
  ghost predicate Pattern(ps: seq<Param>, r: nat -> bool, c: nat -> bool) {
    && ps != []
    && (r(1) <==> Intact(ps[0].value)) && (c(1) <==> !InQuotes(ps[0].value))
    && forall k: nat :: 0 < k < |ps| ==>
         && (r(k + 1) <==> r(k) && c(k) && Intact(ps[k].value))
         && (c(k + 1) <==> c(k) == !InQuotes(ps[k].value))
  }

  lemma {:induction false} PatternHolds(ps: seq<Param>, r: nat -> bool, c: nat -> bool, k: nat)
    requires Pattern(ps, r, c) && 0 < k <= |ps|
    ensures r(k) <==> SurvivesTo(ps, k)
    ensures SurvivesTo(ps, k) ==> (c(k) <==> !InQuotes(ps[k - 1].value))
  {
    if k > 1 {
      PatternHolds(ps, r, c, k - 1);
      assert r(k - 1 + 1) <==> r(k - 1) && c(k - 1) && Intact(ps[k - 1].value);
    }
  }

  lemma PatternOf(ps: seq<Param>, pads: seq<string>, r: nat -> bool, c: nat -> bool)
    requires Well(ps, pads) && ps != []
    requires forall k: nat :: k <= |ps| ==> (r(k) <==> ReadBack(ps, pads, k)) && (c(k) <==> Closed(ps, pads, k))
    ensures Pattern(ps, r, c)
  {
    FirstReadBack(ps, pads);
    forall k: nat | 0 < k < |ps|
      ensures r(k + 1) <==> r(k) && c(k) && Intact(ps[k].value)
      ensures c(k + 1) <==> c(k) == !InQuotes(ps[k].value)
    {
      NextReadBack(ps, pads, k);
    }
  }

  lemma AllReadBack(ps: seq<Param>, pads: seq<string>)
    requires |pads| == |ps|
    ensures ReadBack(ps, pads, |ps|) <==> ReadAll(ParamIn, Parts(Printed(ps, pads))) == Expected(ps)
  {
    assert ps[..|ps|] == ps && pads[..|ps|] == pads;
  }

  lemma AllReadBackIff(ps: seq<Param>, pads: seq<string>)
    requires Well(ps, pads) && ps != []
    ensures ReadBack(ps, pads, |ps|) <==> SurvivesTo(ps, |ps|)
  {
    var r := (k: nat) => k <= |ps| && ReadBack(ps, pads, k);
    var c := (k: nat) => k <= |ps| && Closed(ps, pads, k);
    PatternOf(ps, pads, r, c);
    PatternHolds(ps, r, c, |ps|);
  }

  /** A challenge of printed parameters is read back parameter by parameter, in order, iff no value has a quote
      at either end or a comma behind an odd number of quotes, and all values but the last have an even
      number of quotes. */
  lemma ReadBackIff(ps: seq<Param>, pads: seq<string>)
    requires Well(ps, pads) && ps != []
    ensures ReadAll(ParamIn, Parts(Printed(ps, pads))) == Expected(ps) <==> SurvivesTo(ps, |ps|)
  {
    AllReadBack(ps, pads);
    AllReadBackIff(ps, pads);
  }

  /** Then the parse is the map of the parameters, a repeated key having its last value. */
  lemma ParsesBack(ps: seq<Param>, pads: seq<string>)
    requires Well(ps, pads) && SurvivesTo(ps, |ps|)
    ensures Parsed(Printed(ps, pads)) == AsMap(ps)
  {
    if ps == [] {
      NothingRead();
    } else {
      ReadBackIff(ps, pads);
      CollectedOf(ParamIn, Parts(Printed(ps, pads)), ps);
    }
  }

  lemma NothingRead()
    ensures Parsed("") == map[]
  {
    assert Parts("") == [""];
    assert ParamIn("").None?;
  }

  lemma {:induction false} CollectedOf(read: string -> Option<Param>, parts: seq<string>, ps: seq<Param>)
    requires ReadAll(read, parts) == Expected(ps)
    ensures Collected(read, parts) == AsMap(ps)
  {
    ReadAllCount(read, parts);
    ExpectedCount(ps);
    if ps != [] {
      var n := |ps| - 1;
      var last, expected := [read(parts[n])], [Some(ps[n])];
      ReadAllCount(read, parts[..n]);
      ExpectedCount(ps[..n]);
      assert ReadAll(read, parts)[..n] == ReadAll(read, parts[..n]);
      assert Expected(ps)[..n] == Expected(ps[..n]);
      CollectedOf(read, parts[..n], ps[..n]);
      assert ReadAll(read, parts)[n] == read(parts[n]) && Expected(ps)[n] == Some(ps[n]);
    }
  }

  /** Values without any quote survive: their commas, equals signs and edge spaces are kept. */
  lemma QuoteFreeSurvives(ps: seq<Param>)
    requires forall i :: 0 <= i < |ps| ==> '"' !in ps[i].value
    ensures SurvivesTo(ps, |ps|)
  {
    forall i | 0 <= i < |ps|
      ensures Intact(ps[i].value) && !InQuotes(ps[i].value)
    {
      var v := ps[i].value;
      NoQuotes(v);
      forall j | 0 <= j < |v|
        ensures !InQuotes(v[..j])
      {
        NoQuotes(v[..j]);
      }
      assert v != "" ==> v[0] in v && v[|v| - 1] in v;
    }
  }

  /** With distinct keys the map is exactly the list of parameters. */
  lemma {:induction false} AsMapOfDistinct(ps: seq<Param>)
    requires forall i, j :: 0 <= i < j < |ps| ==> ps[i].key != ps[j].key
    ensures forall k, v :: (k in AsMap(ps) && AsMap(ps)[k] == v) <==> Param(k, v) in ps
  {
    if ps != [] {
      var n := |ps| - 1;
      AsMapOfDistinct(ps[..n]);
      assert ps == ps[..n] + [ps[n]];
      assert forall v :: Param(ps[n].key, v) !in ps[..n];
    }
  }

  /** Parameter i is the last of its key. */
  ghost predicate LastOfKey(ps: seq<Param>, i: nat, k: string, v: string) {
    i < |ps| && ps[i] == Param(k, v) && forall j :: i < j < |ps| ==> ps[j].key != k
  }

  /** Of several parameters of one key the last counts. */
  lemma {:induction false} AsMapLast(ps: seq<Param>, k: string, v: string)
    ensures k in AsMap(ps) && AsMap(ps)[k] == v <==> exists i: nat :: LastOfKey(ps, i, k, v)
  {
    if ps != [] {
      var n := |ps| - 1;
      AsMapLast(ps[..n], k, v);
      if ps[n].key == k {
        assert LastOfKey(ps, n, k, ps[n].value);
      } else {
        forall i: nat
          ensures LastOfKey(ps, i, k, v) <==> LastOfKey(ps[..n], i, k, v)
        {
        }
      }
    }
  }

  // ----- one parameter, as a map --------------------------------------------------------------------

  /** No value is as long as m. */
  predicate Short(values: map<string, string>, m: nat) {
    forall k :: k in values ==> |values[k]| < m
  }

  ghost predicate ReadsShort(read: string -> Option<Param>, k: string) {
    && (forall part :: read(part).Some? ==> |read(part).value.value| < |part|)
    && (forall x :: read(Opened(k, x)).Some? ==> |read(Opened(k, x)).value.value| <= |x|)
  }

  lemma PartsAreShort(k: string)
    requires PlainKey(k)
    ensures ReadsShort(ParamIn, k)
  {
    var read := ParamIn;
    forall part | read(part).Some?
      ensures |read(part).value.value| < |part|
    {
      PartShort(part);
    }
    forall x | read(Opened(k, x)).Some?
      ensures |read(Opened(k, x)).value.value| <= |x|
    {
      CutPartShort(k, x);
    }
  }

  lemma CommaInValue(k: string, x: string, i: nat)
    requires PlainKey(k) && i < |Opened(k, x)| && Opened(k, x)[i] == ','
    ensures |k| + 2 <= i && x[i - |k| - 2] == ','
  {
    var h := k + ['=', '"'];
    assert ',' !in h;
    assert Opened(k, x) == h + x;
  }

  /** Reading a text that a cut has left, up to any comma inside the value, gives only values shorter than
      what precedes the cut. */
  lemma {:induction false} CutShort(read: string -> Option<Param>, k: string, x: string)
    requires PlainKey(k) && ReadsShort(read, k)
    ensures Short(Collected(read, Parts(Opened(k, x))), |x| + 1)
    decreases |x|
  {
    var s := Opened(k, x);
    var i := LastSeparator(s, |s|);
    if i < 0 {
      assert Parts(s) == [s];
      CollectedShort(read, [], s, |x| + 1);
      assert [] + [s] == [s];
    } else {
      var j := i - |k| - 2;
      CommaInValue(k, x, i);
      assert s[..i] == Opened(k, x[..j]);
      CutShort(read, k, x[..j]);
      CollectedShort(read, Parts(s[..i]), s[i + 1..], |x| + 1);
    }
  }

  lemma CollectedShort(read: string -> Option<Param>, parts: seq<string>, part: string, m: nat)
    requires Short(Collected(read, parts), m) && (read(part).Some? ==> |read(part).value.value| < m)
    ensures Short(Collected(read, parts + [part]), m)
  {
    assert (parts + [part])[..|parts|] == parts;
  }

  lemma CutInValue(p: Param, i: nat)
    requires PlainKey(p.key) && i < |Quoted(p)| && Quoted(p)[i] == ','
    ensures var j := i - |p.key| - 2; 0 <= j < |p.value| && Quoted(p)[..i] == Opened(p.key, p.value[..j])
  {
    assert Quoted(p) == Opened(p.key, p.value + ['"']);
    CommaInValue(p.key, p.value + ['"'], i);
  }

  /** A value cut at a comma is lost: whatever the pieces are read as, nothing is as long. */
  lemma CutValueLost(read: string -> Option<Param>, p: Param)
    requires PlainKey(p.key) && ReadsShort(read, p.key) && !Whole(Quoted(p))
    ensures Short(Collected(read, Parts(Quoted(p))), |p.value|)
  {
    var s := Quoted(p);
    WholeIsOnePart(s);
    var i := LastSeparator(s, |s|);
    var j := i - |p.key| - 2;
    CutInValue(p, i);
    PartsCut(s);
    CutShort(read, p.key, p.value[..j]);
    CollectedShort(read, Parts(s[..i]), s[i + 1..], |p.value|);
  }

  lemma OneCollected(read: string -> Option<Param>, s: string, p: Param)
    requires Parts(s) == [s]
    ensures Collected(read, Parts(s)) == map[p.key := p.value] <==> read(s) == Some(p)
  {
    var parts := Parts(s);
    var m := Collected(read, parts);
    assert parts[..|parts| - 1] == [] && parts[|parts| - 1] == s;
    assert Collected(read, parts[..|parts| - 1]) == map[];
    assert m == With(map[], read(s));
    if m == map[p.key := p.value] {
      assert p.key in m && m[p.key] == p.value;
    }
  }

  /** For one parameter, with any key in normal form and any value at all: it comes back iff its value has no
      quote at either end and no comma behind an odd number of quotes. */
  lemma ValueKept(key: string, value: string)
    requires PlainKey(key)
    ensures Parsed(Quoted(Param(key, value))) == map[key := value] <==> Intact(value)
  {
    var p := Param(key, value);
    var s, read := Quoted(p), ParamIn;
    assert "" + s == s;
    PartWhole("", p);
    if Whole(s) {
      WholeIsOnePart(s);
      OneCollected(read, s, p);
      assert read(s) == Some(p) <==> EdgesKept(value) by {
        ParamQuoted("", p);
      }
    } else {
      PartsAreShort(key);
      CutValueLost(read, p);
      assert key in map[key := value] && |map[key := value][key]| == |value|;
    }
  }
}
