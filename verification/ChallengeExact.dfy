/** For distinct keys, the map that parsing returns is the one that was printed only if every parameter was
    read back from its own part. */
module ChallengeExact {
  import opened Text
  import opened Challenge
  import opened ChallengeRoundTrip

  // ----- parts joined -------------------------------------------------------------------------------

  function Join(parts: seq<string>): string
    requires parts != []
  {
    var n := |parts| - 1;
    if n == 0 then parts[0] else Join(parts[..n]) + [','] + parts[n]
  }

  lemma {:induction false} PartsJoined(s: string)
    ensures Join(Parts(s)) == s
    decreases |s|
  {
    PartsCut(s);
    var i := LastSeparator(s, |s|);
    if i >= 0 {
      PartsJoined(s[..i]);
      JoinMore(Parts(s[..i]), s[i + 1..]);
      CutText(s, i);
    } else {
      WholeIsOnePart(s);
    }
  }

  lemma CutText(s: string, i: nat)
    requires i < |s| && s[i] == ','
    ensures s == s[..i] + [','] + s[i + 1..]
  {
  }

  lemma JoinMore(parts: seq<string>, part: string)
    requires parts != []
    ensures Join(parts + [part]) == Join(parts) + [','] + part
  {
    assert (parts + [part])[..|parts|] == parts;
  }

  lemma {:induction false} JoinLeft(first: string, rest: seq<string>)
    requires rest != []
    ensures Join([first] + rest) == first + [','] + Join(rest)
  {
    var n := |rest| - 1;
    var last := rest[n];
    if n == 0 {
      assert [first] + rest == [first] + [last];
      JoinMore([first], last);
    } else {
      assert [first] + rest == ([first] + rest[..n]) + [last];
      JoinMore([first] + rest[..n], last);
      JoinLeft(first, rest[..n]);
      assert first + [','] + Join(rest[..n]) + [','] + last == first + [','] + (Join(rest[..n]) + [','] + last);
    }
  }

  /** The parts that a list is printed as. */
  function Pieces(ps: seq<Param>, pads: seq<string>): (r: seq<string>)
    requires |pads| == |ps|
    ensures |r| == |ps|
    ensures forall i :: 0 <= i < |ps| ==> r[i] == pads[i] + Quoted(ps[i])
  {
    seq(|ps|, i requires 0 <= i < |ps| => pads[i] + Quoted(ps[i]))
  }

  lemma {:induction false} PrintedIsJoined(ps: seq<Param>, pads: seq<string>)
    requires |pads| == |ps| > 0
    ensures Printed(ps, pads) == Join(Pieces(ps, pads))
  {
    var n := |ps| - 1;
    if n > 0 {
      PrintedIsJoined(ps[..n], pads[..n]);
      assert Pieces(ps, pads)[..n] == Pieces(ps[..n], pads[..n]);
    }
  }

  // ----- counting commas ----------------------------------------------------------------------------

  function CommasIn(parts: seq<string>): nat {
    if parts == [] then 0 else CommasIn(parts[..|parts| - 1]) + Count(parts[|parts| - 1], ',')
  }

  function ValueCommas(ps: seq<Param>): nat {
    if ps == [] then 0 else ValueCommas(ps[..|ps| - 1]) + Count(ps[|ps| - 1].value, ',')
  }

  lemma {:induction false} JoinedCommas(parts: seq<string>)
    requires parts != []
    ensures Count(Join(parts), ',') == CommasIn(parts) + |parts| - 1
  {
    var n := |parts| - 1;
    if n == 0 {
      assert CommasIn(parts[..0]) == 0;
    } else {
      JoinedCommas(parts[..n]);
      CountConcat(Join(parts[..n]) + [','], parts[n], ',');
      CountConcat(Join(parts[..n]), [','], ',');
      OneComma();
    }
  }

  lemma OneComma()
    ensures Count([','], ',') == 1
  {
    assert [','][1..] == "";
  }

  lemma PieceCommas(pad: string, p: Param)
    requires AllSpaces(pad) && PlainKey(p.key)
    ensures Count(pad + Quoted(p), ',') == Count(p.value, ',')
  {
    var head := Head(pad, p) + ['"'];
    HeadOf(pad, p);
    CountAbsent(head, ',');
    CountAbsent(['"'], ',');
    CountConcat(head + p.value, ['"'], ',');
    CountConcat(head, p.value, ',');
  }

  lemma {:induction false} PiecesCommas(ps: seq<Param>, pads: seq<string>)
    requires Well(ps, pads)
    ensures CommasIn(Pieces(ps, pads)) == ValueCommas(ps)
  {
    if ps != [] {
      var n := |ps| - 1;
      PiecesCommas(ps[..n], pads[..n]);
      assert Pieces(ps, pads)[..n] == Pieces(ps[..n], pads[..n]);
      PieceCommas(pads[n], ps[n]);
    }
  }

  lemma InnerCommas(a: string, t: string, b: string)
    ensures Count(t, ',') <= Count(a + t + b, ',')
  {
    CountConcat(a + t, b, ',');
    CountConcat(a, t, ',');
  }

  lemma SliceCommas(s: string, i: nat, j: nat)
    requires i <= j <= |s|
    ensures Count(s[i..j], ',') <= Count(s, ',')
  {
    assert s == s[..i] + s[i..j] + s[j..];
    InnerCommas(s[..i], s[i..j], s[j..]);
  }

  lemma TrimSpaceCommas(s: string)
    ensures Count(TrimSpace(s), ',') <= Count(s, ',')
  {
    var l := TrimLeft(s);
    SliceCommas(s, Leading(s, 0), |s|);
    assert s[Leading(s, 0)..|s|] == l;
    SliceCommas(l, 0, Trailing(l, |l|));
    assert l[0..Trailing(l, |l|)] == TrimRight(l);
  }

  lemma {:induction false} UnquoteLeftCommas(s: string)
    ensures Count(UnquoteLeft(s), ',') <= Count(s, ',')
  {
    if s != "" && s[0] == '"' {
      UnquoteLeftCommas(s[1..]);
    }
  }

  lemma {:induction false} UnquoteRightCommas(s: string)
    ensures Count(UnquoteRight(s), ',') <= Count(s, ',')
  {
    var t := UnquoteRight(s);
    SliceCommas(s, 0, |t|);
    assert s[0..|t|] == t;
  }

  /** A value has no more commas than the part it is read from. */
  lemma PartCommas(part: string)
    ensures ParamIn(part).Some? ==> Count(ParamIn(part).value.value, ',') <= Count(part, ',')
  {
    TrimSpaceCommas(part);
    TrimmedPartCommas(TrimSpace(part));
  }

  lemma TrimmedPartCommas(s: string)
    ensures ParamOf(s).Some? ==> Count(ParamOf(s).value.value, ',') <= Count(s, ',')
  {
    var eq := IndexOf(s, '=');
    if eq >= 0 {
      BehindCommas(s, eq + 1);
      ValueCommasKept(s[eq + 1..]);
    }
  }

  lemma BehindCommas(s: string, i: nat)
    requires i <= |s|
    ensures Count(s[i..], ',') <= Count(s, ',')
  {
    SliceCommas(s, i, |s|);
    assert s[i..|s|] == s[i..];
  }

  lemma ValueCommasKept(v: string)
    ensures Count(ValueOf(v), ',') <= Count(v, ',')
  {
    var t := TrimSpace(v);
    TrimSpaceCommas(v);
    UnquoteLeftCommas(t);
    UnquoteRightCommas(UnquoteLeft(t));
  }

  // ----- every part is needed -----------------------------------------------------------------------

  ghost predicate DistinctKeys(ps: seq<Param>) {
    forall i, j :: 0 <= i < j < |ps| ==> ps[i].key != ps[j].key
  }

  /** The list's parameters are entries of the map. */
  predicate Entries(ps: seq<Param>, m: map<string, string>) {
    forall i :: 0 <= i < |ps| ==> ps[i].key in m && m[ps[i].key] == ps[i].value
  }

  lemma HasEntry(ps: seq<Param>, m: map<string, string>)
    requires Entries(ps, m)
    ensures ps != [] ==> ps[0].key in m
  {
  }

  function Without(ps: seq<Param>, i: nat): seq<Param>
    requires i < |ps|
  {
    ps[..i] + ps[i + 1..]
  }

  lemma {:induction false} WithoutCommas(ps: seq<Param>, i: nat)
    requires i < |ps|
    ensures ValueCommas(ps) == ValueCommas(Without(ps, i)) + Count(ps[i].value, ',')
  {
    var n := |ps| - 1;
    if i == n {
      assert Without(ps, i) == ps[..n];
    } else {
      WithoutCommas(ps[..n], i);
      var w := Without(ps, i);
      assert w[..|w| - 1] == Without(ps[..n], i) && w[|w| - 1] == ps[n];
    }
  }

  /** A way of reading parts that invents no commas. */
  ghost predicate InventsNone(read: string -> Option<Param>) {
    forall part :: read(part).Some? ==> Count(read(part).value.value, ',') <= Count(part, ',')
  }

  /** Every part is read as a parameter of the list. */
  ghost predicate AllRead(read: string -> Option<Param>, parts: seq<string>, ps: seq<Param>) {
    forall i :: 0 <= i < |parts| ==> read(parts[i]).Some? && read(parts[i]).value in ps
  }

  /** Parameters of distinct keys need a part each; if there are no more parts, all are read as one of them. */
  lemma {:induction false} EachNeedsAPart(read: string -> Option<Param>, parts: seq<string>, ps: seq<Param>)
    requires InventsNone(read) && DistinctKeys(ps) && Entries(ps, Collected(read, parts))
    ensures |ps| <= |parts| && ValueCommas(ps) <= CommasIn(parts)
    ensures |ps| == |parts| ==> AllRead(read, parts, ps)
    decreases |parts|
  {
    if parts == [] {
      HasEntry(ps, Collected(read, parts));
      assert ps == [];
    } else {
      var front, last := parts[..|parts| - 1], read(parts[|parts| - 1]);
      if i: nat :| i < |ps| && last == Some(ps[i]) {
        WithoutCommas(ps, i);
        OthersBefore(Collected(read, front), ps, i);
        EachNeedsAPart(read, front, Without(ps, i));
        if |ps| == |parts| {
          AllReadMore(read, parts, Without(ps, i), ps);
        }
      } else {
        NoneOfThese(Collected(read, front), last, ps);
        EachNeedsAPart(read, front, ps);
      }
    }
  }

  lemma AllReadMore(read: string -> Option<Param>, parts: seq<string>, others: seq<Param>, ps: seq<Param>)
    requires parts != [] && AllRead(read, parts[..|parts| - 1], others) && forall p :: p in others ==> p in ps
    requires read(parts[|parts| - 1]).Some? && read(parts[|parts| - 1]).value in ps
    ensures AllRead(read, parts, ps)
  {
    var front := parts[..|parts| - 1];
    forall i | 0 <= i < |parts|
      ensures read(parts[i]).Some? && read(parts[i]).value in ps
    {
      if i < |front| {
        assert parts[i] == front[i];
      }
    }
  }

  lemma OthersBefore(m: map<string, string>, ps: seq<Param>, i: nat)
    requires DistinctKeys(ps) && i < |ps| && Entries(ps, With(m, Some(ps[i])))
    ensures DistinctKeys(Without(ps, i)) && Entries(Without(ps, i), m)
    ensures forall p :: p in Without(ps, i) ==> p in ps
  {
    var w := Without(ps, i);
    forall j | 0 <= j < |w|
      ensures w[j].key in m && m[w[j].key] == w[j].value
    {
      var k := if j < i then j else j + 1;
      assert w[j] == ps[k] && ps[k].key != ps[i].key;
    }
  }

  lemma NoneOfThese(m: map<string, string>, last: Option<Param>, ps: seq<Param>)
    requires Entries(ps, With(m, last)) && forall i :: 0 <= i < |ps| ==> last != Some(ps[i])
    ensures Entries(ps, m)
  {
    if last.Some? {
      assert With(m, last)[last.value.key] == last.value.value;
      assert last == Some(Param(last.value.key, last.value.value));
      assert forall i :: 0 <= i < |ps| ==> ps[i] == Param(ps[i].key, ps[i].value);
    }
  }

  // ----- every part is its own ----------------------------------------------------------------------

  /** A part that goes on behind a printed parameter is read with its key and another value. */
  lemma LongBehind(pad: string, p: Param, y: string)
    requires AllSpaces(pad) && PlainKey(p.key)
    ensures var r := ParamIn(pad + Quoted(p) + [','] + y); r.Some? && r.value.key == p.key && r.value.value != p.value
  {
    var q := ['"'] + p.value + ['"'];
    var y' := TrimRight(y);
    LongBehindTrimmed(pad, p, y);
    assert Quoted(p) + [','] + y' == p.key + ['='] + (q + [','] + y');
    ParamOfSplit(p.key, q + [','] + y');
    KeyKept(p.key);
    LongValueBehind(p.value, y');
  }

  lemma LongBehindTrimmed(pad: string, p: Param, y: string)
    requires AllSpaces(pad) && Trimmed(p.key)
    ensures TrimSpace(pad + Quoted(p) + [','] + y) == Quoted(p) + [','] + TrimRight(y)
  {
    var t := Quoted(p) + [','] + y;
    assert pad + Quoted(p) + [','] + y == pad + t;
    assert t[0] == if p.key == "" then '=' else p.key[0];
    TrimLeftOnly(pad, t);
    TrimRightBehind(Quoted(p), ',', y);
  }

  lemma {:induction false} TrimLeftOnly(pad: string, t: string)
    requires AllSpaces(pad) && t != "" && !IsSpace(t[0])
    ensures TrimLeft(pad + t) == t
  {
    if pad == "" {
      assert pad + t == t;
    } else {
      assert (pad + t)[1..] == pad[1..] + t;
      TrimLeftMore(pad + t);
      TrimLeftOnly(pad[1..], t);
    }
  }

  lemma LongValueBehind(v: string, y: string)
    ensures ValueOf(['"'] + v + ['"'] + [','] + y) != v
  {
    var q := ['"'] + v + ['"'];
    var y' := TrimRight(y);
    TrimRightBehind(q, ',', y);
    assert TrimLeft(q + [','] + y) == q + [','] + y;
    if EdgesKept(v) {
      UnquoteLongBehind(v, y');
    }
  }

  lemma UnquoteLongBehind(v: string, y: string)
    requires EdgesKept(v)
    ensures |Unquote(['"'] + v + ['"'] + [','] + y)| > |v|
  {
    var s := ['"'] + v + ['"'] + [','] + y;
    var t := v + ['"'] + [','] + y;
    assert s[1..] == t;
    assert UnquoteLeft(s) == UnquoteLeft(t);
    if v == "" {
      assert t == ['"'] + [','] + y && t[1..] == [] + [','] + y;
      assert UnquoteLeft(t) == [] + [','] + y;
      UnquoteRightBehind([], ',', y);
    } else {
      assert UnquoteLeft(t) == t;
      UnquoteRightBehind(v + ['"'], ',', y);
    }
  }

  /** A part cut off inside a printed parameter is read with its key and a shorter value. */
  lemma ShortBefore(pad: string, p: Param, i: nat)
    requires AllSpaces(pad) && PlainKey(p.key) && i < |pad + Quoted(p)| && (pad + Quoted(p))[i] == ','
    ensures var r := ParamIn((pad + Quoted(p))[..i]); r.Some? && r.value.key == p.key && r.value.value != p.value
  {
    var j := i - |pad|;
    assert '"' !in pad && ',' !in pad;
    assert j >= 0;
    assert Quoted(p)[j] == ',';
    CutInValue(p, j);
    var x := p.value[..j - |p.key| - 2];
    assert (pad + Quoted(p))[..i] == pad + Opened(p.key, x);
    OpenedPadded(pad, p.key, x);
    OpenedRead(p.key, TrimRight(x));
    KeyKept(p.key);
    CutValueShort(TrimRight(x));
  }

  lemma OpenedPadded(pad: string, k: string, x: string)
    requires AllSpaces(pad) && Trimmed(k)
    ensures TrimSpace(pad + Opened(k, x)) == Opened(k, TrimRight(x))
  {
    assert Opened(k, x)[0] == if k == "" then '=' else k[0];
    TrimLeftOnly(pad, Opened(k, x));
    TrimRightBehind(k + ['='], '"', x);
  }

  /** The part ends elsewhere than the piece with which it begins. */
  predicate Strays(part: string, own: string) {
    || (|part| < |own| && part == own[..|part|] && own[|part|] == ',')
    || (|own| < |part| && own == part[..|own|] && part[|own|] == ',')
  }

  lemma StrayRead(part: string, pad: string, p: Param)
    requires AllSpaces(pad) && PlainKey(p.key) && Strays(part, pad + Quoted(p))
    ensures var r := ParamIn(part); r.Some? && r.value.key == p.key && r.value.value != p.value
  {
    var own := pad + Quoted(p);
    if |part| < |own| {
      ShortBefore(pad, p, |part|);
    } else {
      var y := part[|own| + 1..];
      assert part == own + [','] + y;
      LongBehind(pad, p, y);
    }
  }

  /** Two ways of beginning one text before a comma: the same, or one of them strays. */
  lemma SameOrStrays(part: string, rest: string, own: string, rest': string)
    requires part + [','] + rest == own + [','] + rest'
    ensures Strays(part, own) || (part == own && rest == rest')
  {
    var s := part + [','] + rest;
    if |part| < |own| {
      assert part == s[..|part|] == own[..|part|] && own[|part|] == s[|part|];
    } else if |own| < |part| {
      assert own == s[..|own|] == part[..|own|] && part[|own|] == s[|own|];
    } else {
      assert part == s[..|part|] == own;
      assert rest == s[|part| + 1..] == rest';
    }
  }

  /** Parts that join to the same text as some pieces, as many as these and none straying from its piece, are
      the pieces. */
  lemma {:induction false} JoinedAlike(parts: seq<string>, pieces: seq<string>)
    requires |parts| == |pieces| > 0 && Join(parts) == Join(pieces)
    requires forall i :: 0 <= i < |parts| ==> !Strays(parts[i], pieces[i])
    ensures parts == pieces
  {
    assert parts == [parts[0]] + parts[1..] && pieces == [pieces[0]] + pieces[1..];
    if |parts| > 1 {
      JoinLeft(parts[0], parts[1..]);
      JoinLeft(pieces[0], pieces[1..]);
      SameOrStrays(parts[0], Join(parts[1..]), pieces[0], Join(pieces[1..]));
      JoinedAlike(parts[1..], pieces[1..]);
    }
  }

  ghost predicate KeysTell(all: seq<Param>) {
    forall q, q' :: q in all && q' in all && q.key == q'.key ==> q == q'
  }

  /** A part that is read as one of the parameters does not stray from any piece. */
  lemma ReadsNoStray(part: string, pad: string, p: Param, all: seq<Param>)
    requires AllSpaces(pad) && PlainKey(p.key) && p in all && KeysTell(all)
    requires ParamIn(part).Some? && ParamIn(part).value in all
    ensures !Strays(part, pad + Quoted(p))
  {
    if Strays(part, pad + Quoted(p)) {
      StrayRead(part, pad, p);
      assert false;
    }
  }

  /** Parts that join to the printed list, as many as it has parameters and each read as one of them, are its
      pieces. */
  lemma PartsAreOwn(parts: seq<string>, ps: seq<Param>, pads: seq<string>)
    requires |parts| == |ps| > 0 && Well(ps, pads) && Join(parts) == Join(Pieces(ps, pads))
    requires AllRead(ParamIn, parts, ps) && KeysTell(ps)
    ensures parts == Pieces(ps, pads)
  {
    var pieces := Pieces(ps, pads);
    forall i | 0 <= i < |parts|
      ensures !Strays(parts[i], pieces[i])
    {
      assert ps[i] in ps;
      ReadsNoStray(parts[i], pads[i], ps[i], ps);
    }
    JoinedAlike(parts, pieces);
  }

  // ----- the map ------------------------------------------------------------------------------------

  lemma {:induction false} KeysIdentify(ps: seq<Param>)
    requires DistinctKeys(ps)
    ensures KeysTell(ps)
  {
  }

  lemma NoCommasInvented()
    ensures InventsNone(ParamIn)
  {
    var read := ParamIn;
    forall part | read(part).Some?
      ensures Count(read(part).value.value, ',') <= Count(part, ',')
    {
      PartCommas(part);
    }
  }

  /** The commas leave no room for a part that is not needed. */
  lemma NoPartToSpare(ps: seq<Param>, pads: seq<string>)
    requires ps != [] && Well(ps, pads) && DistinctKeys(ps) && Parsed(Printed(ps, pads)) == AsMap(ps)
    ensures var parts := Parts(Printed(ps, pads)); |parts| == |ps| && AllRead(ParamIn, parts, ps)
  {
    var s := Printed(ps, pads);
    var parts, read := Parts(s), ParamIn;
    assert Entries(ps, Collected(read, parts)) by {
      AsMapOfDistinct(ps);
      assert forall i :: 0 <= i < |ps| ==> Param(ps[i].key, ps[i].value) in ps;
    }
    NoCommasInvented();
    EachNeedsAPart(read, parts, ps);
    PartsJoined(s);
    PrintedIsJoined(ps, pads);
    JoinedCommas(parts);
    JoinedCommas(Pieces(ps, pads));
    PiecesCommas(ps, pads);
  }

  lemma {:induction false} OwnPartsReadBack(parts: seq<string>, ps: seq<Param>, pads: seq<string>)
    requires Well(ps, pads) && parts == Pieces(ps, pads) && AllOwn(parts, ps)
    ensures ReadAll(ParamIn, parts) == Expected(ps)
  {
    if ps != [] {
      var n := |ps| - 1;
      assert Pieces(ps, pads)[..n] == Pieces(ps[..n], pads[..n]);
      OwnPartsReadBack(parts[..n], ps[..n], pads[..n]);
    }
  }

  /** Each part is read as the parameter at its position. */
  ghost predicate AllOwn(parts: seq<string>, ps: seq<Param>) {
    |parts| == |ps| && forall i :: 0 <= i < |ps| ==> ParamIn(parts[i]) == Some(ps[i])
  }

  lemma PieceKey(pad: string, p: Param)
    requires AllSpaces(pad) && PlainKey(p.key)
    ensures ParamIn(pad + Quoted(p)).Some? && ParamIn(pad + Quoted(p)).value.key == p.key
  {
    QuotedTrimmed(p);
    TrimSpacePadded(pad, Quoted(p));
    ParamOfSplit(p.key, ['"'] + p.value + ['"']);
    KeyKept(p.key);
  }

  lemma PiecesOwn(parts: seq<string>, ps: seq<Param>, pads: seq<string>)
    requires Well(ps, pads) && parts == Pieces(ps, pads) && DistinctKeys(ps) && AllRead(ParamIn, parts, ps)
    ensures AllOwn(parts, ps)
  {
    KeysIdentify(ps);
    forall i | 0 <= i < |ps|
      ensures ParamIn(parts[i]) == Some(ps[i])
    {
      PieceKey(pads[i], ps[i]);
      assert ps[i] in ps;
    }
  }

  /** The exact condition for the round trip: printed with distinct keys, a list of parameters parses to exactly
      its map iff no value has a quote at either end or a comma behind an odd number of quotes, and all
      values but the last have an even number of quotes. */
  lemma ParsesBackIff(ps: seq<Param>, pads: seq<string>)
    requires Well(ps, pads) && DistinctKeys(ps)
    ensures Parsed(Printed(ps, pads)) == AsMap(ps) <==> SurvivesTo(ps, |ps|)
  {
    if SurvivesTo(ps, |ps|) {
      ParsesBack(ps, pads);
    } else if Parsed(Printed(ps, pads)) == AsMap(ps) {
      var parts := Parts(Printed(ps, pads));
      NoPartToSpare(ps, pads);
      PartsJoined(Printed(ps, pads));
      PrintedIsJoined(ps, pads);
      KeysIdentify(ps);
      PartsAreOwn(parts, ps, pads);
      PiecesOwn(parts, ps, pads);
      OwnPartsReadBack(parts, ps, pads);
      ReadBackIff(ps, pads);
      assert false;
    }
  }
}
