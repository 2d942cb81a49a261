/** The parameters of a Bearer challenge (pull.go, parseChallenge): section 3 of RFC 6750, in the syntax of
    section 11.2 of RFC 9110. */
module Challenge {
  import opened Text

  // ----- one part -----------------------------------------------------------------------------------

  function Lower(c: char): char {
    if 'A' <= c <= 'Z' then c - 'A' + 'a' else c
  }

  /** strings.ToLower, on ASCII. */
  function ToLower(s: string): string {
    if s == "" then "" else [Lower(s[0])] + ToLower(s[1..])
  }

  function UnquoteLeft(s: string): (t: string)
    ensures |t| <= |s|
    ensures t == "" || t[0] != '"'
    ensures s == "" || s[0] != '"' ==> t == s
  {
    if s != "" && s[0] == '"' then UnquoteLeft(s[1..]) else s
  }

  function UnquoteRight(s: string): (t: string)
    ensures t == "" || t[|t| - 1] != '"'
    ensures s == "" || s[|s| - 1] != '"' ==> t == s
    ensures t <= s
  {
    if s != "" && s[|s| - 1] == '"' then UnquoteRight(s[..|s| - 1]) else s
  }

  /** strings.Trim of quotes. */
  function Unquote(s: string): (t: string)
    ensures |t| <= |s|
    ensures t == "" || (t[0] != '"' && t[|t| - 1] != '"')
  {
    UnquoteRight(UnquoteLeft(s))
  }

  datatype Param = Param(key: string, value: string)

  /** The parameter a part states; None without an equals sign. */
  function ParamIn(part: string): Option<Param> {
    ParamOf(TrimSpace(part))
  }

  function ParamOf(s: string): Option<Param> {
    match Cut(s, '=')
    case None => None
    case Some((k, v)) => Some(Param(KeyOf(k), ValueOf(v)))
  }

  function KeyOf(k: string): string {
    ToLower(TrimSpace(k))
  }

  function ValueOf(v: string): string {
    Unquote(TrimSpace(v))
  }

  /** What the parts state together; later parameters replace earlier ones of the same key. */
  function Collected(read: string -> Option<Param>, parts: seq<string>): map<string, string> {
    if parts == [] then map[] else With(Collected(read, parts[..|parts| - 1]), read(parts[|parts| - 1]))
  }

  function With(m: map<string, string>, p: Option<Param>): map<string, string> {
    match p
    case None => m
    case Some(p) => m[p.key := p.value]
  }

  // ----- the parts ----------------------------------------------------------------------------------

  /** Whether a quote is open at the end of the text. */
  predicate InQuotes(s: string) {
    s != "" && (InQuotes(s[..|s| - 1]) <==> s[|s| - 1] != '"')
  }

  /** A comma between parts: none of the quotes before it is open. */
  predicate Separates(s: string, i: nat)
    requires i < |s|
  {
    s[i] == ',' && !InQuotes(s[..i])
  }

  /** The last separating comma among the first n characters, or -1. */
  function LastSeparator(s: string, n: nat): (i: int)
    requires n <= |s|
    ensures -1 <= i < n
    ensures 0 <= i ==> Separates(s, i)
    ensures forall j :: i < j < n ==> !Separates(s, j)
  {
    if n == 0 then -1 else if Separates(s, n - 1) then n - 1 else LastSeparator(s, n - 1)
  }

  /** The text cut at every separating comma. */
  function Parts(s: string): (parts: seq<string>)
    ensures parts != []
  {
    var i := LastSeparator(s, |s|);
    if i < 0 then [s] else Parts(s[..i]) + [s[i + 1..]]
  }

  lemma {:induction false} InQuotesConcat(a: string, b: string)
    ensures InQuotes(a + b) <==> InQuotes(a) != InQuotes(b)
  {
    if b == "" {
      assert a + b == a;
    } else {
      assert (a + b)[..|a + b| - 1] == a + b[..|b| - 1];
      InQuotesConcat(a, b[..|b| - 1]);
    }
  }

  lemma {:induction false} NoQuotes(s: string)
    requires '"' !in s
    ensures !InQuotes(s)
  {
    if s != "" {
      NoQuotes(s[..|s| - 1]);
    }
  }

  /** A quote is open after an odd number of quotes. */
  lemma {:induction false} OddQuotes(s: string)
    ensures InQuotes(s) <==> Count(s, '"') % 2 == 1
  {
    if s != "" {
      OddQuotes(s[1..]);
      InQuotesConcat([s[0]], s[1..]);
      assert [s[0]] + s[1..] == s;
    }
  }

  lemma LastSeparatorUnique(s: string, i: int)
    requires -1 <= i < |s| && (0 <= i ==> Separates(s, i)) && forall j :: i < j < |s| ==> !Separates(s, j)
    ensures LastSeparator(s, |s|) == i
  {
  }

  lemma SeparatesInPrefix(s: string, n: nat, j: nat)
    requires j < n <= |s|
    ensures Separates(s[..n], j) <==> Separates(s, j)
  {
    assert s[..n][..j] == s[..j];
  }

  lemma LastSeparatorMore(s: string, n: nat)
    requires n < |s|
    ensures LastSeparator(s[..n + 1], n + 1) == if Separates(s, n) then n else LastSeparator(s[..n], n)
  {
    var a, b := s[..n], s[..n + 1];
    forall j | 0 <= j < n
      ensures Separates(b, j) <==> Separates(a, j)
    {
      SeparatesInPrefix(s, n, j);
      SeparatesInPrefix(s, n + 1, j);
    }
    SeparatesInPrefix(s, n + 1, n);
    LastSeparatorUnique(b, if Separates(s, n) then n else LastSeparator(a, n));
  }

  /** One more character: a separating comma begins a new part, any other character extends the last. */
  lemma PartsMore(s: string, n: nat)
    requires n < |s|
    ensures if Separates(s, n) then Parts(s[..n + 1]) == Parts(s[..n]) + [""]
            else Parts(s[..n + 1]) == LastExtended(Parts(s[..n]), s[n])
  {
    assert s[..n + 1] == s[..n] + [s[n]];
    LastSeparatorMore(s, n);
    if Separates(s, n) {
      assert s[..n + 1][..n] == s[..n];
      PartEnded(s[..n], s[..n + 1]);
    } else {
      LastPartMore(s[..n], s[n], LastSeparator(s[..n], n));
    }
  }

  function LastExtended(parts: seq<string>, c: char): seq<string>
    requires parts != []
  {
    parts[..|parts| - 1] + [parts[|parts| - 1] + [c]]
  }

  lemma PartsCut(s: string)
    ensures var i := LastSeparator(s, |s|);
            && (i >= 0 ==> s[i] == ',')
            && if i < 0 then |Parts(s)| == 1 else Parts(s) == Parts(s[..i]) + [s[i + 1..]]
  {
  }

  lemma PartEnded(a: string, b: string)
    requires b != "" && a == b[..|b| - 1] && LastSeparator(b, |b|) == |b| - 1
    ensures Parts(b) == Parts(a) + [""]
  {
    PartsCut(b);
    assert b[|b|..] == "";
  }

  lemma LastPartMore(a: string, c: char, i: int)
    requires LastSeparator(a, |a|) == i == LastSeparator(a + [c], |a| + 1)
    ensures Parts(a + [c]) == LastExtended(Parts(a), c)
  {
    var b := a + [c];
    if i >= 0 {
      assert b[..i] == a[..i] && b[i + 1..] == a[i + 1..] + [c];
    }
  }

  function Parsed(s: string): map<string, string> {
    Collected(ParamIn, Parts(s))
  }

  /** What parsing has reached: all parts but the last are collected in m, and cur is the last one. */
  predicate Reached(read: string -> Option<Param>, parts: seq<string>, m: map<string, string>, cur: string) {
    parts != [] && m == Collected(read, parts[..|parts| - 1]) && cur == parts[|parts| - 1]
  }

  lemma ReachedAll(read: string -> Option<Param>, parts: seq<string>, m: map<string, string>, cur: string)
    requires Reached(read, parts, m, cur)
    ensures With(m, read(cur)) == Collected(read, parts)
    ensures Reached(read, parts + [""], With(m, read(cur)), "")
  {
    assert (parts + [""])[..|parts|] == parts;
  }

  lemma ReachedMore(read: string -> Option<Param>, parts: seq<string>, m: map<string, string>, cur: string, c: char)
    requires Reached(read, parts, m, cur)
    ensures Reached(read, LastExtended(parts, c), m, cur + [c])
  {
    var n := |parts| - 1;
    assert LastExtended(parts, c)[..n] == parts[..n];
  }

  lemma ReachedNext(read: string -> Option<Param>, s: string, n: nat, m: map<string, string>, cur: string)
    requires n < |s| && Reached(read, Parts(s[..n]), m, cur)
    ensures if Separates(s, n) then Reached(read, Parts(s[..n + 1]), With(m, read(cur)), "")
            else Reached(read, Parts(s[..n + 1]), m, cur + [s[n]])
  {
    PartsMore(s, n);
    var before := Parts(s[..n]);
    ReachedAll(read, before, m, cur);
    ReachedMore(read, before, m, cur, s[n]);
  }

  /** The loop of parseChallenge; read is what it makes of a part once it is complete. */
  method ReadParts(s: string, read: string -> Option<Param>) returns (m: map<string, string>)
    ensures m == Collected(read, Parts(s))
  {
    m := map[];
    var cur := "";
    var inQ := false;
    assert Parts("") == [""];
    for n := 0 to |s|
      invariant inQ <==> InQuotes(s[..n])
      invariant Reached(read, Parts(s[..n]), m, cur)
    {
      ReachedNext(read, s, n, m, cur);
      assert s[..n + 1][..n] == s[..n];
      var r := s[n];
      if r == '"' {
        inQ := !inQ;
        cur := cur + [r];
      } else if r == ',' && !inQ {
        m := With(m, read(cur));
        cur := "";
      } else {
        cur := cur + [r];
      }
    }
    assert s[..|s|] == s;
    ReachedAll(read, Parts(s), m, cur);
    m := With(m, read(cur));
  }

  /** parseChallenge. */
  method ParseChallenge(s: string) returns (m: map<string, string>)
    ensures m == Parsed(s)
  {
    m := ReadParts(s, ParamIn);
  }
}
