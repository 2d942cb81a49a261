/** Optional values and the few string operations of Go's `strings` package that the caches use. */
module Text {

  datatype Option<+T> = None | Some(value: T)

  /** strings.Index for a single character: the first position of c, or -1. */
  function IndexOf(s: string, c: char): (i: int)
    ensures -1 <= i < |s|
    ensures i < 0 <==> c !in s
    ensures 0 <= i ==> s[i] == c && c !in s[..i]
  {
    if s == "" then -1
    else if s[0] == c then 0
    else
      var i := IndexOf(s[1..], c);
      if i < 0 then -1 else
        assert s[..i + 1] == [s[0]] + s[1..][..i];
        i + 1
  }

  /** strings.LastIndex for a single character: the last position of c, or -1. */
  function LastIndexOf(s: string, c: char): (i: int)
    ensures -1 <= i < |s|
    ensures i < 0 <==> c !in s
    ensures 0 <= i ==> s[i] == c && c !in s[i + 1..]
  {
    if s == "" then -1
    else if s[|s| - 1] == c then |s| - 1
    else
      var i := LastIndexOf(s[..|s| - 1], c);
      assert s == s[..|s| - 1] + [s[|s| - 1]];
      assert 0 <= i ==> s[i + 1..] == s[..|s| - 1][i + 1..] + [s[|s| - 1]];
      i
  }

  /** strings.Cut at a single character. */
  function Cut(s: string, c: char): (r: Option<(string, string)>)
    ensures r.None? <==> c !in s
    ensures r.Some? ==> c !in r.value.0 && s == r.value.0 + [c] + r.value.1
  {
    var i := IndexOf(s, c);
    if i < 0 then None else Some((s[..i], s[i + 1..]))
  }

  lemma IndexOfSplit(a: string, c: char, b: string)
    requires c !in a
    ensures IndexOf(a + [c] + b, c) == |a|
  {
    var s := a + [c] + b;
    assert forall k :: 0 <= k < |a| ==> s[k] == a[k];
    forall j | |a| < j <= |s| ensures c in s[..j] {
      assert s[..j][|a|] == c;
    }
  }

  lemma {:induction false} LastIndexOfSplit(a: string, c: char, b: string)
    requires c !in b
    ensures LastIndexOf(a + [c] + b, c) == |a|
  {
    if b != "" {
      assert (a + [c] + b)[..|a| + |b|] == a + [c] + b[..|b| - 1];
      LastIndexOfSplit(a, c, b[..|b| - 1]);
    }
  }

  /** A separator absent from the first part splits a text in one way only. */
  lemma SplitUnique(a: string, c: char, b: string, a': string, b': string)
    requires a + [c] + b == a' + [c] + b' && c !in a && c !in a'
    ensures a == a' && b == b'
  {
    var s := a + [c] + b;
    IndexOfSplit(a, c, b);
    IndexOfSplit(a', c, b');
    assert a == s[..|a|] && b == s[|a| + 1..];
    assert a' == s[..|a'|] && b' == s[|a'| + 1..];
  }

  /** strings.HasPrefix. */
  predicate HasPrefix(s: string, p: string) {
    p <= s
  }

  /** strings.TrimPrefix. */
  function TrimPrefix(s: string, p: string): string {
    if p <= s then s[|p|..] else s
  }

  /** strings.Count for a single character. */
  function Count(s: string, c: char): nat {
    if s == "" then 0 else (if s[0] == c then 1 else 0) + Count(s[1..], c)
  }

  lemma {:induction false} CountConcat(a: string, b: string, c: char)
    ensures Count(a + b, c) == Count(a, c) + Count(b, c)
  {
    if a == "" {
      assert a + b == b;
    } else {
      assert (a + b)[1..] == a[1..] + b;
      CountConcat(a[1..], b, c);
    }
  }

  lemma {:induction false} CountAbsent(a: string, c: char)
    requires c !in a
    ensures Count(a, c) == 0
  {
    if a != "" {
      CountAbsent(a[1..], c);
    }
  }

  /** unicode.IsSpace on the Latin-1 range. */
  predicate IsSpace(c: char) {
    c == ' ' || c == '\t' || c == '\n' || c == '\r' || c == '\U{0B}' || c == '\U{0C}' || c == '\U{85}' || c == '\U{A0}'
  }

  /** Nothing for strings.TrimSpace to remove. */
  predicate Trimmed(s: string) {
    s == "" || (!IsSpace(s[0]) && !IsSpace(s[|s| - 1]))
  }

  /** The first position from i on without white space. */
  function Leading(s: string, i: nat): (k: nat)
    requires i <= |s|
    ensures i <= k <= |s| && (k < |s| ==> !IsSpace(s[k]))
    ensures forall j :: i <= j < k ==> IsSpace(s[j])
    decreases |s| - i
  {
    if i < |s| && IsSpace(s[i]) then Leading(s, i + 1) else i
  }

  /** The end of the last word among the first n characters. */
  function Trailing(s: string, n: nat): (k: nat)
    requires n <= |s|
    ensures k <= n && (k > 0 ==> !IsSpace(s[k - 1]))
    ensures forall j :: k <= j < n ==> IsSpace(s[j])
  {
    if n > 0 && IsSpace(s[n - 1]) then Trailing(s, n - 1) else n
  }

  function TrimLeft(s: string): (t: string)
    ensures |t| <= |s|
    ensures t == "" || !IsSpace(t[0])
    ensures s == "" || !IsSpace(s[0]) ==> t == s
  {
    s[Leading(s, 0)..]
  }

  function TrimRight(s: string): (t: string)
    ensures t == "" || !IsSpace(t[|t| - 1])
    ensures t <= s
    ensures s == "" || !IsSpace(s[|s| - 1]) ==> t == s
  {
    s[..Trailing(s, |s|)]
  }

  lemma TrimLeftMore(s: string)
    requires s != "" && IsSpace(s[0])
    ensures TrimLeft(s) == TrimLeft(s[1..])
  {
    var k, k' := Leading(s, 0), Leading(s[1..], 0);
    assert forall j :: 0 <= j < |s| - 1 ==> s[1..][j] == s[j + 1];
    assert k' + 1 < |s| ==> !IsSpace(s[k' + 1]);
    assert k > 0 && (k < |s| ==> !IsSpace(s[1..][k - 1]));
    assert k == k' + 1;
    assert s[k..] == s[1..][k'..];
  }

  lemma TrimRightMore(s: string)
    requires s != "" && IsSpace(s[|s| - 1])
    ensures TrimRight(s) == TrimRight(s[..|s| - 1])
  {
    var s' := s[..|s| - 1];
    var k, k' := Trailing(s, |s|), Trailing(s', |s'|);
    assert k == k';
  }

  /** strings.TrimSpace. */
  function TrimSpace(s: string): (t: string)
    ensures Trimmed(t) && |t| <= |s|
    ensures Trimmed(s) ==> t == s
  {
    var l := TrimLeft(s);
    var t := TrimRight(l);
    assert t != "" ==> t[0] == l[0];
    t
  }

  predicate AllSpaces(s: string) {
    forall i :: 0 <= i < |s| ==> IsSpace(s[i])
  }

  /** White space in front of a trimmed, non-empty text is exactly what TrimSpace removes. */
  lemma {:induction false} TrimSpacePadded(pad: string, s: string)
    requires AllSpaces(pad) && Trimmed(s)
    ensures TrimSpace(pad + s) == s
  {
    TrimLeftPadded(pad, s);
  }

  lemma {:induction false} TrimLeftPadded(pad: string, s: string)
    requires AllSpaces(pad) && Trimmed(s)
    ensures TrimLeft(pad + s) == s
  {
    if pad == "" {
      assert pad + s == s;
    } else {
      assert (pad + s)[1..] == pad[1..] + s;
      TrimLeftMore(pad + s);
      TrimLeftPadded(pad[1..], s);
    }
  }

  // ----- words --------------------------------------------------------------------------------------

  /** No white space anywhere. */
  predicate Solid(s: string) {
    forall i :: 0 <= i < |s| ==> !IsSpace(s[i])
  }

  /** Where the last word of s begins. */
  function WordStart(s: string): (k: nat)
    ensures k <= |s| && forall i :: k <= i < |s| ==> !IsSpace(s[i])
    ensures k > 0 ==> IsSpace(s[k - 1])
  {
    if s == "" || IsSpace(s[|s| - 1]) then |s| else WordStart(s[..|s| - 1])
  }

  /** strings.Fields. */
  function Fields(s: string): seq<string>
    decreases |s|
  {
    if s == "" then []
    else if IsSpace(s[|s| - 1]) then Fields(s[..|s| - 1])
    else
      var k := WordStart(s);
      assert k < |s| by {
        assert k == WordStart(s[..|s| - 1]);
      }
      Fields(s[..k]) + [s[k..]]
  }

  lemma WordStartUnique(s: string, k: nat)
    requires k <= |s| && (forall i :: k <= i < |s| ==> !IsSpace(s[i])) && (k > 0 ==> IsSpace(s[k - 1]))
    ensures WordStart(s) == k
  {
  }

  /** A word behind white space is the last field. */
  lemma FieldsLast(s: string, word: string)
    requires (s == "" || IsSpace(s[|s| - 1])) && Solid(word) && word != ""
    ensures Fields(s + word) == Fields(s) + [word]
  {
    var all := s + word;
    assert all[|s|..] == word && all[..|s|] == s;
    WordStartUnique(all, |s|);
    assert !IsSpace(word[|word| - 1]);
  }

  lemma {:induction false} FieldsTrimRight(s: string)
    ensures Fields(TrimRight(s)) == Fields(s)
  {
    if s != "" && IsSpace(s[|s| - 1]) {
      TrimRightMore(s);
      FieldsTrimRight(s[..|s| - 1]);
    }
  }

  lemma {:induction false} FieldsSpaceBefore(c: char, s: string)
    requires IsSpace(c)
    ensures Fields([c] + s) == Fields(s)
    decreases |s|
  {
    var all := [c] + s;
    if s == "" {
      assert all[..|all| - 1] == "";
    } else if IsSpace(s[|s| - 1]) {
      assert all[..|all| - 1] == [c] + s[..|s| - 1];
      FieldsSpaceBefore(c, s[..|s| - 1]);
    } else {
      var k := WordStart(s);
      assert s[k..] == all[k + 1..];
      WordStartUnique(all, k + 1);
      assert all[..k + 1] == [c] + s[..k];
      FieldsSpaceBefore(c, s[..k]);
    }
  }

  /** Trimming a text leaves its fields alone. */
  lemma {:induction false} FieldsTrimmed(s: string)
    ensures Fields(TrimSpace(s)) == Fields(s)
  {
    FieldsTrimLeft(s);
    FieldsTrimRight(TrimLeft(s));
  }

  lemma {:induction false} FieldsTrimLeft(s: string)
    ensures Fields(TrimLeft(s)) == Fields(s)
  {
    if s != "" && IsSpace(s[0]) {
      assert s == [s[0]] + s[1..];
      FieldsSpaceBefore(s[0], s[1..]);
      TrimLeftMore(s);
      FieldsTrimLeft(s[1..]);
    }
  }
}
