/** Lists without repeats, the order of strings, and sort.Strings. */
module Ordering {
  /** Byte-wise order of strings. */
  predicate Leq(a: string, b: string) {
    a == "" || (b != "" && (a[0] < b[0] || (a[0] == b[0] && Leq(a[1..], b[1..]))))
  }

  lemma {:induction false} LeqTotal(a: string, b: string)
    ensures Leq(a, b) || Leq(b, a)
    ensures Leq(a, b) && Leq(b, a) ==> a == b
  {
    if a != "" && b != "" && a[0] == b[0] {
      LeqTotal(a[1..], b[1..]);
      assert a == [a[0]] + a[1..] && b == [b[0]] + b[1..];
    }
  }

  lemma {:induction false} LeqTransitive(a: string, b: string, c: string)
    requires Leq(a, b) && Leq(b, c)
    ensures Leq(a, c)
  {
    if a != "" && a[0] == b[0] == c[0] {
      LeqTransitive(a[1..], b[1..], c[1..]);
    }
  }

  /** A prefix comes first; otherwise the first difference decides. */
  ghost predicate Before(a: string, b: string, k: nat) {
    k <= |a| && k <= |b| && a[..k] == b[..k] && (k == |a| || (k < |b| && a[k] < b[k]))
  }

  lemma {:induction false} LeqIff(a: string, b: string)
    ensures Leq(a, b) <==> exists k: nat :: Before(a, b, k)
  {
    if a == "" {
      assert Before(a, b, 0);
    } else if b != "" && a[0] == b[0] {
      LeqIff(a[1..], b[1..]);
      forall k: nat
        ensures Before(a[1..], b[1..], k) <==> Before(a, b, k + 1)
      {
        BeforeMore(a, b, k);
      }
      assert forall k: nat :: Before(a, b, k) ==> k > 0 && Before(a[1..], b[1..], k - 1);
    } else if b != "" && a[0] < b[0] {
      assert Before(a, b, 0);
    }
  }

  lemma BeforeMore(a: string, b: string, k: nat)
    requires a != "" && b != "" && a[0] == b[0]
    ensures Before(a[1..], b[1..], k) <==> Before(a, b, k + 1)
  {
    if k + 1 <= |a| && k + 1 <= |b| {
      assert a[..k + 1] == [a[0]] + a[1..][..k] && b[..k + 1] == [b[0]] + b[1..][..k];
      assert a[1..][..k] == a[..k + 1][1..] && b[1..][..k] == b[..k + 1][1..];
    }
  }

  ghost predicate Sorted(ns: seq<string>) {
    forall i, j :: 0 <= i < j < |ns| ==> Leq(ns[i], ns[j]) && ns[i] != ns[j]
  }

  function Members<T(==)>(ns: seq<T>): set<T> {
    set n | n in ns
  }

  function Insert(n: string, ns: seq<string>): seq<string> {
    if ns == [] || Leq(n, ns[0]) then [n] + ns else [ns[0]] + Insert(n, ns[1..])
  }

  /** sort.Strings. */
  function Sort(ns: seq<string>): seq<string> {
    if ns == [] then [] else Insert(ns[0], Sort(ns[1..]))
  }

  /** In order, repeats allowed. */
  ghost predicate Ordered(ns: seq<string>) {
    forall i, j :: 0 <= i < j < |ns| ==> Leq(ns[i], ns[j])
  }

  lemma {:induction false} InsertOrdered(n: string, ns: seq<string>)
    requires Ordered(ns)
    ensures Ordered(Insert(n, ns))
  {
    if ns == [] {
    } else if Leq(n, ns[0]) {
      forall j | 0 <= j < |ns|
        ensures Leq(n, ns[j])
      {
        if j > 0 {
          LeqTransitive(n, ns[0], ns[j]);
        }
      }
    } else {
      var rest := Insert(n, ns[1..]);
      InsertOrdered(n, ns[1..]);
      LeqTotal(n, ns[0]);
      forall j | 0 <= j < |rest|
        ensures Leq(ns[0], rest[j])
      {
        InsertKeeps(n, ns[1..]);
        assert rest[j] in multiset(rest);
        assert rest[j] == n || rest[j] in ns[1..];
      }
    }
  }

  lemma {:induction false} InsertKeeps(n: string, ns: seq<string>)
    ensures multiset(Insert(n, ns)) == multiset(ns) + multiset{n}
  {
    if ns != [] && !Leq(n, ns[0]) {
      InsertKeeps(n, ns[1..]);
      assert ns == [ns[0]] + ns[1..];
    }
  }

  /** Sorting orders a list and loses nothing. */
  lemma {:induction false} SortOrders(ns: seq<string>)
    ensures Ordered(Sort(ns)) && multiset(Sort(ns)) == multiset(ns)
  {
    if ns != [] {
      SortOrders(ns[1..]);
      InsertOrdered(ns[0], Sort(ns[1..]));
      InsertKeeps(ns[0], Sort(ns[1..]));
      assert ns == [ns[0]] + ns[1..];
    }
  }

  lemma {:induction false} InsertSorted(n: string, ns: seq<string>)
    requires Sorted(ns) && n !in ns
    ensures Sorted(Insert(n, ns)) && Members(Insert(n, ns)) == Members(ns) + {n}
  {
    if ns == [] {
    } else if Leq(n, ns[0]) {
      forall j | 0 <= j < |ns|
        ensures Leq(n, ns[j])
      {
        if j > 0 {
          LeqTransitive(n, ns[0], ns[j]);
        }
      }
    } else {
      InsertSorted(n, ns[1..]);
      LeqTotal(n, ns[0]);
      assert Members(ns) == {ns[0]} + Members(ns[1..]);
      forall m | m in Insert(n, ns[1..])
        ensures Leq(ns[0], m) && ns[0] != m
      {
        assert m in Members(ns[1..]) + {n};
      }
    }
  }

  ghost predicate Distinct<T>(ns: seq<T>) {
    forall i, j :: 0 <= i < j < |ns| ==> ns[i] != ns[j]
  }

  lemma MembersMore<T>(ns: seq<T>, n: T)
    ensures Members(ns + [n]) == Members(ns) + {n}
    ensures Distinct(ns) && n !in Members(ns) ==> Distinct(ns + [n])
  {
  }

  lemma {:induction false} DistinctSize<T>(ns: seq<T>)
    requires Distinct(ns)
    ensures |Members(ns)| == |ns|
  {
    if ns != [] {
      var before, last := ns[..|ns| - 1], ns[|ns| - 1];
      DistinctSize(before);
      assert ns == before + [last];
      MembersMore(before, last);
      assert last !in Members(before);
    }
  }

  lemma {:induction false} SortSorts(ns: seq<string>)
    requires Distinct(ns)
    ensures Sorted(Sort(ns)) && Members(Sort(ns)) == Members(ns)
  {
    if ns != [] {
      SortSorts(ns[1..]);
      assert Members(ns) == {ns[0]} + Members(ns[1..]);
      assert ns[0] !in Members(ns[1..]);
      assert ns[0] !in Sort(ns[1..]);
      InsertSorted(ns[0], Sort(ns[1..]));
    }
  }

  lemma NoMembers(ns: seq<string>)
    ensures Members(ns) == {} <==> ns == []
  {
    if ns != [] {
      assert ns[0] in Members(ns);
    }
  }

  /** A set has one sorted listing. */
  lemma {:induction false} SortedUnique(a: seq<string>, b: seq<string>)
    requires Sorted(a) && Sorted(b) && Members(a) == Members(b)
    ensures a == b
  {
    NoMembers(a);
    NoMembers(b);
    if a != [] {
      assert a[0] in Members(b) && b != [] && b[0] in Members(a);
      LeqTotal(a[0], b[0]);
      assert Members(a[1..]) == Members(a) - {a[0]} && Members(b[1..]) == Members(b) - {b[0]};
      SortedUnique(a[1..], b[1..]);
      assert a == [a[0]] + a[1..] && b == [b[0]] + b[1..];
    }
  }

  // ----- selections ---------------------------------------------------------------------------------

  /** What is kept of a list. */
  function Chosen<T>(all: seq<T>, kept: seq<bool>): seq<T>
    requires |kept| == |all|
  {
    if all == [] then []
    else
      var n := |all| - 1;
      Chosen(all[..n], kept[..n]) + if kept[n] then [all[n]] else []
  }

  /** The places that are kept, in order. */
  ghost predicate Places(at: seq<nat>, kept: seq<bool>) {
    && (forall i, j :: 0 <= i < j < |at| ==> at[i] < at[j])
    && (forall i :: 0 <= i < |at| ==> at[i] < |kept| && kept[at[i]])
    && (forall k :: 0 <= k < |kept| && kept[k] ==> k in at)
  }

  /** The list holds what is kept of the other, in its order, and nothing else. */
  ghost predicate Selection<T(!new)>(out: seq<T>, all: seq<T>, kept: seq<bool>) {
    |kept| == |all| && exists at: seq<nat> :: Places(at, kept) && SelectedAt(out, all, at)
  }

  ghost predicate SelectedAt<T>(out: seq<T>, all: seq<T>, at: seq<nat>) {
    |out| == |at| && forall i :: 0 <= i < |at| ==> at[i] < |all| && out[i] == all[at[i]]
  }

  lemma {:induction false} ChosenPlaces<T>(all: seq<T>, kept: seq<bool>) returns (at: seq<nat>)
    requires |kept| == |all|
    ensures Places(at, kept) && SelectedAt(Chosen(all, kept), all, at)
  {
    if all == [] {
      at := [];
    } else {
      var n := |all| - 1;
      var before := ChosenPlaces(all[..n], kept[..n]);
      PlacesMore(before, kept);
      SelectedMore(Chosen(all[..n], kept[..n]), all, before);
      at := if kept[n] then before + [n] else before;
    }
  }

  lemma ChosenIsSelection<T(!new)>(all: seq<T>, kept: seq<bool>)
    requires |kept| == |all|
    ensures Selection(Chosen(all, kept), all, kept)
  {
    var at := ChosenPlaces(all, kept);
  }

  lemma SelectedMore<T>(out: seq<T>, all: seq<T>, at: seq<nat>)
    requires all != [] && SelectedAt(out, all[..|all| - 1], at)
    ensures SelectedAt(out, all, at) && SelectedAt(out + [all[|all| - 1]], all, at + [|all| - 1])
  {
  }

  lemma PlacesMore(at: seq<nat>, kept: seq<bool>)
    requires kept != [] && Places(at, kept[..|kept| - 1])
    ensures Places(if kept[|kept| - 1] then at + [|kept| - 1] else at, kept)
  {
    var n := |kept| - 1;
    var at' := if kept[n] then at + [n] else at;
    forall k | 0 <= k < |kept| && kept[k]
      ensures k in at'
    {
      if k < n {
        assert kept[..n][k];
      }
    }
  }

  lemma {:induction false} ChosenFromFront<T>(all: seq<T>, kept: seq<bool>)
    requires |kept| == |all| > 0
    ensures Chosen(all, kept) == (if kept[0] then [all[0]] else []) + Chosen(all[1..], kept[1..])
  {
    var n := |all| - 1;
    if n > 0 {
      ChosenFromFront(all[..n], kept[..n]);
      assert all[..n][1..] == all[1..][..n - 1] && kept[..n][1..] == kept[1..][..n - 1];
    }
  }

  /** So what is selected at each of several places is what is kept. */
  lemma {:induction false} ChosenMembers<T>(all: seq<T>, kept: seq<bool>)
    requires |kept| == |all|
    ensures forall x :: x in Chosen(all, kept) <==> exists k :: 0 <= k < |all| && kept[k] && all[k] == x
  {
    if all != [] {
      var n := |all| - 1;
      ChosenMembers(all[..n], kept[..n]);
      forall x
        ensures x in Chosen(all, kept) <==> exists k :: 0 <= k < |all| && kept[k] && all[k] == x
      {
        if x in Chosen(all[..n], kept[..n]) {
          var k :| 0 <= k < n && kept[..n][k] && all[..n][k] == x;
          assert kept[k] && all[k] == x;
        }
        if k :| 0 <= k < |all| && kept[k] && all[k] == x {
          assert k < n ==> kept[..n][k] && all[..n][k] == x;
        }
      }
    }
  }
}
