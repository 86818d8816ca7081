/** Sorting by an integer key, as lists of recordings are sorted by their start. */
module Sorting {

  predicate Ordered<T>(s: seq<T>, key: T -> int) {
    forall i, j :: 0 <= i < j < |s| ==> key(s[i]) <= key(s[j])
  }

  method SortBy<T>(s: seq<T>, key: T -> int) returns (sorted: seq<T>)
    ensures Ordered(sorted, key) && multiset(sorted) == multiset(s)
  {
    sorted := [];
    for i := 0 to |s|
      invariant Ordered(sorted, key) && multiset(sorted) == multiset(s[..i])
    {
      assert s[..i + 1] == s[..i] + [s[i]];
      sorted := Insert(sorted, key, s[i]);
    }
    assert s[..|s|] == s;
  }

  method Insert<T>(sorted: seq<T>, key: T -> int, x: T) returns (out: seq<T>)
    requires Ordered(sorted, key)
    ensures Ordered(out, key) && multiset(out) == multiset(sorted) + multiset{x}
  {
    hide Ordered;
    var k := 0;
    while k < |sorted| && key(sorted[k]) <= key(x)
      invariant 0 <= k <= |sorted|
      invariant forall j :: 0 <= j < k ==> key(sorted[j]) <= key(x)
    {
      k := k + 1;
    }
    InsertKeepsOrder(sorted, key, k, x);
    assert sorted == sorted[..k] + sorted[k..];
    out := sorted[..k] + [x] + sorted[k..];
  }

  lemma InsertKeepsOrder<T>(sorted: seq<T>, key: T -> int, k: nat, x: T)
    requires Ordered(sorted, key) && k <= |sorted|
    requires forall j :: 0 <= j < k ==> key(sorted[j]) <= key(x)
    requires k < |sorted| ==> key(x) <= key(sorted[k])
    ensures Ordered(sorted[..k] + [x] + sorted[k..], key)
  {
    var out := sorted[..k] + [x] + sorted[k..];
    forall i, j | 0 <= i < j < |out|
      ensures key(out[i]) <= key(out[j])
    {
      assert out[i] == if i < k then sorted[i] else if i == k then x else sorted[i - 1];
      assert out[j] == if j < k then sorted[j] else if j == k then x else sorted[j - 1];
      assert i == k && k < j - 1 ==> key(sorted[k]) <= key(sorted[j - 1]);
    }
  }

  lemma MultisetWithout<T>(s: seq<T>, k: nat)
    requires k < |s|
    ensures multiset(s[..k] + s[k + 1..]) == multiset(s) - multiset{s[k]}
  {
    assert s == s[..k] + [s[k]] + s[k + 1..];
  }

  /** Sorting puts elements with different keys in strict order. */
  lemma DistinctIsStrict<T>(s: seq<T>, sorted: seq<T>, key: T -> int)
    requires forall i, j :: 0 <= i < j < |s| ==> key(s[i]) != key(s[j])
    requires Ordered(sorted, key) && multiset(sorted) == multiset(s)
    ensures forall i, j :: 0 <= i < j < |sorted| ==> key(sorted[i]) < key(sorted[j])
    ensures forall x :: x in sorted <==> x in s
  {
    forall i, j | 0 <= i < j < |sorted|
      ensures key(sorted[i]) < key(sorted[j])
    {
      var a, b := TwoOf(s, sorted, i, j);
    }
    assert forall x :: x in sorted <==> x in multiset(sorted);
    assert forall x :: x in s <==> x in multiset(s);
  }

  /** Two places of a permutation come from two places. */
  lemma TwoOf<T>(s: seq<T>, sorted: seq<T>, i: nat, j: nat) returns (a: nat, b: nat)
    requires multiset(sorted) == multiset(s) && i < j < |sorted|
    ensures a < |s| && b < |s| && a != b && s[a] == sorted[i] && s[b] == sorted[j]
  {
    assert sorted[i] in multiset(s);
    a :| 0 <= a < |s| && s[a] == sorted[i];
    var rest, others := s[..a] + s[a + 1..], sorted[..i] + sorted[i + 1..];
    MultisetWithout(s, a);
    MultisetWithout(sorted, i);
    assert sorted[j] == others[j - 1];
    assert sorted[j] in multiset(rest);
    var c :| 0 <= c < |rest| && rest[c] == sorted[j];
    b := if c < a then c else c + 1;
  }
}
