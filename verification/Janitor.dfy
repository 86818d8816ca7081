/** Which recordings are deleted, and in which order, to bring the disk back under its cap. */
module Janitor {
  import opened Bytes
  import opened Sorting

  datatype Seg = Seg(path: int, start: int, size: int, event: bool)

  datatype Policy = Policy(keepAllCutoff: int, keepEventCutoff: int)

  datatype Tier = Plain | OldEvent | KeptEvent | KeepAll

  function TierOf(p: Policy, s: Seg): Tier {
    if s.start >= p.keepAllCutoff then KeepAll
    else if !s.event then Plain
    else if s.start < p.keepEventCutoff then OldEvent
    else KeptEvent
  }

  /** Tiers are sacrificed in this order. */
  function Rank(t: Tier): int {
    match t
    case Plain => 0
    case OldEvent => 1
    case KeptEvent => 2
    case KeepAll => 3
  }

  function RankOf(p: Policy, s: Seg): int {
    Rank(TierOf(p, s))
  }

  /** Lower tiers first, and the oldest first within a tier. */
  predicate Goes(p: Policy, s: Seg, t: Seg) {
    RankOf(p, s) < RankOf(p, t) || (RankOf(p, s) == RankOf(p, t) && s.start <= t.start)
  }

  predicate InOrder(p: Policy, order: seq<Seg>) {
    forall i, j :: 0 <= i < j < |order| ==> Goes(p, order[i], order[j])
  }

  function Sum(segs: seq<Seg>): int {
    if segs == [] then 0 else Sum(segs[..|segs| - 1]) + segs[|segs| - 1].size
  }

  /**
   What is deleted: the shortest beginning of an ordering of all recordings that brings the
   total to the cap.
   */
  ghost predicate IsDeletion(p: Policy, segs: seq<Seg>, cap: int, total: int, order: seq<Seg>, out: seq<Seg>) {
    && multiset(order) == multiset(segs)
    && InOrder(p, order)
    && out <= order
    && total - Sum(out) <= cap
    && Needed(out, cap, total)
  }

  // ---------------------------------------------------------------- sums

  lemma SumSnoc(segs: seq<Seg>, s: Seg)
    ensures Sum(segs + [s]) == Sum(segs) + s.size
  {
    assert (segs + [s])[..|segs|] == segs;
  }

  lemma {:induction false} SumAppend(a: seq<Seg>, b: seq<Seg>)
    ensures Sum(a + b) == Sum(a) + Sum(b)
    decreases |b|
  {
    if b == [] {
      assert a + b == a;
    } else {
      var n := |b| - 1;
      SumAppend(a, b[..n]);
      assert a + b == (a + b[..n]) + [b[n]];
      SumSnoc(a + b[..n], b[n]);
    }
  }

  lemma SumWithout(b: seq<Seg>, k: nat)
    requires k < |b|
    ensures Sum(b) == Sum(b[..k] + b[k + 1..]) + b[k].size
  {
    hide Sum;
    var s := b[k];
    assert b == (b[..k] + [s]) + b[k + 1..];
    SumAppend(b[..k] + [s], b[k + 1..]);
    SumSnoc(b[..k], s);
    SumAppend(b[..k], b[k + 1..]);
  }

  lemma {:induction false} SumOfPermutation(a: seq<Seg>, b: seq<Seg>)
    requires multiset(a) == multiset(b)
    ensures Sum(a) == Sum(b)
    decreases |a|
  {
    if a == [] {
      assert |multiset(b)| == 0;
    } else {
      var n, s := |a| - 1, a[|a| - 1];
      assert s in multiset(a);
      var k :| 0 <= k < |b| && b[k] == s;
      MultisetWithout(a, n);
      MultisetWithout(b, k);
      assert a[..n] + a[n + 1..] == a[..n];
      SumOfPermutation(a[..n], b[..k] + b[k + 1..]);
      SumWithout(b, k);
    }
  }

  // ---------------------------------------------------------------- what follows

  lemma InPrefix(order: seq<Seg>, out: seq<Seg>, s: Seg)
    requires out <= order && s in order && s !in out
    ensures exists j :: |out| <= j < |order| && order[j] == s
  {
    var j :| 0 <= j < |order| && order[j] == s;
    assert forall x :: 0 <= x < |out| ==> out[x] in out && out[x] == order[x];
  }

  /** A recording is deleted only after everything of a lower tier, and everything older of its own. */
  lemma DeletedInOrder(p: Policy, segs: seq<Seg>, cap: int, total: int, order: seq<Seg>, out: seq<Seg>, s: Seg, t: Seg)
    requires IsDeletion(p, segs, cap, total, order, out)
    requires t in out && s in segs && s !in out
    ensures Goes(p, t, s)
  {
    assert s in multiset(segs);
    InPrefix(order, out, s);
    var i :| 0 <= i < |out| && out[i] == t;
    assert order[i] == t;
  }

  /** An event segment that is still to be kept as such, outside the keep-all window. */
  predicate KeptAsEvent(p: Policy, s: Seg) {
    s.event && p.keepEventCutoff <= s.start < p.keepAllCutoff
  }

  /** An event segment that is too old to be kept for its event. */
  predicate PastEvent(p: Policy, s: Seg) {
    s.event && s.start < p.keepEventCutoff && s.start < p.keepAllCutoff
  }

  predicate WithoutEvent(p: Policy, s: Seg) {
    !s.event && s.start < p.keepAllCutoff
  }

  /**
   The order of sacrifice. If an event segment is deleted while it is still to be kept as such,
   everything outside the keep-all window is that has no event or is past its time; if one past
   its time is, everything there without an event is; if a recent one is, everything older than the
   window is. And of each of the four sorts a segment is deleted only if all older ones are.
   */
  lemma OrderOfSacrifice(p: Policy, segs: seq<Seg>, cap: int, total: int, order: seq<Seg>, out: seq<Seg>, t: Seg, s: Seg)
    requires IsDeletion(p, segs, cap, total, order, out) && t in out && s in segs
    ensures KeptAsEvent(p, t) && (WithoutEvent(p, s) || PastEvent(p, s)) ==> s in out
    ensures PastEvent(p, t) && WithoutEvent(p, s) ==> s in out
    ensures t.start >= p.keepAllCutoff && s.start < p.keepAllCutoff ==> s in out
    ensures KeptAsEvent(p, t) && KeptAsEvent(p, s) && s.start < t.start ==> s in out
    ensures PastEvent(p, t) && PastEvent(p, s) && s.start < t.start ==> s in out
    ensures WithoutEvent(p, t) && WithoutEvent(p, s) && s.start < t.start ==> s in out
    ensures p.keepAllCutoff <= s.start < t.start ==> s in out
  {
    if s !in out {
      DeletedInOrder(p, segs, cap, total, order, out, s, t);
    }
  }

  /** Recent footage goes only when everything else goes. */
  lemma KeepAllGoesLast(p: Policy, segs: seq<Seg>, cap: int, total: int, order: seq<Seg>, out: seq<Seg>, s: Seg, t: Seg)
    requires IsDeletion(p, segs, cap, total, order, out)
    requires t in out && t.start >= p.keepAllCutoff
    requires s in segs && s.start < p.keepAllCutoff
    ensures s in out
  {
    if s !in out {
      DeletedInOrder(p, segs, cap, total, order, out, s, t);
    }
  }

  /** Where recent footage begins in the order. */
  lemma RecentBegins(p: Policy, order: seq<Seg>) returns (k: nat)
    requires InOrder(p, order)
    ensures k <= |order|
    ensures forall i :: 0 <= i < |order| ==> (order[i].start >= p.keepAllCutoff <==> i >= k)
  {
    k := |order|;
    while k > 0 && order[k - 1].start >= p.keepAllCutoff
      invariant 0 <= k <= |order|
      invariant forall i :: k <= i < |order| ==> order[i].start >= p.keepAllCutoff
    {
      k := k - 1;
    }
    forall i | 0 <= i < k
      ensures order[i].start < p.keepAllCutoff
    {
      assert k > 0 && order[k - 1].start < p.keepAllCutoff;
      assert i < k - 1 ==> Goes(p, order[i], order[k - 1]);
    }
  }

  function Recent(p: Policy, segs: seq<Seg>): seq<Seg> {
    if segs == [] then []
    else
      var front, s := Recent(p, segs[..|segs| - 1]), segs[|segs| - 1];
      if s.start >= p.keepAllCutoff then front + [s] else front
  }

  lemma {:induction false} RecentAppend(p: Policy, a: seq<Seg>, b: seq<Seg>)
    ensures Recent(p, a + b) == Recent(p, a) + Recent(p, b)
    decreases |b|
  {
    if b == [] {
      assert a + b == a;
    } else {
      assert (a + b)[..|a + b| - 1] == a + b[..|b| - 1];
      RecentAppend(p, a, b[..|b| - 1]);
    }
  }

  lemma {:induction false} RecentOfSplit(p: Policy, order: seq<Seg>, k: nat)
    requires k <= |order|
    requires forall i :: 0 <= i < |order| ==> (order[i].start >= p.keepAllCutoff <==> i >= k)
    ensures Recent(p, order) == order[k..]
    decreases |order|
  {
    if order != [] {
      var n := |order| - 1;
      RecentOfSplit(p, order[..n], if k <= n then k else n);
      if k <= n { assert order[k..] == order[..n][k..] + [order[n]]; }
    }
  }

  lemma RecentWithout(p: Policy, b: seq<Seg>, k: nat)
    requires k < |b|
    ensures Sum(Recent(p, b)) == Sum(Recent(p, b[..k] + b[k + 1..])) + if b[k].start >= p.keepAllCutoff then b[k].size else 0
  {
    var s := b[k];
    assert b == b[..k] + ([s] + b[k + 1..]);
    RecentAppend(p, b[..k], [s] + b[k + 1..]);
    RecentAppend(p, [s], b[k + 1..]);
    RecentAppend(p, b[..k], b[k + 1..]);
    assert [s][..0] == [];
    var kept := Recent(p, [s]);
    SumAppend(Recent(p, b[..k]), kept + Recent(p, b[k + 1..]));
    SumAppend(kept, Recent(p, b[k + 1..]));
    SumAppend(Recent(p, b[..k]), Recent(p, b[k + 1..]));
    assert Sum(kept) == if s.start >= p.keepAllCutoff then s.size else 0;
  }

  lemma {:induction false} RecentOfPermutation(p: Policy, a: seq<Seg>, b: seq<Seg>)
    requires multiset(a) == multiset(b)
    ensures Sum(Recent(p, a)) == Sum(Recent(p, b))
    decreases |a|
  {
    if a == [] {
      assert |multiset(b)| == 0;
    } else {
      var n, s := |a| - 1, a[|a| - 1];
      assert s in multiset(a);
      var k :| 0 <= k < |b| && b[k] == s;
      MultisetWithout(a, n);
      MultisetWithout(b, k);
      assert a[..n] + a[n + 1..] == a[..n];
      RecentOfPermutation(p, a[..n], b[..k] + b[k + 1..]);
      RecentWithout(p, b, k);
      RecentWithout(p, a, n);
    }
  }

  lemma {:induction false} SumIsNonNegative(segs: seq<Seg>)
    requires forall s :: s in segs ==> s.size >= 0
    ensures Sum(segs) >= 0
    decreases |segs|
  {
    if segs != [] {
      SumIsNonNegative(segs[..|segs| - 1]);
    }
  }

  /** Whether the deletion goes on beyond this place of the order. */
  lemma DeletionReaches(p: Policy, segs: seq<Seg>, cap: int, order: seq<Seg>, out: seq<Seg>, k: nat)
    requires IsDeletion(p, segs, cap, Sum(segs), order, out) && k <= |order|
    requires forall s :: s in segs ==> s.size >= 0
    ensures |out| > k <==> Sum(order[k..]) > cap
  {
    SumOfPermutation(order, segs);
    SumSplit(order, k);
    if |out| > k {
      assert out[..k] == order[..k];
    } else {
      var rest := order[|out|..k];
      assert order[..k] == out + rest;
      SumAppend(out, rest);
      forall s | s in rest
        ensures s.size >= 0
      {
        assert s in multiset(order);
      }
      SumIsNonNegative(rest);
    }
  }

  /**
   The keep-all window is left alone exactly when it fits under the cap by itself: some of it
   is deleted if and only if recent footage alone is larger than the cap.
   */
  lemma RecentIsSparedIff(p: Policy, segs: seq<Seg>, cap: int, order: seq<Seg>, out: seq<Seg>)
    requires IsDeletion(p, segs, cap, Sum(segs), order, out)
    requires forall s :: s in segs ==> s.size >= 0
    ensures (exists s :: s in out && s.start >= p.keepAllCutoff) <==> Sum(Recent(p, segs)) > cap
  {
    var k := RecentBegins(p, order);
    RecentOfSplit(p, order, k);
    RecentOfPermutation(p, order, segs);
    DeletionReaches(p, segs, cap, order, out, k);
    if |out| > k {
      assert out[k] in out && out[k].start >= p.keepAllCutoff by { assert out[k] == order[k]; }
    }
    if s :| s in out && s.start >= p.keepAllCutoff {
      var i :| 0 <= i < |out| && out[i] == s;
      assert order[i] == s;
    }
  }

  /** One recent recording that alone is larger than the cap is deleted. */
  lemma RecentCanGo(p: Policy, size: int, cap: int)
    requires 0 < cap < size
    ensures var segs := [Seg(0, p.keepAllCutoff, size, false)];
            IsDeletion(p, segs, cap, Sum(segs), segs, segs)
  {
    var s := Seg(0, p.keepAllCutoff, size, false);
    assert [s][..0] == [];
  }

  /** What remains is at most the cap, and one deletion less would leave more than that. */
  lemma RemainderFits(p: Policy, segs: seq<Seg>, cap: int, order: seq<Seg>, out: seq<Seg>)
    requires IsDeletion(p, segs, cap, Sum(segs), order, out)
    ensures Sum(order[|out|..]) <= cap
    ensures out != [] ==> Sum(order[|out| - 1..]) > cap
    ensures multiset(out) + multiset(order[|out|..]) == multiset(segs)
  {
    SumOfPermutation(order, segs);
    SumSplit(order, |out|);
    assert order == out + order[|out|..];
    if out != [] {
      assert Sum(segs) - Sum(out[..|out| - 1]) > cap;
      SumSplit(order, |out| - 1);
      assert out[..|out| - 1] == order[..|out| - 1];
    }
  }

  lemma SumSplit(segs: seq<Seg>, n: nat)
    requires n <= |segs|
    ensures Sum(segs) == Sum(segs[..n]) + Sum(segs[n..])
  {
    assert segs == segs[..n] + segs[n..];
    SumAppend(segs[..n], segs[n..]);
  }

  // ---------------------------------------------------------------- the computation

  predicate OldestFirst(segs: seq<Seg>) {
    forall i, j :: 0 <= i < j < |segs| ==> segs[i].start <= segs[j].start
  }

  method SortByStart(segs: seq<Seg>) returns (sorted: seq<Seg>)
    ensures OldestFirst(sorted) && multiset(sorted) == multiset(segs)
  {
    var start := (s: Seg) => s.start;
    sorted := SortBy(segs, start);
    assert forall i :: 0 <= i < |sorted| ==> start(sorted[i]) == sorted[i].start;
  }

  predicate AllOf(p: Policy, t: Tier, segs: seq<Seg>) {
    forall s :: s in segs ==> TierOf(p, s) == t
  }

  method SplitTiers(p: Policy, segs: seq<Seg>) returns (plain: seq<Seg>, stale: seq<Seg>, kept: seq<Seg>, all: seq<Seg>)
    ensures AllOf(p, Plain, plain) && AllOf(p, OldEvent, stale) && AllOf(p, KeptEvent, kept) && AllOf(p, KeepAll, all)
    ensures multiset(plain) + multiset(stale) + multiset(kept) + multiset(all) == multiset(segs)
  {
    plain, stale, kept, all := [], [], [], [];
    for i := 0 to |segs|
      invariant AllOf(p, Plain, plain) && AllOf(p, OldEvent, stale) && AllOf(p, KeptEvent, kept) && AllOf(p, KeepAll, all)
      invariant multiset(plain) + multiset(stale) + multiset(kept) + multiset(all) == multiset(segs[..i])
    {
      var s := segs[i];
      assert segs[..i + 1] == segs[..i] + [s];
      if s.start >= p.keepAllCutoff {
        all := all + [s];
      } else if !s.event {
        plain := plain + [s];
      } else if s.start < p.keepEventCutoff {
        stale := stale + [s];
      } else {
        kept := kept + [s];
      }
    }
    assert segs[..|segs|] == segs;
  }

  /** Sorted tiers, one behind the other, are in order. */
  lemma TiersInOrder(p: Policy, a: seq<Seg>, b: seq<Seg>, t: Tier)
    requires InOrder(p, a) && OldestFirst(b) && AllOf(p, t, b)
    requires forall s :: s in a ==> RankOf(p, s) < Rank(t)
    ensures InOrder(p, a + b)
    ensures forall s :: s in a + b ==> RankOf(p, s) <= Rank(t)
  {
    forall i, j | 0 <= i < j < |a + b|
      ensures Goes(p, (a + b)[i], (a + b)[j])
    {
      if i < |a| { assert a[i] in a; } else { assert b[i - |a|] in b; }
      if j >= |a| { assert b[j - |a|] in b; }
    }
  }

  method DeleteOrder(segs: seq<Seg>, cap: int, total: int, p: Policy) returns (out: seq<Seg>, ghost order: seq<Seg>)
    requires total == Sum(segs)
    ensures cap <= 0 || total <= cap ==> out == []
    ensures cap > 0 && total > cap ==> IsDeletion(p, segs, cap, total, order, out)
  {
    order := [];
    if cap <= 0 || total <= cap {
      return [], order;
    }
    var plain, stale, kept, all := SplitTiers(p, segs);
    var first := SortByStart(plain);
    var second := SortByStart(stale);
    var third := SortByStart(kept);
    var last := SortByStart(all);
    SortedTier(p, Plain, plain, first);
    SortedTier(p, OldEvent, stale, second);
    SortedTier(p, KeptEvent, kept, third);
    SortedTier(p, KeepAll, all, last);
    var groups := [first, second, third, last];
    order := first + second + third + last;
    TiersInOrder(p, [], first, Plain);
    assert [] + first == first;
    TiersInOrder(p, first, second, OldEvent);
    TiersInOrder(p, first + second, third, KeptEvent);
    TiersInOrder(p, first + second + third, last, KeepAll);
    SumOfPermutation(order, segs);
    FlattenFour(first, second, third, last);
    out := TakeUntilFits(groups, cap, total);
  }

  lemma SortedTier(p: Policy, t: Tier, segs: seq<Seg>, sorted: seq<Seg>)
    requires AllOf(p, t, segs) && multiset(sorted) == multiset(segs)
    ensures AllOf(p, t, sorted)
  {
    forall s | s in sorted
      ensures s in segs
    {
      assert s in multiset(sorted);
    }
  }

  lemma FlattenFour(a: seq<Seg>, b: seq<Seg>, c: seq<Seg>, d: seq<Seg>)
    ensures Flatten([a, b, c, d]) == a + b + c + d
  {
    assert [a, b, c, d][1..] == [b, c, d] && [b, c, d][1..] == [c, d] && [c, d][1..] == [d];
    assert Flatten([d]) == d + [] == d;
    assert Flatten([c, d]) == c + d;
    assert Flatten([b, c, d]) == b + (c + d);
  }

  /** No shorter beginning would free enough. */
  predicate Needed(out: seq<Seg>, cap: int, total: int) {
    forall k :: 0 <= k < |out| ==> total - Sum(out[..k]) > cap
  }

  lemma OneMoreNeeded(out: seq<Seg>, s: Seg, cap: int, total: int)
    requires Needed(out, cap, total) && total - Sum(out) > cap
    ensures Needed(out + [s], cap, total)
  {
    var more := out + [s];
    forall k | 0 <= k < |more|
      ensures total - Sum(more[..k]) > cap
    {
      assert more[..k] == out[..k];
      assert out[..|out|] == out;
    }
  }

  /** Walks the groups one after the other until enough has been freed. */
  method TakeUntilFits(groups: seq<seq<Seg>>, cap: int, total: int) returns (out: seq<Seg>)
    requires total - Sum(Flatten(groups)) <= cap
    ensures out <= Flatten(groups)
    ensures total - Sum(out) <= cap
    ensures Needed(out, cap, total)
  {
    out := [];
    var freed := 0;
    for g := 0 to |groups|
      invariant out == Flatten(groups[..g]) && freed == Sum(out)
      invariant Needed(out, cap, total)
    {
      for i := 0 to |groups[g]|
        invariant out == Flatten(groups[..g]) + groups[g][..i] && freed == Sum(out)
        invariant Needed(out, cap, total)
      {
        if total - freed <= cap {
          TakenIsPrefix(groups, g, i);
          return;
        }
        SumSnoc(out, groups[g][i]);
        OneMoreNeeded(out, groups[g][i], cap, total);
        out := out + [groups[g][i]];
        freed := freed + groups[g][i].size;
      }
      GroupTaken(groups, g);
    }
    assert groups[..|groups|] == groups;
  }

  lemma GroupTaken(groups: seq<seq<Seg>>, g: nat)
    requires g < |groups|
    ensures Flatten(groups[..g + 1]) == Flatten(groups[..g]) + groups[g]
    ensures groups[g][..|groups[g]|] == groups[g]
  {
    assert groups[..g + 1] == groups[..g] + [groups[g]];
    FlattenAppend(groups[..g], [groups[g]]);
    assert Flatten([groups[g]]) == groups[g] + [] == groups[g];
  }

  lemma TakenIsPrefix(groups: seq<seq<Seg>>, g: nat, i: nat)
    requires g < |groups| && i <= |groups[g]|
    ensures Flatten(groups[..g]) + groups[g][..i] <= Flatten(groups)
  {
    assert groups == groups[..g] + groups[g..];
    FlattenAppend(groups[..g], groups[g..]);
    assert groups[g..][0] == groups[g];
    assert Flatten(groups[g..]) == groups[g] + Flatten(groups[g..][1..]);
  }
}
