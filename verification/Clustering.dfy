/** Coalescing a channel's fragmented events into the few that are shown. */
module Clustering {
  const MOTION := "motion"

  datatype Item = Item(stream: string, ch: int, name: string, kind: string, start: int, end: int, plate: string)

  /** What is left of an item when its plate and its labels are ignored. */
  datatype Span = Span(stream: string, kind: string, start: int, end: int)

  function SpanOf(it: Item): Span {
    Span(it.stream, it.kind, it.start, it.end)
  }

  function Spans(items: seq<Item>): set<Span> {
    set it | it in items :: SpanOf(it)
  }

  predicate SameKey(x: Span, y: Span) {
    x.stream == y.stream && x.kind == y.kind
  }

  predicate Sensible(s: set<Span>) {
    forall x :: x in s ==> x.start <= x.end
  }

  // ---------------------------------------------------------------- what a cluster is

  /** Nothing of the same key that begins before `at` reaches it within the gap. */
  predicate Boundary(s: set<Span>, gap: int, key: Span, at: int) {
    forall y :: y in s && SameKey(y, key) && y.start < at ==> at - y.end > gap
  }

  predicate StartsIn(s: set<Span>, m: Span) {
    exists x :: x in s && SameKey(x, m) && x.start == m.start
  }

  predicate EndsIn(s: set<Span>, m: Span) {
    exists y :: y in s && SameKey(y, m) && y.start >= m.start && y.end == m.end
  }

  /** Whatever begins within the gap behind the cluster's start ends within it. */
  predicate Closed(s: set<Span>, gap: int, m: Span) {
    forall y :: y in s && SameKey(y, m) && m.start <= y.start <= m.end + gap ==> y.end <= m.end
  }

  predicate Connected(s: set<Span>, gap: int, m: Span) {
    forall y {:trigger Boundary(s, gap, m, y.start)} ::
      y in s && SameKey(y, m) && m.start < y.start <= m.end ==> !Boundary(s, gap, m, y.start)
  }

  /** A longest run of intervals of one key, none of them more than the gap away from those before it. */
  predicate IsCluster(s: set<Span>, gap: int, m: Span) {
    StartsIn(s, m) && EndsIn(s, m) && Boundary(s, gap, m, m.start) && Closed(s, gap, m) && Connected(s, gap, m)
  }

  predicate Covers(m: Span, x: Span) {
    SameKey(m, x) && m.start <= x.start && x.end <= m.end
  }

  predicate Near(a: Span, b: Span, gap: int) {
    a.start <= b.end + gap && b.start <= a.end + gap
  }

  predicate Within(a: Span, x: int) {
    a.start <= x <= a.end
  }

  /** A moment of the one is within the gap of a moment of the other. */
  ghost predicate Reach(a: Span, b: Span, gap: int) {
    exists x, y :: Within(a, x) && Within(b, y) && -gap <= x - y <= gap
  }

  /** Two intervals are near each other exactly when a moment of the one is within the gap of a moment of the other. */
  lemma NearMeans(a: Span, b: Span, gap: int)
    requires a.start <= a.end && b.start <= b.end && gap >= 0
    ensures Near(a, b, gap) <==> Reach(a, b, gap)
  {
    if Near(a, b, gap) {
      var x := if a.end < b.start then a.end else if a.start <= b.start then b.start else a.start;
      var y := if a.end < b.start then b.start else if a.start <= b.end then x else b.end;
      assert Within(a, x) && Within(b, y) && -gap <= x - y <= gap;
    }
  }

  ghost predicate Shadowed(s: set<Span>, gap: int, m: Span) {
    m.kind == MOTION &&
    exists sp :: IsCluster(s, gap, sp) && sp.kind != MOTION && sp.stream == m.stream && Near(m, sp, gap)
  }

  /** The clusters that are shown: motion gives way to anything more specific next to it. */
  ghost predicate Shown(s: set<Span>, gap: int, m: Span) {
    IsCluster(s, gap, m) && !Shadowed(s, gap, m)
  }

  /**
   A cluster is left out exactly if it is motion and a moment of it is within the gap of a moment
   of a cluster of the same stream that is something else.
   */
  lemma ShownMeans(s: set<Span>, gap: int, m: Span)
    requires gap >= 0 && Sensible(s) && IsCluster(s, gap, m)
    ensures !Shown(s, gap, m) <==>
            m.kind == "motion" && exists sp :: IsCluster(s, gap, sp) && sp.kind != "motion" && sp.stream == m.stream && Reach(m, sp, gap)
  {
    ClusterIsSensible(s, gap, m);
    hide IsCluster;
    forall sp | IsCluster(s, gap, sp)
      ensures Near(m, sp, gap) <==> Reach(m, sp, gap)
    {
      ClusterIsSensible(s, gap, sp);
      NearMeans(m, sp, gap);
    }
  }

  // ---------------------------------------------------------------- clusters are determined by their members

  /** Two clusters with the same start are the same. */
  lemma SameStart(s: set<Span>, gap: int, m: Span, n: Span)
    requires gap >= 0 && Sensible(s)
    requires IsCluster(s, gap, m) && IsCluster(s, gap, n) && SameKey(m, n) && m.start == n.start
    ensures m == n
  {
    NoLongerCluster(s, gap, m, n);
    NoLongerCluster(s, gap, n, m);
  }

  /** What a cluster takes in, another one with the same start reaches as well. */
  lemma {:induction false} ReachedByBoth(s: set<Span>, gap: int, m: Span, n: Span, y: Span)
    requires gap >= 0 && Sensible(s)
    requires IsCluster(s, gap, m) && IsCluster(s, gap, n) && SameKey(m, n) && m.start == n.start
    requires y in s && SameKey(y, m) && m.start <= y.start <= n.end && m.start <= m.end
    ensures y.start <= m.end + gap
    decreases if y.start > m.end then y.start - m.end else 0
  {
    if y.start > m.end {
      assert !Boundary(s, gap, n, y.start);
      var z :| z in s && SameKey(z, n) && z.start < y.start && y.start - z.end <= gap;
      if z.start >= m.start {
        ReachedByBoth(s, gap, m, n, z);
      }
    }
  }

  lemma NoLongerCluster(s: set<Span>, gap: int, m: Span, n: Span)
    requires gap >= 0 && Sensible(s)
    requires IsCluster(s, gap, m) && IsCluster(s, gap, n) && SameKey(m, n) && m.start == n.start
    ensures n.end <= m.end
  {
    ClusterIsSensible(s, gap, m);
    var y :| y in s && SameKey(y, n) && y.start >= n.start && y.end == n.end;
    ReachedByBoth(s, gap, m, n, y);
  }

  lemma ClusterIsSensible(s: set<Span>, gap: int, m: Span)
    requires gap >= 0 && Sensible(s) && IsCluster(s, gap, m)
    ensures m.start <= m.end
  {
    var y :| y in s && SameKey(y, m) && y.start >= m.start && y.end == m.end;
  }

  /** Different clusters of one key are more than the gap apart. */
  lemma ClustersAreApart(s: set<Span>, gap: int, m: Span, n: Span)
    requires gap >= 0 && Sensible(s)
    requires IsCluster(s, gap, m) && IsCluster(s, gap, n) && SameKey(m, n) && m != n
    ensures m.end + gap < n.start || n.end + gap < m.start
  {
    if m.start == n.start {
      SameStart(s, gap, m, n);
    } else if m.start < n.start {
      OrderedAreApart(s, gap, m, n);
    } else {
      OrderedAreApart(s, gap, n, m);
    }
  }

  lemma OrderedAreApart(s: set<Span>, gap: int, m: Span, n: Span)
    requires gap >= 0 && Sensible(s)
    requires IsCluster(s, gap, m) && IsCluster(s, gap, n) && SameKey(m, n) && m.start < n.start
    ensures m.end + gap < n.start
  {
    var x :| x in s && SameKey(x, n) && x.start == n.start;
    var y :| y in s && SameKey(y, m) && y.start >= m.start && y.end == m.end;
    assert n.start <= m.end ==> !Boundary(s, gap, m, x.start);
    assert Boundary(s, gap, m, n.start) <==> Boundary(s, gap, n, n.start);
    assert y.start < n.start ==> n.start - y.end > gap;
  }

  /** A cluster that starts inside another one is that one. */
  lemma StartInside(s: set<Span>, gap: int, m: Span, n: Span)
    requires gap >= 0 && Sensible(s)
    requires IsCluster(s, gap, m) && IsCluster(s, gap, n) && SameKey(m, n) && m.start <= n.start <= m.end
    ensures m == n
  {
    if m != n {
      ClustersAreApart(s, gap, m, n);
      ClusterIsSensible(s, gap, n);
    }
  }

  // ---------------------------------------------------------------- merging

  /** The last entry takes the next item in, or the item begins an entry of its own. */
  function Absorb(last: Item, it: Item): Item {
    last.(end := if it.end > last.end then it.end else last.end,
          plate := if last.plate == "" && it.plate != "" then it.plate else last.plate)
  }

  function MergeNext(merged: seq<Item>, it: Item, gap: int): seq<Item> {
    var n := |merged| - 1;
    if merged != [] && SameKey(SpanOf(merged[n]), SpanOf(it)) && it.start - merged[n].end <= gap
    then merged[..n] + [Absorb(merged[n], it)]
    else merged + [it]
  }

  function MergeAll(items: seq<Item>, gap: int): seq<Item> {
    if items == [] then [] else MergeNext(MergeAll(items[..|items| - 1], gap), items[|items| - 1], gap)
  }

  /** The next item in sorted order: nothing of its key begins later. */
  predicate Later(s: set<Span>, x: Span) {
    forall y :: y in s && SameKey(y, x) ==> y.start <= x.start
  }

  lemma BoundaryShrinks(s: set<Span>, gap: int, x: Span, key: Span, at: int)
    ensures Boundary(s + {x}, gap, key, at) ==> Boundary(s, gap, key, at)
  {
  }

  lemma KeepsCluster(s: set<Span>, gap: int, m: Span, x: Span)
    requires gap >= 0 && Sensible(s) && IsCluster(s, gap, m)
    requires !SameKey(m, x) || m.end + gap < x.start
    ensures IsCluster(s + {x}, gap, m)
  {
    ClusterIsSensible(s, gap, m);
    var a :| a in s && SameKey(a, m) && a.start == m.start;
    var b :| b in s && SameKey(b, m) && b.start >= m.start && b.end == m.end;
    assert a in s + {x} && b in s + {x};
    forall y | y in s + {x} && SameKey(y, m) && m.start < y.start <= m.end
      ensures !Boundary(s + {x}, gap, m, y.start)
    {
      assert !Boundary(s, gap, m, y.start);
      BoundaryShrinks(s, gap, x, m, y.start);
    }
  }

  lemma FreshCluster(s: set<Span>, gap: int, x: Span)
    requires gap >= 0 && Sensible(s + {x})
    requires forall y :: y in s && SameKey(y, x) ==> y.end + gap < x.start
    ensures IsCluster(s + {x}, gap, x)
  {
    assert x in s + {x};
  }

  /** No boundary comes about inside a cluster that takes in the next interval. */
  lemma StaysConnected(s: set<Span>, gap: int, m: Span, x: Span, b: Span, y: Span)
    requires gap >= 0 && Sensible(s + {x}) && Connected(s, gap, m)
    requires SameKey(m, x) && x.start <= m.end + gap && Later(s, x)
    requires forall z :: z in s && SameKey(z, m) ==> z.end <= m.end
    requires b in s && SameKey(b, m) && b.start >= m.start && b.end == m.end
    requires y in s + {x} && SameKey(y, m) && m.start < y.start
    ensures !Boundary(s + {x}, gap, m, y.start)
  {
    if y in s {
      assert !Boundary(s, gap, m, y.start);
      BoundaryShrinks(s, gap, x, m, y.start);
    } else if b.start < x.start {
      assert b in s + {x};
    } else {
      assert !Boundary(s, gap, m, b.start);
      BoundaryShrinks(s, gap, x, m, b.start);
    }
  }

  lemma GrownIsClosed(s: set<Span>, gap: int, m: Span, x: Span)
    requires gap >= 0 && IsCluster(s, gap, m) && SameKey(m, x) && m.start <= x.start && Later(s, x)
    requires forall y :: y in s && SameKey(y, m) ==> y.end <= m.end
    ensures var g := m.(end := if x.end > m.end then x.end else m.end);
            Closed(s + {x}, gap, g) && Boundary(s + {x}, gap, g, g.start)
  {
    hide Connected, StartsIn, EndsIn;
  }

  lemma GrownCluster(s: set<Span>, gap: int, m: Span, x: Span)
    requires gap >= 0 && Sensible(s + {x}) && IsCluster(s, gap, m)
    requires SameKey(m, x) && m.start <= x.start <= m.end + gap && Later(s, x)
    requires forall y :: y in s && SameKey(y, m) ==> y.end <= m.end
    ensures IsCluster(s + {x}, gap, m.(end := if x.end > m.end then x.end else m.end))
  {
    var t, g := s + {x}, m.(end := if x.end > m.end then x.end else m.end);
    var a :| a in s && SameKey(a, m) && a.start == m.start;
    var b :| b in s && SameKey(b, m) && b.start >= m.start && b.end == m.end;
    GrownIsClosed(s, gap, m, x);
    hide Closed, Boundary;
    assert StartsIn(t, g) by {
      assert a in t;
    }
    assert EndsIn(t, g) by {
      assert b in t && x in t;
    }
    forall y | y in t && SameKey(y, g) && g.start < y.start <= g.end
      ensures !Boundary(t, gap, g, y.start)
    {
      StaysConnected(s, gap, m, x, b, y);
      SameBoundary(t, gap, m, g, y.start);
    }
  }

  lemma SameBoundary(s: set<Span>, gap: int, m: Span, g: Span, at: int)
    requires SameKey(m, g)
    ensures Boundary(s, gap, m, at) <==> Boundary(s, gap, g, at)
  {
  }

  ghost predicate Covered(merged: seq<Item>, x: Span) {
    exists i :: 0 <= i < |merged| && Covers(SpanOf(merged[i]), x)
  }

  ghost predicate AllClusters(s: set<Span>, gap: int, merged: seq<Item>) {
    forall i {:trigger IsCluster(s, gap, SpanOf(merged[i]))} ::
      0 <= i < |merged| ==> IsCluster(s, gap, SpanOf(merged[i]))
  }

  ghost predicate AllCovered(s: set<Span>, merged: seq<Item>) {
    forall x {:trigger Covered(merged, x)} :: x in s ==> Covered(merged, x)
  }

  predicate Apart(gap: int, merged: seq<Item>) {
    forall i, j :: 0 <= i < j < |merged| && SameKey(SpanOf(merged[i]), SpanOf(merged[j])) ==>
      merged[i].end + gap < merged[j].start
  }

  /** The last entry has the latest end of its key. */
  predicate LastIsLongest(s: set<Span>, merged: seq<Item>) {
    merged != [] ==>
      forall x :: x in s && SameKey(x, SpanOf(merged[|merged| - 1])) ==> x.end <= merged[|merged| - 1].end
  }

  /** The entries so far, the last of which is still open. */
  ghost predicate MergeInv(s: set<Span>, gap: int, merged: seq<Item>) {
    AllClusters(s, gap, merged) && AllCovered(s, merged) && Apart(gap, merged) && LastIsLongest(s, merged)
  }

  /** Only the key of the last entry can go on. */
  predicate Sequel(s: set<Span>, merged: seq<Item>, x: Span) {
    && Later(s, x)
    && (merged == [] || !SameKey(SpanOf(merged[|merged| - 1]), x) ==> forall y :: y in s ==> !SameKey(y, x))
  }

  predicate Joins(merged: seq<Item>, it: Item, gap: int) {
    merged != [] && SameKey(SpanOf(merged[|merged| - 1]), SpanOf(it)) && it.start - merged[|merged| - 1].end <= gap
  }

  lemma CoverageGrows(s: set<Span>, gap: int, merged: seq<Item>, it: Item)
    requires AllCovered(s, merged)
    requires Joins(merged, it, gap) ==> merged[|merged| - 1].start <= it.start
    ensures AllCovered(s + {SpanOf(it)}, MergeNext(merged, it, gap))
  {
    var x, out := SpanOf(it), MergeNext(merged, it, gap);
    forall y | y in s + {x}
      ensures Covered(out, y)
    {
      if y == x {
        assert Covers(SpanOf(out[|out| - 1]), y);
      } else {
        assert Covered(merged, y);
        var i :| 0 <= i < |merged| && Covers(SpanOf(merged[i]), y);
        assert Covers(SpanOf(out[i]), y);
      }
    }
  }

  lemma LastStart(s: set<Span>, gap: int, merged: seq<Item>, x: Span)
    requires AllClusters(s, gap, merged) && Later(s, x)
    requires merged != [] && SameKey(SpanOf(merged[|merged| - 1]), x)
    ensures merged[|merged| - 1].start <= x.start
  {
    var m := SpanOf(merged[|merged| - 1]);
    assert IsCluster(s, gap, m);
    var a :| a in s && SameKey(a, m) && a.start == m.start;
  }

  lemma OldClusterStays(s: set<Span>, gap: int, merged: seq<Item>, i: nat, x: Span)
    requires gap >= 0 && Sensible(s) && AllClusters(s, gap, merged) && Apart(gap, merged) && Later(s, x)
    requires merged != [] && SameKey(SpanOf(merged[|merged| - 1]), x)
    requires i < |merged| - 1
    ensures IsCluster(s + {x}, gap, SpanOf(merged[i]))
  {
    assert IsCluster(s, gap, SpanOf(merged[i]));
    LastStart(s, gap, merged, x);
    KeepsCluster(s, gap, SpanOf(merged[i]), x);
  }

  lemma MergeGrows(s: set<Span>, gap: int, merged: seq<Item>, it: Item)
    requires gap >= 0 && Sensible(s + {SpanOf(it)}) && MergeInv(s, gap, merged) && Sequel(s, merged, SpanOf(it))
    requires Joins(merged, it, gap)
    ensures MergeInv(s + {SpanOf(it)}, gap, MergeNext(merged, it, gap))
  {
    var n, x := |merged| - 1, SpanOf(it);
    var m, out := SpanOf(merged[n]), MergeNext(merged, it, gap);
    LastStart(s, gap, merged, x);
    CoverageGrows(s, gap, merged, it);
    assert AllClusters(s + {x}, gap, out) by {
      assert IsCluster(s, gap, m);
      GrownCluster(s, gap, m, x);
      assert SpanOf(out[n]) == m.(end := if x.end > m.end then x.end else m.end);
      forall i | 0 <= i < |out|
        ensures IsCluster(s + {x}, gap, SpanOf(out[i]))
      {
        if i < n {
          assert out[i] == merged[i];
          OldClusterStays(s, gap, merged, i, x);
        }
      }
    }
    GrowsApart(s, gap, merged, it);
  }

  lemma GrowsApart(s: set<Span>, gap: int, merged: seq<Item>, it: Item)
    requires Apart(gap, merged) && LastIsLongest(s, merged) && Joins(merged, it, gap)
    ensures Apart(gap, MergeNext(merged, it, gap)) && LastIsLongest(s + {SpanOf(it)}, MergeNext(merged, it, gap))
  {
  }

  lemma MergeStarts(s: set<Span>, gap: int, merged: seq<Item>, it: Item)
    requires gap >= 0 && Sensible(s + {SpanOf(it)}) && MergeInv(s, gap, merged) && Sequel(s, merged, SpanOf(it))
    requires !Joins(merged, it, gap)
    ensures MergeInv(s + {SpanOf(it)}, gap, MergeNext(merged, it, gap))
  {
    var n, x := |merged|, SpanOf(it);
    var out := MergeNext(merged, it, gap);
    assert out == merged + [it];
    CoverageGrows(s, gap, merged, it);
    EntriesEndBefore(s, gap, merged, it);
    assert AllClusters(s + {x}, gap, out) by {
      FreshCluster(s, gap, x);
      forall i | 0 <= i < |out|
        ensures IsCluster(s + {x}, gap, SpanOf(out[i]))
      {
        if i < n {
          assert IsCluster(s, gap, SpanOf(merged[i]));
          KeepsCluster(s, gap, SpanOf(merged[i]), x);
        }
      }
    }
    StartsApart(s, gap, merged, it);
  }

  lemma EntriesEndBefore(s: set<Span>, gap: int, merged: seq<Item>, it: Item)
    requires gap >= 0 && MergeInv(s, gap, merged) && Sequel(s, merged, SpanOf(it)) && !Joins(merged, it, gap)
    ensures forall i :: 0 <= i < |merged| && SameKey(SpanOf(merged[i]), SpanOf(it)) ==> merged[i].end + gap < it.start
    ensures forall y :: y in s && SameKey(y, SpanOf(it)) ==> y.end + gap < it.start
  {
    forall i | 0 <= i < |merged| && SameKey(SpanOf(merged[i]), SpanOf(it))
      ensures merged[i].end + gap < it.start
    {
      assert IsCluster(s, gap, SpanOf(merged[i]));
      EndIsMember(s, gap, SpanOf(merged[i]));
    }
  }

  lemma StartsApart(s: set<Span>, gap: int, merged: seq<Item>, it: Item)
    requires Apart(gap, merged) && !Joins(merged, it, gap) && it.start <= it.end && gap >= 0
    requires forall i :: 0 <= i < |merged| && SameKey(SpanOf(merged[i]), SpanOf(it)) ==> merged[i].end + gap < it.start
    requires forall y :: y in s && SameKey(y, SpanOf(it)) ==> y.end + gap < it.start
    ensures Apart(gap, MergeNext(merged, it, gap)) && LastIsLongest(s + {SpanOf(it)}, MergeNext(merged, it, gap))
  {
  }

  lemma EndIsMember(s: set<Span>, gap: int, m: Span)
    requires IsCluster(s, gap, m)
    ensures exists y :: y in s && SameKey(y, m) && y.end == m.end
  {
  }

  // ---------------------------------------------------------------- sorted items

  /** The order of strings, character by character. */
  predicate Less(a: string, b: string) {
    b != "" && (a == "" || a[0] < b[0] || (a[0] == b[0] && Less(a[1..], b[1..])))
  }

  /** The names agree in their first n characters, and then a is at its end or has the smaller character. */
  predicate FirstDiffersAt(a: string, b: string, n: nat) {
    n <= |a| && n < |b| && a[..n] == b[..n] && (n == |a| || a[n] < b[n])
  }

  lemma FirstCharacters(a: string, b: string, n: nat)
    requires n <= |a| && n <= |b| && a[..n] == b[..n] && n > 0
    ensures a[0] == b[0]
  {
    assert a[..n][0] == b[..n][0];
  }

  lemma {:induction false} LessMeans(a: string, b: string)
    ensures Less(a, b) <==> exists n: nat :: FirstDiffersAt(a, b, n)
  {
    if b != "" && (a == "" || a[0] < b[0]) {
      assert FirstDiffersAt(a, b, 0);
    } else if a != "" && b != "" && a[0] == b[0] {
      LessMeans(a[1..], b[1..]);
      if n: nat :| FirstDiffersAt(a[1..], b[1..], n) {
        assert a[..n + 1] == [a[0]] + a[1..][..n] && b[..n + 1] == [b[0]] + b[1..][..n];
        assert FirstDiffersAt(a, b, n + 1);
      }
      if n: nat :| FirstDiffersAt(a, b, n) {
        assert n > 0;
        assert a[1..][..n - 1] == a[..n][1..] && b[1..][..n - 1] == b[..n][1..];
        assert FirstDiffersAt(a[1..], b[1..], n - 1);
      }
    } else {
      forall n: nat
        ensures !FirstDiffersAt(a, b, n)
      {
        if n <= |a| && n <= |b| && a[..n] == b[..n] && n > 0 { FirstCharacters(a, b, n); }
      }
    }
  }

  lemma {:induction false} LessIsTotal(a: string, b: string)
    ensures a == b || Less(a, b) || Less(b, a)
    ensures Less(a, b) ==> a != b && !Less(b, a)
  {
    if a != "" && b != "" {
      LessIsTotal(a[1..], b[1..]);
      assert a == [a[0]] + a[1..] && b == [b[0]] + b[1..];
    }
  }

  lemma {:induction false} LessIsTransitive(a: string, b: string, c: string)
    ensures Less(a, b) && Less(b, c) ==> Less(a, c)
  {
    if a != "" && b != "" && c != "" {
      LessIsTransitive(a[1..], b[1..], c[1..]);
    }
  }

  predicate Before(x: Item, y: Item) {
    if x.stream != y.stream then Less(x.stream, y.stream)
    else if x.kind != y.kind then Less(x.kind, y.kind)
    else x.start <= y.start
  }

  predicate Sorted(items: seq<Item>) {
    forall i, j :: 0 <= i < j < |items| ==> Before(items[i], items[j])
  }

  method SortItems(items: seq<Item>) returns (sorted: seq<Item>)
    ensures Sorted(sorted) && multiset(sorted) == multiset(items)
  {
    sorted := [];
    var i := 0;
    while i < |items|
      invariant 0 <= i <= |items|
      invariant Sorted(sorted) && multiset(sorted) == multiset(items[..i])
    {
      var k := 0;
      while k < |sorted| && Before(sorted[k], items[i])
        invariant 0 <= k <= |sorted|
        invariant forall j :: 0 <= j < k ==> Before(sorted[j], items[i])
      {
        k := k + 1;
      }
      InsertSorted(sorted, k, items[i]);
      assert items[..i + 1] == items[..i] + [items[i]];
      sorted := sorted[..k] + [items[i]] + sorted[k..];
      i := i + 1;
    }
    assert items[..i] == items;
  }

  lemma InsertSorted(sorted: seq<Item>, k: nat, it: Item)
    requires Sorted(sorted) && k <= |sorted|
    requires forall j :: 0 <= j < k ==> Before(sorted[j], it)
    requires k < |sorted| ==> !Before(sorted[k], it)
    ensures Sorted(sorted[..k] + [it] + sorted[k..])
    ensures multiset(sorted[..k] + [it] + sorted[k..]) == multiset(sorted) + multiset{it}
  {
    assert sorted == sorted[..k] + sorted[k..];
    forall j | k <= j < |sorted|
      ensures Before(it, sorted[j])
    {
      BeforeIsOrder(it, sorted[k], sorted[j]);
    }
    InsertBetween(sorted, k, it);
  }

  lemma InsertBetween(sorted: seq<Item>, k: nat, it: Item)
    requires Sorted(sorted) && k <= |sorted|
    requires forall j :: 0 <= j < k ==> Before(sorted[j], it)
    requires forall j :: k <= j < |sorted| ==> Before(it, sorted[j])
    ensures Sorted(sorted[..k] + [it] + sorted[k..])
  {
    var out := sorted[..k] + [it] + sorted[k..];
    forall i, j | 0 <= i < j < |out|
      ensures Before(out[i], out[j])
    {
      assert out[i] == if i < k then sorted[i] else if i == k then it else sorted[i - 1];
      assert out[j] == if j < k then sorted[j] else if j == k then it else sorted[j - 1];
    }
  }

  lemma BeforeIsOrder(x: Item, y: Item, z: Item)
    ensures Before(x, y) || Before(y, x)
    ensures Before(x, y) && Before(y, z) ==> Before(x, z)
    ensures Before(x, y) && Before(y, z) && SameKey(SpanOf(x), SpanOf(z)) ==> SameKey(SpanOf(x), SpanOf(y))
  {
    hide Less;
    LessIsTotal(x.stream, y.stream);
    LessIsTotal(x.kind, y.kind);
    LessIsTransitive(x.stream, y.stream, z.stream);
    LessIsTransitive(x.kind, y.kind, z.kind);
  }

  // ---------------------------------------------------------------- merging sorted items

  lemma SpansSnoc(items: seq<Item>, it: Item)
    ensures Spans(items + [it]) == Spans(items) + {SpanOf(it)}
  {
    assert forall x :: x in items + [it] <==> x in items || x == it;
  }

  /** The key of the last entry is that of the last item. */
  lemma LastKey(merged: seq<Item>, it: Item, gap: int)
    ensures SameKey(SpanOf(MergeNext(merged, it, gap)[|MergeNext(merged, it, gap)| - 1]), SpanOf(it))
  {
  }

  lemma SortedSequel(items: seq<Item>, it: Item, merged: seq<Item>)
    requires Sorted(items + [it])
    requires items == [] ==> merged == []
    requires items != [] ==> merged != [] && SameKey(SpanOf(merged[|merged| - 1]), SpanOf(items[|items| - 1]))
    ensures Sequel(Spans(items), merged, SpanOf(it))
  {
    var all := items + [it];
    forall y | y in Spans(items) && SameKey(y, SpanOf(it))
      ensures y.start <= it.start && merged != [] && SameKey(SpanOf(merged[|merged| - 1]), SpanOf(it))
    {
      var k :| 0 <= k < |items| && SpanOf(items[k]) == y;
      assert Before(all[k], all[|items|]);
      var last := items[|items| - 1];
      assert all[|items| - 1] == last && all[k] == items[k];
      if k < |items| - 1 {
        assert Before(all[k], all[|items| - 1]) && Before(all[|items| - 1], all[|items|]);
        BeforeIsOrder(items[k], last, it);
      }
    }
  }

  lemma {:induction false} MergeIsClustering(items: seq<Item>, gap: int)
    requires gap >= 0 && Sorted(items) && Sensible(Spans(items))
    ensures MergeInv(Spans(items), gap, MergeAll(items, gap))
    ensures items != [] ==>
              MergeAll(items, gap) != [] &&
              SameKey(SpanOf(MergeAll(items, gap)[|MergeAll(items, gap)| - 1]), SpanOf(items[|items| - 1]))
    ensures items == [] ==> MergeAll(items, gap) == []
    decreases |items|
  {
    if items != [] {
      var front, it := items[..|items| - 1], items[|items| - 1];
      assert items == front + [it];
      SpansSnoc(front, it);
      FrontIsSorted(items);
      assert MergeAll(items, gap) == MergeNext(MergeAll(front, gap), it, gap);
      hide *;
      MergeIsClustering(front, gap);
      MergeStep(front, it, MergeAll(front, gap), gap);
      LastKey(MergeAll(front, gap), it, gap);
    }
  }

  lemma FrontIsSorted(items: seq<Item>)
    requires items != [] && Sorted(items) && Sensible(Spans(items))
    ensures Sorted(items[..|items| - 1]) && Sensible(Spans(items[..|items| - 1]))
  {
    var front := items[..|items| - 1];
    assert forall i :: 0 <= i < |front| ==> front[i] == items[i];
    assert forall it :: it in front ==> it in items;
    hide Before;
  }

  lemma MergeStep(front: seq<Item>, it: Item, merged: seq<Item>, gap: int)
    requires gap >= 0 && Sorted(front + [it]) && Sensible(Spans(front) + {SpanOf(it)})
    requires MergeInv(Spans(front), gap, merged)
    requires front == [] ==> merged == []
    requires front != [] ==> merged != [] && SameKey(SpanOf(merged[|merged| - 1]), SpanOf(front[|front| - 1]))
    ensures MergeInv(Spans(front) + {SpanOf(it)}, gap, MergeNext(merged, it, gap))
  {
    SortedSequel(front, it, merged);
    if Joins(merged, it, gap) {
      MergeGrows(Spans(front), gap, merged, it);
    } else {
      MergeStarts(Spans(front), gap, merged, it);
    }
  }

  /** An entry made of the items from lo to hi: it begins like the first, ends with the last to end, and has the first plate there is. */
  ghost predicate MadeOf(items: seq<Item>, lo: nat, hi: nat, m: Item)
    requires lo < hi <= |items|
  {
    && m == items[lo].(end := m.end, plate := m.plate)
    && (exists k :: lo <= k < hi && items[k].end == m.end) && (forall k :: lo <= k < hi ==> items[k].end <= m.end)
    && (m.plate == "" ==> forall k :: lo <= k < hi ==> items[k].plate == "")
    && (m.plate != "" ==> exists k :: lo <= k < hi && items[k].plate == m.plate && forall j :: lo <= j < k ==> items[j].plate == "")
  }

  lemma MadeOfMore(items: seq<Item>, lo: nat, n: nat, m: Item)
    requires lo < n < |items| && MadeOf(items, lo, n, m)
    ensures MadeOf(items, lo, n + 1, Absorb(m, items[n]))
  {
    var k :| lo <= k < n && items[k].end == m.end;
    if m.plate != "" {
      var j :| lo <= j < n && items[j].plate == m.plate && forall i :: lo <= i < j ==> items[i].plate == "";
      assert Absorb(m, items[n]).plate == items[j].plate;
    }
  }

  /** Entry i is made of the items between two cuts. */
  ghost predicate RunAt(items: seq<Item>, cuts: seq<nat>, i: nat, m: Item) {
    i + 1 < |cuts| && cuts[i] < cuts[i + 1] <= |items| && MadeOf(items, cuts[i], cuts[i + 1], m)
  }

  ghost predicate AreRuns(items: seq<Item>, cuts: seq<nat>, merged: seq<Item>) {
    && |cuts| == |merged| + 1 && cuts[0] == 0 && cuts[|merged|] == |items|
    && forall i :: 0 <= i < |merged| ==> RunAt(items, cuts, i, merged[i])
  }

  /** The entries are made of consecutive runs of the items, from the first to the last. */
  lemma {:induction false} EntriesAreRuns(items: seq<Item>, gap: int) returns (cuts: seq<nat>)
    ensures AreRuns(items, cuts, MergeAll(items, gap))
    decreases |items|
  {
    if items == [] {
      cuts := [0];
    } else {
      var n := |items| - 1;
      var before := EntriesAreRuns(items[..n], gap);
      var merged := MergeAll(items[..n], gap);
      if Joins(merged, items[n], gap) {
        cuts := LastRunGrows(items, before, merged);
      } else {
        cuts := RunBegins(items, before, merged);
      }
    }
  }

  lemma FrontRunAt(items: seq<Item>, cuts: seq<nat>, more: seq<nat>, i: nat, m: Item)
    requires items != [] && RunAt(items[..|items| - 1], cuts, i, m) && i + 1 < |more| && more[i] == cuts[i] && more[i + 1] == cuts[i + 1]
    ensures RunAt(items, more, i, m)
  {
    MadeOfFront(items, |items| - 1, cuts[i], cuts[i + 1], m);
  }

  lemma LastRunGrows(items: seq<Item>, cuts: seq<nat>, merged: seq<Item>) returns (more: seq<nat>)
    requires items != [] && merged != [] && AreRuns(items[..|items| - 1], cuts, merged)
    ensures AreRuns(items, more, merged[..|merged| - 1] + [Absorb(merged[|merged| - 1], items[|items| - 1])])
  {
    var n, k := |items| - 1, |merged| - 1;
    more := cuts[..k + 1] + [n + 1];
    var out := merged[..k] + [Absorb(merged[k], items[n])];
    assert RunAt(items[..n], cuts, k, merged[k]);
    MadeOfFront(items, n, cuts[k], n, merged[k]);
    MadeOfMore(items, cuts[k], n, merged[k]);
    hide MadeOf;
    forall i | 0 <= i < |out|
      ensures RunAt(items, more, i, out[i])
    {
      if i < k {
        assert RunAt(items[..n], cuts, i, merged[i]);
        FrontRunAt(items, cuts, more, i, merged[i]);
      }
    }
  }

  lemma RunBegins(items: seq<Item>, cuts: seq<nat>, merged: seq<Item>) returns (more: seq<nat>)
    requires items != [] && AreRuns(items[..|items| - 1], cuts, merged)
    ensures AreRuns(items, more, merged + [items[|items| - 1]])
  {
    var n := |items| - 1;
    more := cuts + [n + 1];
    var out := merged + [items[n]];
    assert MadeOf(items, n, n + 1, items[n]);
    hide MadeOf;
    forall i | 0 <= i < |out|
      ensures RunAt(items, more, i, out[i])
    {
      if i < |merged| {
        assert RunAt(items[..n], cuts, i, merged[i]);
        FrontRunAt(items, cuts, more, i, merged[i]);
      }
    }
  }

  lemma MadeOfFront(items: seq<Item>, n: nat, lo: nat, hi: nat, m: Item)
    requires lo < hi <= n <= |items| && MadeOf(items[..n], lo, hi, m)
    ensures MadeOf(items, lo, hi, m)
  {
    var front := items[..n];
    assert forall i :: lo <= i < hi ==> front[i] == items[i];
    SameMadeOf(front, items, lo, hi, m);
  }

  lemma SameMadeOf(a: seq<Item>, b: seq<Item>, lo: nat, hi: nat, m: Item)
    requires lo < hi <= |a| && hi <= |b| && (forall i :: lo <= i < hi ==> a[i] == b[i]) && MadeOf(a, lo, hi, m)
    ensures MadeOf(b, lo, hi, m)
  {
    var k :| lo <= k < hi && a[k].end == m.end;
    assert b[k].end == m.end;
    if m.plate != "" {
      var j :| lo <= j < hi && a[j].plate == m.plate && forall i :: lo <= i < j ==> a[i].plate == "";
      assert b[j].plate == m.plate;
    }
  }

  lemma MergeOneMore(items: seq<Item>, i: nat, gap: int)
    requires i < |items|
    ensures MergeAll(items[..i + 1], gap) == MergeNext(MergeAll(items[..i], gap), items[i], gap)
  {
    assert items[..i + 1][..i] == items[..i];
    hide MergeNext;
  }

  method MergeSorted(items: seq<Item>, gap: int) returns (merged: seq<Item>)
    ensures merged == MergeAll(items, gap)
  {
    merged := [];
    var i := 0;
    assert MergeAll(items[..0], gap) == [];
    hide MergeAll;
    while i < |items|
      invariant 0 <= i <= |items|
      invariant merged == MergeAll(items[..i], gap)
    {
      var it := items[i];
      MergeOneMore(items, i, gap);
      i := i + 1;
      var n := |merged|;
      if n > 0 {
        var last := merged[n - 1];
        if last.stream == it.stream && last.kind == it.kind && it.start - last.end <= gap {
          if it.end > last.end {
            last := last.(end := it.end);
          }
          if last.plate == "" && it.plate != "" {
            last := last.(plate := it.plate);
          }
          merged := merged[..n - 1] + [last];
          continue;
        }
      }
      merged := merged + [it];
    }
    assert items[..i] == items;
  }

  // ---------------------------------------------------------------- dropping motion

  function Specific(merged: seq<Item>, stream: string): seq<Item> {
    if merged == [] then []
    else
      var front, it := Specific(merged[..|merged| - 1], stream), merged[|merged| - 1];
      if it.kind != MOTION && it.stream == stream then front + [it] else front
  }

  predicate Dropped(merged: seq<Item>, gap: int, it: Item) {
    it.kind == MOTION &&
    exists sp :: sp in merged && sp.kind != MOTION && sp.stream == it.stream && Near(SpanOf(it), SpanOf(sp), gap)
  }

  /** The entries of `some` that stay next to those of `merged`. */
  function Remaining(merged: seq<Item>, gap: int, some: seq<Item>): seq<Item> {
    if some == [] then []
    else
      var front, it := Remaining(merged, gap, some[..|some| - 1]), some[|some| - 1];
      if Dropped(merged, gap, it) then front else front + [it]
  }

  lemma {:induction false} InSpecific(merged: seq<Item>, stream: string, it: Item)
    ensures it in Specific(merged, stream) <==> it in merged && it.kind != MOTION && it.stream == stream
    decreases |merged|
  {
    if merged != [] {
      var n := |merged| - 1;
      InSpecific(merged[..n], stream, it);
      assert merged == merged[..n] + [merged[n]];
    }
  }

  lemma {:induction false} InRemaining(merged: seq<Item>, gap: int, some: seq<Item>, it: Item)
    ensures it in Remaining(merged, gap, some) <==> it in some && !Dropped(merged, gap, it)
    decreases |some|
  {
    if some != [] {
      var n := |some| - 1;
      InRemaining(merged, gap, some[..n], it);
      assert some == some[..n] + [some[n]];
    }
  }

  lemma {:induction false} RemainingApart(merged: seq<Item>, gap: int, some: seq<Item>)
    requires Apart(gap, some)
    ensures Apart(gap, Remaining(merged, gap, some))
    decreases |some|
  {
    if some != [] {
      var n := |some| - 1;
      var front := Remaining(merged, gap, some[..n]);
      RemainingApart(merged, gap, some[..n]);
      forall i | 0 <= i < |front| && SameKey(SpanOf(front[i]), SpanOf(some[n]))
        ensures front[i].end + gap < some[n].start
      {
        InRemaining(merged, gap, some[..n], front[i]);
        var k :| 0 <= k < n && some[..n][k] == front[i];
      }
    }
  }

  /** The specific entries, looked up by stream. */
  method BySpecificStream(merged: seq<Item>) returns (specific: map<string, seq<Item>>)
    ensures forall st :: Lookup(specific, st) == Specific(merged, st)
  {
    specific := map[];
    var i := 0;
    while i < |merged|
      invariant 0 <= i <= |merged|
      invariant forall st :: Lookup(specific, st) == Specific(merged[..i], st)
    {
      var it := merged[i];
      assert merged[..i + 1][..i] == merged[..i];
      if it.kind != MOTION {
        specific := specific[it.stream := Lookup(specific, it.stream) + [it]];
      }
      i := i + 1;
    }
    assert merged[..i] == merged;
  }

  function Lookup(m: map<string, seq<Item>>, k: string): seq<Item> {
    if k in m then m[k] else []
  }

  method IsDropped(it: Item, near: seq<Item>, gap: int) returns (drop: bool)
    ensures drop <==> exists k :: 0 <= k < |near| && Near(SpanOf(it), SpanOf(near[k]), gap)
  {
    for k := 0 to |near|
      invariant forall j :: 0 <= j < k ==> !Near(SpanOf(it), SpanOf(near[j]), gap)
    {
      if it.start <= near[k].end + gap && near[k].start <= it.end + gap {
        return true;
      }
    }
    return false;
  }

  lemma DroppedBySpecific(merged: seq<Item>, gap: int, it: Item)
    requires it.kind == MOTION
    ensures Dropped(merged, gap, it) <==>
            exists k :: 0 <= k < |Specific(merged, it.stream)| && Near(SpanOf(it), SpanOf(Specific(merged, it.stream)[k]), gap)
  {
    var near := Specific(merged, it.stream);
    if Dropped(merged, gap, it) {
      var sp :| sp in merged && sp.kind != MOTION && sp.stream == it.stream && Near(SpanOf(it), SpanOf(sp), gap);
      InSpecific(merged, it.stream, sp);
      var k :| 0 <= k < |near| && near[k] == sp;
    }
    if k :| 0 <= k < |near| && Near(SpanOf(it), SpanOf(near[k]), gap) {
      InSpecific(merged, it.stream, near[k]);
    }
  }

  method DropMotion(merged: seq<Item>, gap: int) returns (out: seq<Item>)
    ensures out == Remaining(merged, gap, merged)
  {
    var specific := BySpecificStream(merged);
    out := [];
    var i := 0;
    while i < |merged|
      invariant 0 <= i <= |merged|
      invariant out == Remaining(merged, gap, merged[..i])
    {
      var it := merged[i];
      assert merged[..i + 1][..i] == merged[..i];
      i := i + 1;
      if it.kind == MOTION {
        var near := Lookup(specific, it.stream);
        assert near == Specific(merged, it.stream);
        var drop := IsDropped(it, near, gap);
        DroppedBySpecific(merged, gap, it);
        if drop {
          continue;
        }
      }
      out := out + [it];
    }
    assert merged[..i] == merged;
  }

  // ---------------------------------------------------------------- the result

  ghost predicate Homed(s: set<Span>, gap: int, x: Span) {
    exists c :: IsCluster(s, gap, c) && Covers(c, x)
  }

  /** The result holds each cluster that is shown, once; and every interval belongs to a cluster. */
  ghost predicate ClusteringOf(s: set<Span>, gap: int, out: seq<Item>) {
    && (forall m {:trigger Shown(s, gap, m)} :: m in Spans(out) <==> Shown(s, gap, m))
    && (forall i, j :: 0 <= i < j < |out| ==> SpanOf(out[i]) != SpanOf(out[j]))
    && (forall x {:trigger Homed(s, gap, x)} :: x in s ==> Homed(s, gap, x))
  }

  lemma MergedIsExact(s: set<Span>, gap: int, merged: seq<Item>, m: Span)
    requires gap >= 0 && Sensible(s) && MergeInv(s, gap, merged)
    ensures m in Spans(merged) <==> IsCluster(s, gap, m)
  {
    if m in Spans(merged) {
      var i :| 0 <= i < |merged| && SpanOf(merged[i]) == m;
      assert IsCluster(s, gap, SpanOf(merged[i]));
    }
    if IsCluster(s, gap, m) {
      var x :| x in s && SameKey(x, m) && x.start == m.start;
      assert Covered(merged, x);
      var i :| 0 <= i < |merged| && Covers(SpanOf(merged[i]), x);
      assert IsCluster(s, gap, SpanOf(merged[i]));
      StartInside(s, gap, SpanOf(merged[i]), m);
    }
  }

  lemma DroppedIsShadowed(s: set<Span>, gap: int, merged: seq<Item>, it: Item)
    requires gap >= 0 && Sensible(s) && MergeInv(s, gap, merged)
    ensures Dropped(merged, gap, it) <==> Shadowed(s, gap, SpanOf(it))
  {
    if Dropped(merged, gap, it) {
      var sp :| sp in merged && sp.kind != MOTION && sp.stream == it.stream && Near(SpanOf(it), SpanOf(sp), gap);
      MergedIsExact(s, gap, merged, SpanOf(sp));
    }
    if Shadowed(s, gap, SpanOf(it)) {
      var sp :| IsCluster(s, gap, sp) && sp.kind != MOTION && sp.stream == it.stream && Near(SpanOf(it), sp, gap);
      MergedIsExact(s, gap, merged, sp);
      var o :| o in merged && SpanOf(o) == sp;
    }
  }

  lemma ResultIsExact(s: set<Span>, gap: int, merged: seq<Item>, m: Span)
    requires gap >= 0 && Sensible(s) && MergeInv(s, gap, merged)
    ensures m in Spans(Remaining(merged, gap, merged)) <==> Shown(s, gap, m)
  {
    var out := Remaining(merged, gap, merged);
    MergedIsExact(s, gap, merged, m);
    if m in Spans(out) {
      var it :| it in out && SpanOf(it) == m;
      InRemaining(merged, gap, merged, it);
      DroppedIsShadowed(s, gap, merged, it);
      assert m in Spans(merged);
    }
    if Shown(s, gap, m) {
      var it :| it in merged && SpanOf(it) == m;
      DroppedIsShadowed(s, gap, merged, it);
      InRemaining(merged, gap, merged, it);
    }
  }

  lemma ResultIsClustering(s: set<Span>, gap: int, merged: seq<Item>)
    requires gap >= 0 && Sensible(s) && MergeInv(s, gap, merged)
    ensures ClusteringOf(s, gap, Remaining(merged, gap, merged))
  {
    var out := Remaining(merged, gap, merged);
    forall m
      ensures m in Spans(out) <==> Shown(s, gap, m)
    {
      ResultIsExact(s, gap, merged, m);
    }
    RemainingApart(merged, gap, merged);
    forall i, j | 0 <= i < j < |out|
      ensures SpanOf(out[i]) != SpanOf(out[j])
    {
      ResultIsExact(s, gap, merged, SpanOf(out[i]));
      assert out[i] in out && SpanOf(out[i]) in Spans(out);
      ClusterIsSensible(s, gap, SpanOf(out[i]));
    }
    forall x | x in s
      ensures Homed(s, gap, x)
    {
      assert Covered(merged, x);
      var i :| 0 <= i < |merged| && Covers(SpanOf(merged[i]), x);
      assert IsCluster(s, gap, SpanOf(merged[i]));
    }
  }

  lemma SingleIsClustering(it: Item, gap: int)
    requires gap >= 0 && it.start <= it.end
    ensures ClusteringOf(Spans([it]), gap, [it])
  {
    var x := SpanOf(it);
    assert [it][..0] == [];
    assert MergeAll([it], gap) == [it];
    assert Sorted([it]);
    assert Spans([it]) == {x};
    MergeIsClustering([it], gap);
    assert !Dropped([it], gap, it);
    assert Remaining([it], gap, []) == [];
    assert Remaining([it], gap, [it]) == [it];
    ResultIsClustering({x}, gap, [it]);
  }

  /** What is left of the items in this order, when they are more than one. */
  function Clustered(sorted: seq<Item>, gap: int): seq<Item> {
    Remaining(MergeAll(sorted, gap), gap, MergeAll(sorted, gap))
  }

  /**
   `sorted` is the order in which the items were taken. The result means what it should if no
   item ends before it starts.
   */
  method ClusterEventItems(items: seq<Item>, gap: int) returns (out: seq<Item>, ghost sorted: seq<Item>)
    ensures Sorted(sorted) && multiset(sorted) == multiset(items)
    ensures out == if |items| <= 1 then items else Clustered(sorted, gap)
    ensures gap >= 0 && Sensible(Spans(items)) ==> ClusteringOf(Spans(items), gap, out)
  {
    if |items| <= 1 {
      sorted := items;
      if |items| == 1 && gap >= 0 && Sensible(Spans(items)) {
        assert items == [items[0]] && SpanOf(items[0]) in Spans(items);
        SingleIsClustering(items[0], gap);
      }
      return items, sorted;
    }
    var inOrder := SortItems(items);
    sorted := inOrder;
    var merged := MergeSorted(inOrder, gap);
    out := DropMotion(merged, gap);
    if gap >= 0 && Sensible(Spans(items)) {
      SpansOfPermutation(sorted, items);
      MergeIsClustering(sorted, gap);
      ResultIsClustering(Spans(items), gap, merged);
    }
  }

  lemma MergeTwo(a: Item, b: Item, gap: int)
    ensures MergeAll([a, b], gap) == MergeNext([a], b, gap)
  {
    assert [a, b][..1] == [a] && [a][..0] == [];
    assert MergeAll([a], gap) == MergeNext([], a, gap) == [] + [a];
  }

  lemma {:induction false} SpecificRemains(merged: seq<Item>, gap: int, some: seq<Item>)
    requires forall i :: 0 <= i < |some| ==> some[i].kind != MOTION
    ensures Remaining(merged, gap, some) == some
    decreases |some|
  {
    if some != [] {
      SpecificRemains(merged, gap, some[..|some| - 1]);
    }
  }

  /** An item that ends before it starts: items with the same start then give different results in different orders. */
  lemma OrderMattersBackwards(it: Item, back: Item, gap: int)
    requires gap >= 0 && it.kind != MOTION && SameKey(SpanOf(it), SpanOf(back)) && it.start == back.start
    requires it.start <= it.end && back.end + gap < back.start
    ensures Sorted([it, back]) && Sorted([back, it])
    ensures |Clustered([it, back], gap)| == 1 && |Clustered([back, it], gap)| == 2
  {
    hide MergeAll, Remaining;
    MergeTwo(it, back, gap);
    MergeTwo(back, it, gap);
    var one, two := MergeAll([it, back], gap), MergeAll([back, it], gap);
    assert one == [] + [Absorb(it, back)] && two == [back, it];
    SpecificRemains(one, gap, one);
    SpecificRemains(two, gap, two);
  }

  lemma SpansOfPermutation(a: seq<Item>, b: seq<Item>)
    requires multiset(a) == multiset(b)
    ensures Spans(a) == Spans(b)
  {
    assert forall it :: it in a <==> it in multiset(a);
    assert forall it :: it in b <==> it in multiset(b);
  }

  // ---------------------------------------------------------------- what follows

  lemma ShownIsIn(s: set<Span>, gap: int, out: seq<Item>, m: Span)
    requires ClusteringOf(s, gap, out)
    ensures m in Spans(out) <==> Shown(s, gap, m)
  {
  }

  lemma {:induction false} DistinctSize(out: seq<Item>)
    requires forall i, j :: 0 <= i < j < |out| ==> SpanOf(out[i]) != SpanOf(out[j])
    ensures |Spans(out)| == |out|
  {
    if out != [] {
      var n := |out| - 1;
      DistinctSize(out[..n]);
      assert out == out[..n] + [out[n]];
      SpansSnoc(out[..n], out[n]);
      assert SpanOf(out[n]) !in Spans(out[..n]);
    }
  }

  /** Plates apart, the result depends only on which intervals there are, not on their order. */
  lemma OrderDoesNotMatter(a: seq<Item>, b: seq<Item>, gap: int, outA: seq<Item>, outB: seq<Item>)
    requires multiset(a) == multiset(b)
    requires ClusteringOf(Spans(a), gap, outA) && ClusteringOf(Spans(b), gap, outB)
    ensures Spans(outA) == Spans(outB) && |outA| == |outB|
  {
    SpansOfPermutation(a, b);
    forall m
      ensures m in Spans(outA) <==> m in Spans(outB)
    {
      ShownIsIn(Spans(a), gap, outA, m);
      ShownIsIn(Spans(b), gap, outB, m);
    }
    DistinctSize(outA);
    DistinctSize(outB);
  }

  /** Results of one stream and kind are more than the gap apart. */
  lemma ResultsAreApart(s: set<Span>, gap: int, out: seq<Item>, m: Span, n: Span)
    requires gap >= 0 && Sensible(s) && ClusteringOf(s, gap, out)
    requires m in Spans(out) && n in Spans(out) && SameKey(m, n) && m != n
    ensures m.end + gap < n.start || n.end + gap < m.start
  {
    ShownIsIn(s, gap, out, m);
    ShownIsIn(s, gap, out, n);
    ClustersAreApart(s, gap, m, n);
  }

  /**
   Everything but motion is covered by exactly one result, whose end points come from the
   input; motion is, too, unless its cluster is next to a specific one of the same stream.
   */
  lemma CoveredByExactlyOne(s: set<Span>, gap: int, out: seq<Item>, x: Span) returns (c: Span)
    requires gap >= 0 && Sensible(s) && ClusteringOf(s, gap, out) && x in s
    ensures IsCluster(s, gap, c) && Covers(c, x) && StartsIn(s, c) && EndsIn(s, c)
    ensures forall m :: m in Spans(out) && Covers(m, x) ==> m == c
    ensures c in Spans(out) <==> !Shadowed(s, gap, c)
    ensures x.kind != MOTION ==> c in Spans(out)
  {
    assert Homed(s, gap, x);
    c :| IsCluster(s, gap, c) && Covers(c, x);
    ShownIsIn(s, gap, out, c);
    forall m | m in Spans(out) && Covers(m, x)
      ensures m == c
    {
      ShownIsIn(s, gap, out, m);
      if m != c {
        ClustersAreApart(s, gap, m, c);
      }
    }
  }

  // ---------------------------------------------------------------- clustering twice

  predicate PairwiseApart(gap: int, s: set<Span>) {
    forall m, n :: m in s && n in s && SameKey(m, n) && m != n ==> m.end + gap < n.start || n.end + gap < m.start
  }

  /** Intervals that are apart already are their own clusters. */
  lemma ApartAreClusters(gap: int, s: set<Span>, m: Span)
    requires gap >= 0 && Sensible(s) && PairwiseApart(gap, s)
    ensures IsCluster(s, gap, m) <==> m in s
  {
    if m in s {
      MemberIsCluster(gap, s, m);
    }
    if IsCluster(s, gap, m) {
      var x :| x in s && SameKey(x, m) && x.start == m.start;
      MemberIsCluster(gap, s, x);
      SameStart(s, gap, x, m);
    }
  }

  lemma MemberIsCluster(gap: int, s: set<Span>, m: Span)
    requires gap >= 0 && Sensible(s) && PairwiseApart(gap, s) && m in s
    ensures IsCluster(s, gap, m)
  {
  }

  /** Clustering a result again changes nothing. */
  lemma ClusteringIsIdempotent(s: set<Span>, gap: int, out: seq<Item>, again: seq<Item>)
    requires gap >= 0 && Sensible(s)
    requires ClusteringOf(s, gap, out) && ClusteringOf(Spans(out), gap, again)
    ensures Sensible(Spans(out)) && Spans(again) == Spans(out)
  {
    var t := Spans(out);
    forall m | m in t
      ensures m.start <= m.end
    {
      ShownIsIn(s, gap, out, m);
      ClusterIsSensible(s, gap, m);
    }
    forall m, n | m in t && n in t && SameKey(m, n) && m != n
      ensures m.end + gap < n.start || n.end + gap < m.start
    {
      ResultsAreApart(s, gap, out, m, n);
    }
    forall m
      ensures m in Spans(again) <==> m in t
    {
      ShownIsIn(t, gap, again, m);
      ShownIsIn(s, gap, out, m);
      ApartAreClusters(gap, t, m);
      if m in t {
        StaysUnshadowed(s, gap, out, m);
      }
    }
  }

  lemma StaysUnshadowed(s: set<Span>, gap: int, out: seq<Item>, m: Span)
    requires gap >= 0 && ClusteringOf(s, gap, out) && m in Spans(out)
    requires Sensible(Spans(out)) && PairwiseApart(gap, Spans(out))
    ensures !Shadowed(Spans(out), gap, m)
  {
    var t := Spans(out);
    ShownIsIn(s, gap, out, m);
    if Shadowed(t, gap, m) {
      var sp :| IsCluster(t, gap, sp) && sp.kind != MOTION && sp.stream == m.stream && Near(m, sp, gap);
      ApartAreClusters(gap, t, sp);
      ShownIsIn(s, gap, out, sp);
    }
  }
}
