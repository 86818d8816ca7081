/**
 Which intervals the edges make, said of the edges alone: an interval for every activation that
 another edge of its key follows, in the order of those edges.
 */
module EventPairs {
  import opened EventStore

  predicate Counts(e: Edge) {
    e.key.stream != "" && e.key.kind != "" && e.tsMs > 0
  }

  /** Among the first n edges, edge a is the last that counts for this key. */
  predicate IsLast(edges: seq<Edge>, n: nat, key: Key, a: nat)
    requires n <= |edges|
  {
    && a < n && Counts(edges[a]) && edges[a].key == key
    && forall k :: a < k < n && Counts(edges[k]) ==> edges[k].key != key
  }

  /** Edge b is the next of its key behind the activation a. */
  predicate Follows(edges: seq<Edge>, a: nat, b: nat) {
    b < |edges| && Counts(edges[b]) && IsLast(edges, b, edges[b].key, a) && edges[a].active
  }

  /** The interval that edge b closes: it lasts ten minutes at most, and exactly so if b is another activation. */
  function IntervalBetween(edges: seq<Edge>, a: nat, b: nat): Closing
    requires a < |edges| && b < |edges|
  {
    var start := edges[a].tsMs;
    Closing(edges[a].key, start, if edges[b].active || edges[b].tsMs > start + 600000 then start + 600000 else edges[b].tsMs)
  }

  lemma FrontIsLast(edges: seq<Edge>, m: nat, n: nat, key: Key, a: nat)
    requires n <= m <= |edges|
    ensures IsLast(edges[..m], n, key, a) <==> IsLast(edges, n, key, a)
  {
  }

  lemma FrontFollows(edges: seq<Edge>, m: nat, a: nat, b: nat)
    requires b < m <= |edges|
    ensures Follows(edges[..m], a, b) <==> Follows(edges, a, b)
    ensures Follows(edges, a, b) ==> a < m && IntervalBetween(edges[..m], a, b) == IntervalBetween(edges, a, b)
  {
    FrontIsLast(edges, m, b, edges[b].key, a);
  }

  /** A key is open since its last edge, if that is an activation. */
  ghost predicate OpenSince(edges: seq<Edge>, open: map<Key, int>, key: Key) {
    && (key in open ==> exists a: nat :: IsLast(edges, |edges|, key, a) && edges[a].active && edges[a].tsMs == open[key])
    && (key !in open ==> forall a: nat :: IsLast(edges, |edges|, key, a) ==> !edges[a].active)
  }

  lemma {:induction false} OpenIsSinceTheLast(edges: seq<Edge>, key: Key)
    ensures OpenSince(edges, EnterAll(edges).open, key)
    decreases |edges|
  {
    if edges != [] {
      var n := |edges| - 1;
      var front, e := edges[..n], edges[n];
      OpenIsSinceTheLast(front, key);
      if Counts(e) && e.key == key {
        assert IsLast(edges, n + 1, key, n);
      } else {
        forall a: nat
          ensures IsLast(edges, n + 1, key, a) <==> IsLast(front, n, key, a)
        {
          LastGoesOn(edges, n, key, a);
        }
        if key in EnterAll(front).open {
          var a: nat :| IsLast(front, n, key, a) && front[a].active && front[a].tsMs == EnterAll(front).open[key];
          assert IsLast(edges, n + 1, key, a);
        }
      }
    }
  }

  lemma LastGoesOn(edges: seq<Edge>, n: nat, key: Key, a: nat)
    requires n < |edges| && !(Counts(edges[n]) && edges[n].key == key)
    ensures IsLast(edges, n + 1, key, a) <==> IsLast(edges[..n], n, key, a)
  {
  }

  /** The intervals and the edges that they are made of. */
  ghost predicate MadeOf(edges: seq<Edge>, closed: seq<Closing>, starts: seq<nat>, ends: seq<nat>) {
    && |starts| == |ends| == |closed|
    && (forall i, j :: 0 <= i < j < |ends| ==> ends[i] < ends[j])
    && (forall i :: 0 <= i < |ends| ==> Follows(edges, starts[i], ends[i]) && closed[i] == IntervalBetween(edges, starts[i], ends[i]))
    && (forall a: nat, b: nat :: Follows(edges, a, b) ==> b in ends)
  }

  /**
   Every history of edges closes exactly these intervals, in this order: one for each edge that
   follows an activation of its key, beginning with the activation and ending with the edge, or
   after ten minutes if the edge comes later than that or is an activation itself.
   */
  lemma {:induction false} ClosedArePairs(edges: seq<Edge>) returns (starts: seq<nat>, ends: seq<nat>)
    ensures MadeOf(edges, EnterAll(edges).closed, starts, ends)
    decreases |edges|
  {
    if edges == [] {
      starts, ends := [], [];
    } else {
      var n := |edges| - 1;
      var front, e := edges[..n], edges[n];
      starts, ends := ClosedArePairs(front);
      FrontIsMadeOf(edges, EnterAll(front).closed, starts, ends);
      OpenIsSinceTheLast(front, e.key);
      if Counts(e) && e.key in EnterAll(front).open {
        var a: nat :| IsLast(front, n, e.key, a) && front[a].active && front[a].tsMs == EnterAll(front).open[e.key];
        FrontIsLast(edges, n, n, e.key, a);
        assert Follows(edges, a, n) && EnterAll(edges).closed == EnterAll(front).closed + [IntervalBetween(edges, a, n)];
        hide *;
        OneMorePair(edges, EnterAll(front).closed, starts, ends, a);
        starts, ends := starts + [a], ends + [n];
      } else {
        assert EnterAll(edges).closed == EnterAll(front).closed;
        forall a: nat
          ensures !Follows(edges, a, n)
        {
          if Counts(e) { FrontIsLast(edges, n, n, e.key, a); }
        }
        hide *;
        NoMorePairs(edges, EnterAll(front).closed, starts, ends, n);
      }
    }
  }

  /** The intervals are made of the edges but for the last, which may follow an activation as well. */
  ghost predicate MadeOfFront(edges: seq<Edge>, closed: seq<Closing>, starts: seq<nat>, ends: seq<nat>) {
    && edges != [] && |starts| == |ends| == |closed|
    && (forall i, j :: 0 <= i < j < |ends| ==> ends[i] < ends[j])
    && (forall i :: 0 <= i < |ends| ==>
          ends[i] < |edges| - 1 && Follows(edges, starts[i], ends[i]) && closed[i] == IntervalBetween(edges, starts[i], ends[i]))
    && (forall a: nat, b: nat :: Follows(edges, a, b) && b < |edges| - 1 ==> b in ends)
  }

  lemma OneMorePair(edges: seq<Edge>, closed: seq<Closing>, starts: seq<nat>, ends: seq<nat>, a: nat)
    requires MadeOfFront(edges, closed, starts, ends) && Follows(edges, a, |edges| - 1)
    ensures MadeOf(edges, closed + [IntervalBetween(edges, a, |edges| - 1)], starts + [a], ends + [|edges| - 1])
  {
    var n := |edges| - 1;
    hide Follows, IntervalBetween;
    forall x: nat, b: nat | Follows(edges, x, b)
      ensures b in ends + [n]
    {
      FollowsWithin(edges, x, b);
    }
  }

  lemma NoMorePairs(edges: seq<Edge>, closed: seq<Closing>, starts: seq<nat>, ends: seq<nat>, n: nat)
    requires MadeOfFront(edges, closed, starts, ends) && n == |edges| - 1 && forall a: nat :: !Follows(edges, a, n)
    ensures MadeOf(edges, closed, starts, ends)
  {
    hide Follows, IntervalBetween;
    forall x: nat, b: nat | Follows(edges, x, b)
      ensures b in ends
    {
      FollowsWithin(edges, x, b);
    }
  }

  lemma FollowsWithin(edges: seq<Edge>, a: nat, b: nat)
    requires Follows(edges, a, b)
    ensures a < b < |edges|
  {
  }

  /** What holds of the front holds of all edges, but for the last. */
  lemma FrontIsMadeOf(edges: seq<Edge>, closed: seq<Closing>, starts: seq<nat>, ends: seq<nat>)
    requires edges != [] && MadeOf(edges[..|edges| - 1], closed, starts, ends)
    ensures MadeOfFront(edges, closed, starts, ends)
  {
    var n := |edges| - 1;
    forall i | 0 <= i < |ends|
      ensures ends[i] < n && Follows(edges, starts[i], ends[i]) && closed[i] == IntervalBetween(edges, starts[i], ends[i])
    {
      assert Follows(edges[..n], starts[i], ends[i]);
      FrontFollows(edges, n, starts[i], ends[i]);
    }
    forall a: nat, b: nat | Follows(edges, a, b) && b < n
      ensures b in ends
    {
      FrontFollows(edges, n, a, b);
    }
  }
}
