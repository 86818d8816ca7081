/** That a watcher can always join and catch up, whatever has happened before. */
module JoinProgress {
  import opened Bytes
  import opened FrameCodec
  import opened FrameBuffer
  import opened Viewer
  import opened LateJoin
  import opened JoinProtocol

  lemma {:induction false} RunFirst(s: Sys, ev: Event, rest: seq<Event>)
    ensures Run(s, [ev] + rest) == Run(Step(s, ev), rest)
    decreases |rest|
  {
    hide Step;
    if rest == [] {
      assert [ev] + rest == [ev] && [ev][..0] == [];
    } else {
      var n := |rest| - 1;
      assert ([ev] + rest)[..|rest|] == [ev] + rest[..n] && ([ev] + rest)[|rest|] == rest[n];
      RunFirst(s, ev, rest[..n]);
    }
  }

  lemma {:induction false} RunAppend(s: Sys, a: seq<Event>, b: seq<Event>)
    ensures Run(s, a + b) == Run(Run(s, a), b)
    decreases |b|
  {
    if b == [] {
      assert a + b == a;
    } else {
      assert (a + b)[..|a + b| - 1] == a + b[..|b| - 1];
      RunAppend(s, a, b[..|b| - 1]);
    }
  }

  // ---------------------------------------------------------------- a keyframe can be made

  /** The tiles of a cache can be listed. */
  lemma {:induction false} ListingExists(m: Tiles) returns (tiles: seq<Tile>)
    requires Cached(m)
    ensures Lists(m, tiles)
    decreases |m|
  {
    if m == map[] {
      tiles := [];
    } else {
      var k :| k in m;
      var rest := m - {k};
      assert rest.Keys == m.Keys - {k} && |rest.Keys| == |rest| && |m.Keys| == |m|;
      var before := ListingExists(rest);
      OneMoreListed(before, m[k]);
      tiles := before + [m[k]];
      ListsMore(m, k, before);
    }
  }

  lemma ListsMore(m: Tiles, k: uint32, before: seq<Tile>)
    requires Cached(m) && k in m && Lists(m - {k}, before)
    requires DistinctKeys(before + [m[k]]) && KeySet(before + [m[k]]) == KeySet(before) + {KeyOf(m[k])}
    ensures Lists(m, before + [m[k]])
  {
    var tiles := before + [m[k]];
    assert KeyOf(m[k]) == k;
    assert KeySet(tiles) == m.Keys;
    forall i | 0 <= i < |tiles|
      ensures KeyOf(tiles[i]) in m && m[KeyOf(tiles[i])] == tiles[i]
    {
      if i < |before| { assert tiles[i] == before[i] && KeyOf(before[i]) in m - {k}; }
    }
  }

  // ---------------------------------------------------------------- catching up

  /** Nothing is published and nobody joins or leaves. */
  predicate HandsOnOnly(events: seq<Event>) {
    forall i :: 0 <= i < |events| ==> events[i] in [Submit, Take, FanOut, Pump, Event.Draw]
  }

  function UnderWay(s: Sys): nat {
    |s.queue| + (if s.inHand.Some? then 2 else 0) + 3 * |s.broadcast| + if s.pending.Some? then 4 else 0
  }

  function NextMove(s: Sys): Event {
    if s.queue != [] then Pump
    else if s.inHand.Some? then FanOut
    else if s.broadcast != [] then Take
    else if s.pending.Some? then Submit
    else Event.Draw
  }

  /** Relay and losses are as they were. */
  ghost predicate SameRelay(s: Sys, t: Sys) {
    && t.fb == s.fb && t.log == s.log && t.phase == s.phase && t.capacity == s.capacity && t.broken == s.broken
    && t.drops == s.drops && t.cut == s.cut
  }

  lemma MoveHandsOn(s: Sys)
    requires s.phase == Pumping && s.capacity > 0 && (UnderWay(s) > 0 || s.watcher.canvas.chain != [])
    ensures var t := Step(s, NextMove(s));
            && SameRelay(s, t)
            && (UnderWay(t) < UnderWay(s) || (UnderWay(t) == UnderWay(s) && |t.watcher.canvas.chain| < |s.watcher.canvas.chain|))
  {
    hide Watch;
  }

  lemma {:induction false} CatchUp(s: Sys) returns (events: seq<Event>)
    requires s.phase == Pumping && s.capacity > 0
    ensures HandsOnOnly(events)
    ensures var t := Run(s, events); SameRelay(s, t) && Ahead(t) == [] && t.watcher.canvas.chain == []
    decreases UnderWay(s), |s.watcher.canvas.chain|
  {
    if UnderWay(s) == 0 && s.watcher.canvas.chain == [] {
      events := [];
      assert Ahead(s) == [];
    } else {
      var ev := NextMove(s);
      MoveHandsOn(s);
      hide Step, Run, Ahead, UnderWay;
      var rest := CatchUp(Step(s, ev));
      RunFirst(s, ev, rest);
      events := [ev] + rest;
      assert forall i :: 0 < i < |events| ==> events[i] == rest[i - 1];
    }
  }

  /** Joining anew: the watcher leaves, if it is there, registers and is sent the keyframe. */
  function Joining(now: uint64, tiles: seq<Tile>): seq<Event> {
    [Leave, Register, Snapshot(now, tiles)]
  }

  /** What joining does not touch. */
  predicate SameFeed(s: Sys, t: Sys) {
    t.fb == s.fb && t.log == s.log && t.capacity == s.capacity && t.broken == s.broken
  }

  lemma LeavingLeaves(s: Sys)
    ensures SameFeed(s, Step(s, Leave)) && Step(s, Leave).phase == Away
  {
  }

  lemma RegisteringRegisters(s: Sys)
    requires s.phase == Away
    ensures var t := Step(s, Register); SameFeed(s, t) && t.phase == Registered && Lossless(t)
  {
    hide Reopened;
  }

  lemma SnapshotPumps(s: Sys, now: uint64, tiles: seq<Tile>)
    requires s.phase == Registered && Lossless(s)
    requires s.fb.tiles == map[] || s.fb.width == 0 || Lists(s.fb.tiles, tiles)
    ensures var t := Step(s, Snapshot(now, tiles));
            && SameFeed(s, t) && t.phase == Pumping && t.drops == 0
            && (t.cut ==> |s.fb.tiles| > 65535 || |Encode(KeyFrame(s.fb, now, tiles))| >= 0x1_0000_0000)
  {
    hide Watch, Encode, KeyFrame, Lists, KeyMessage;
  }

  lemma JoiningPumps(s: Sys, now: uint64, tiles: seq<Tile>)
    requires s.fb.tiles == map[] || s.fb.width == 0 || Lists(s.fb.tiles, tiles)
    ensures var t := Run(s, Joining(now, tiles));
            && SameFeed(s, t) && t.phase == Pumping && t.drops == 0
            && (t.cut ==> |s.fb.tiles| > 65535 || |Encode(KeyFrame(s.fb, now, tiles))| >= 0x1_0000_0000)
  {
    var a := Step(s, Leave);
    var b := Step(a, Register);
    LeavingLeaves(s);
    RegisteringRegisters(a);
    SnapshotPumps(b, now, tiles);
    hide Step, Encode, KeyFrame, Lists, Run;
    ThreeSteps(s, Leave, Register, Snapshot(now, tiles));
  }

  lemma ThreeSteps(s: Sys, x: Event, y: Event, z: Event)
    ensures Run(s, [x, y, z]) == Step(Step(Step(s, x), y), z)
  {
    hide Step;
    assert [x] + [y, z] == [x, y, z] && [y] + [z] == [y, z] && [z] + [] == [z];
    RunFirst(s, x, [y, z]);
    RunFirst(Step(s, x), y, [z]);
    RunFirst(Step(Step(s, x), y), z, []);
  }

  /** What a watcher shows that has been handed everything and lost nothing. */
  lemma ShownInTheEnd(ts: uint16, capacity: nat, broken: set<Tile>, events: seq<Event>)
    requires Steady(ts, events)
    requires var t := Run(Initial(capacity, broken), events); Served(t) && Ahead(t) == [] && t.watcher.canvas.chain == []
    ensures var t := Run(Initial(capacity, broken), events);
            forall k: uint32 ::
              k in t.watcher.stains <==> Lookup(t.watcher.canvas.shown, k) != Lookup(Visible(CacheGeometry(t.fb), t.fb.tiles), k)
  {
    hide *;
    LateJoinConverges(ts, capacity, broken, events);
  }

  /**
   A watcher can always join and catch up. From every state that a run can reach there is a way to
   join that does not need anything to be published: register, get the keyframe, be handed what is
   under way, draw. If the keyframe has room for the tiles, nothing is lost on it, and in the end the
   screen differs from the relay's exactly at the stains.
   */
  lemma JoiningIsPossible(ts: uint16, capacity: nat, broken: set<Tile>, before: seq<Event>, now: uint64)
    returns (tiles: seq<Tile>, rest: seq<Event>)
    requires capacity > 0 && Steady(ts, before)
    ensures HandsOnOnly(rest)
    ensures var s := Run(Initial(capacity, broken), before);
            var t := Run(Run(s, Joining(now, tiles)), rest);
            && t.fb == s.fb && t.log == s.log && t.phase == Pumping && Ahead(t) == [] && t.watcher.canvas.chain == []
            && Lists(s.fb.tiles, tiles)
            && (|s.fb.tiles| <= 65535 && |Encode(KeyFrame(s.fb, now, tiles))| < 0x1_0000_0000 ==>
                  && Served(t)
                  && forall k: uint32 ::
                       k in t.watcher.stains <==> Lookup(t.watcher.canvas.shown, k) != Lookup(Visible(CacheGeometry(s.fb), s.fb.tiles), k))
  {
    hide *;
    var s0, s := Initial(capacity, broken), Run(Initial(capacity, broken), before);
    tiles := CacheIsListed(ts, capacity, broken, before);
    CapacityStays(s0, before);
    InitialHas(capacity, broken);
    rest := JoinAndCatchUp(s, now, tiles);
    var joining := Joining(now, tiles);
    RunAppend(s0, before, joining);
    RunAppend(s0, before + joining, rest);
    NothingIsPublished(now, tiles);
    SteadyStays(ts, before, joining, rest);
    if |s.fb.tiles| <= 65535 && |Encode(KeyFrame(s.fb, now, tiles))| < 0x1_0000_0000 {
      ShownInTheEnd(ts, capacity, broken, before + joining + rest);
    }
  }

  lemma InitialHas(capacity: nat, broken: set<Tile>)
    ensures Initial(capacity, broken).capacity == capacity && Initial(capacity, broken).broken == broken
  {
  }

  lemma NothingIsPublished(now: uint64, tiles: seq<Tile>)
    ensures forall i :: 0 <= i < |Joining(now, tiles)| ==> !Joining(now, tiles)[i].Publish?
  {
  }

  lemma CacheIsListed(ts: uint16, capacity: nat, broken: set<Tile>, before: seq<Event>) returns (tiles: seq<Tile>)
    requires Steady(ts, before)
    ensures Lists(Run(Initial(capacity, broken), before).fb.tiles, tiles)
  {
    RunKeepsInv(ts, capacity, broken, before);
    var s := Run(Initial(capacity, broken), before);
    assert Cached(s.fb.tiles);
    hide *;
    tiles := ListingExists(s.fb.tiles);
  }

  lemma JoinAndCatchUp(s: Sys, now: uint64, tiles: seq<Tile>) returns (rest: seq<Event>)
    requires s.capacity > 0 && Lists(s.fb.tiles, tiles)
    ensures HandsOnOnly(rest)
    ensures var t := Run(Run(s, Joining(now, tiles)), rest);
            && t.fb == s.fb && t.log == s.log && t.phase == Pumping && Ahead(t) == [] && t.watcher.canvas.chain == []
            && (|s.fb.tiles| <= 65535 && |Encode(KeyFrame(s.fb, now, tiles))| < 0x1_0000_0000 ==> Served(t))
  {
    JoiningPumps(s, now, tiles);
    hide Run, Ahead, Encode, KeyFrame, Joining, Lists, HandsOnOnly;
    rest := CatchUp(Run(s, Joining(now, tiles)));
  }

  lemma StepCapacity(s: Sys, ev: Event)
    ensures Step(s, ev).capacity == s.capacity && Step(s, ev).broken == s.broken
  {
    hide Watch, Reopened, RelayFold, Push, Ahead, Encode, KeyFrame, Lists, KeyMessage;
  }

  lemma {:induction false} CapacityStays(s: Sys, events: seq<Event>)
    ensures Run(s, events).capacity == s.capacity && Run(s, events).broken == s.broken
    decreases |events|
  {
    hide Step;
    if events != [] {
      CapacityStays(s, events[..|events| - 1]);
      StepCapacity(Run(s, events[..|events| - 1]), events[|events| - 1]);
    }
  }

  lemma SteadyStays(ts: uint16, before: seq<Event>, joining: seq<Event>, rest: seq<Event>)
    requires Steady(ts, before) && HandsOnOnly(rest) && forall i :: 0 <= i < |joining| ==> !joining[i].Publish?
    ensures Steady(ts, before + joining + rest)
  {
    hide Sound;
    assert forall i :: 0 <= i < |rest| ==> !rest[i].Publish?;
    forall i | 0 <= i < |before + joining + rest| && (before + joining + rest)[i].Publish?
      ensures Sound(ts, (before + joining + rest)[i].m)
    {
      PublishedBefore(before, joining, rest, i);
    }
  }

  lemma PublishedBefore(before: seq<Event>, joining: seq<Event>, rest: seq<Event>, i: nat)
    requires forall i :: 0 <= i < |joining| ==> !joining[i].Publish?
    requires forall i :: 0 <= i < |rest| ==> !rest[i].Publish?
    requires i < |before + joining + rest| && (before + joining + rest)[i].Publish?
    ensures i < |before| && (before + joining + rest)[i] == before[i]
  {
  }

  predicate AwayIsEmpty(s: Sys) {
    s.phase == Away ==> s.queue == []
  }

  lemma StepAwayIsEmpty(s: Sys, ev: Event)
    requires AwayIsEmpty(s)
    ensures AwayIsEmpty(Step(s, ev))
  {
    hide Watch, Reopened, RelayFold, Push, Ahead, Encode, KeyFrame, Lists, KeyMessage;
  }

  /** In every run nothing waits for a watcher that is away, so whoever joins anew is sent nothing from before. */
  lemma {:induction false} NothingWaitsForTheAbsent(capacity: nat, broken: set<Tile>, events: seq<Event>)
    ensures Run(Initial(capacity, broken), events).phase == Away ==> Run(Initial(capacity, broken), events).queue == []
    decreases |events|
  {
    hide Step;
    if events != [] {
      var n := |events| - 1;
      NothingWaitsForTheAbsent(capacity, broken, events[..n]);
      StepAwayIsEmpty(Run(Initial(capacity, broken), events[..n]), events[n]);
    }
  }
}
