/**
 What the muxer makes of a stream, said without it: which parameter sets the init segment is
 built from and when, and which fragment stands for which access unit. With the hub this says
 what, of the stream, each client is given.
 */
module MuxMeaning {
  import opened Bytes
  import opened AnnexB
  import opened WsHub
  import opened Ingest

  // ---------------------------------------------------------------- parameter sets

  datatype SetKind = Vps | Sps | Pps

  /** Whether a unit carries a parameter set of this kind: 7.4.1 of ITU-T H.264, 7.4.2.2 of ITU-T H.265. */
  predicate Carries(isH265: bool, nal: Nal, kind: SetKind) {
    nal != [] &&
    if isH265 then nal[0] / 2 % 64 == (match kind case Vps => 32 case Sps => 33 case Pps => 34)
    else nal[0] % 32 == (match kind case Vps => -1 case Sps => 7 case Pps => 8)
  }

  /** The last set of this kind among the units, if there is one. */
  ghost predicate IsLatest(isH265: bool, nals: seq<Nal>, kind: SetKind, found: Option<Nal>) {
    match found
    case None => forall k :: 0 <= k < |nals| ==> !Carries(isH265, nals[k], kind)
    case Some(nal) =>
      exists k :: 0 <= k < |nals| && nals[k] == nal && Carries(isH265, nal, kind) &&
                  forall l :: k < l < |nals| ==> !Carries(isH265, nals[l], kind)
  }

  ghost predicate Known(codec: Codec, nals: seq<Nal>, p: Params) {
    && IsLatest(codec.isH265, nals, Vps, p.vps)
    && IsLatest(codec.isH265, nals, Sps, p.sps)
    && IsLatest(codec.isH265, nals, Pps, p.pps)
  }

  lemma LatestSnoc(isH265: bool, nals: seq<Nal>, kind: SetKind, found: Option<Nal>, nal: Nal)
    requires IsLatest(isH265, nals, kind, found)
    ensures IsLatest(isH265, nals + [nal], kind, if Carries(isH265, nal, kind) then Some(nal) else found)
  {
    var more := nals + [nal];
    if Carries(isH265, nal, kind) {
      assert more[|nals|] == nal;
    } else if found.Some? {
      var k :| 0 <= k < |nals| && nals[k] == found.value && Carries(isH265, found.value, kind) &&
               forall l :: k < l < |nals| ==> !Carries(isH265, nals[l], kind);
      assert more[k] == found.value;
    }
  }

  lemma KnownSnoc(codec: Codec, nals: seq<Nal>, p: Params, nal: Nal)
    requires Known(codec, nals, p)
    ensures Known(codec, nals + [nal], TakeParam(codec, p, nal))
  {
    LatestSnoc(codec.isH265, nals, Vps, p.vps, nal);
    LatestSnoc(codec.isH265, nals, Sps, p.sps, nal);
    LatestSnoc(codec.isH265, nals, Pps, p.pps, nal);
  }

  lemma {:induction false} KnownAppend(codec: Codec, nals: seq<Nal>, p: Params, au: AccessUnit)
    requires Known(codec, nals, p)
    ensures Known(codec, nals + au, TakeParams(codec, p, au))
    decreases |au|
  {
    if au == [] {
      assert nals + au == nals;
    } else {
      var n := |au| - 1;
      KnownAppend(codec, nals, p, au[..n]);
      KnownSnoc(codec, nals + au[..n], TakeParams(codec, p, au[..n]), au[n]);
      assert nals + au == nals + au[..n] + [au[n]];
    }
  }

  lemma LatestIsUnique(isH265: bool, nals: seq<Nal>, kind: SetKind, a: Option<Nal>, b: Option<Nal>)
    requires IsLatest(isH265, nals, kind, a) && IsLatest(isH265, nals, kind, b)
    ensures a == b
  {
    if a.Some? && b.Some? {
      var k :| 0 <= k < |nals| && nals[k] == a.value && Carries(isH265, a.value, kind) &&
               forall l :: k < l < |nals| ==> !Carries(isH265, nals[l], kind);
      var m :| 0 <= m < |nals| && nals[m] == b.value && Carries(isH265, b.value, kind) &&
               forall l :: m < l < |nals| ==> !Carries(isH265, nals[l], kind);
    }
  }

  lemma KnownIsUnique(codec: Codec, nals: seq<Nal>, p: Params, q: Params)
    requires Known(codec, nals, p) && Known(codec, nals, q)
    ensures p == q
  {
    LatestIsUnique(codec.isH265, nals, Vps, p.vps, q.vps);
    LatestIsUnique(codec.isH265, nals, Sps, p.sps, q.sps);
    LatestIsUnique(codec.isH265, nals, Pps, p.pps, q.pps);
  }

  // ---------------------------------------------------------------- the init segment and the fragments

  /** All units up to and including access unit j. */
  function NalsUpto(units: seq<Stamped>, j: nat): seq<Nal>
    requires j <= |units|
  {
    if j == 0 then [] else NalsUpto(units, j - 1) + units[j - 1].au
  }

  /** With the sets known by the first j access units, this init segment can be built. */
  ghost predicate Builds(codec: Codec, units: seq<Stamped>, j: nat, init: Blob)
    requires j <= |units|
  {
    exists p :: Known(codec, NalsUpto(units, j), p) && p.sps.Some? && p.pps.Some? && (codec.isH265 ==> p.vps.Some?) &&
                codec.marshalInit(p) == Some(init)
  }

  /** The first r access units do not suffice for an init segment, whatever their number; one more does. */
  ghost predicate Begins(codec: Codec, units: seq<Stamped>, r: nat, init: Blob) {
    && r < |units| && Builds(codec, units, r + 1, init)
    && forall j, seg :: 0 < j <= r ==> !Builds(codec, units, j, seg)
  }

  /** The sample that stands for access unit j when the first one muxed is the r-th. */
  function SampleFor(codec: Codec, units: seq<Stamped>, r: nat, j: nat): Sample
    requires r <= j < |units|
  {
    var gap := if j == r then 0 else units[j].pts - units[j - 1].pts;
    Sample(units[j].pts, if 0 < gap < 180000 then gap else 3000, codec.isRandomAccess(units[j].au), Avcc(units[j].au))
  }

  /** The broadcasts are the fragments of these access units: of all from the r-th on whose sample can be written. */
  ghost predicate Stand(codec: Codec, units: seq<Stamped>, r: nat, from: seq<nat>, casts: seq<Cast>) {
    && |from| == |casts|
    && (forall i :: 0 <= i < |from| ==> r <= from[i] < |units|)
    && (forall i, j :: 0 <= i < j < |from| ==> from[i] < from[j])
    && (forall i :: 0 <= i < |from| ==>
          && codec.marshalPart(SampleFor(codec, units, r, from[i])) == Some(casts[i].frag)
          && (casts[i].key <==> codec.isRandomAccess(units[from[i]].au)))
    && (forall j :: r <= j < |units| && j !in from ==> codec.marshalPart(SampleFor(codec, units, r, j)) == None)
  }

  function AsOps<K>(casts: seq<Cast>): (ops: seq<Op<K>>)
    ensures |ops| == |casts|
  {
    seq(|casts|, i requires 0 <= i < |casts| => Broadcast(casts[i]))
  }

  /** What the muxer knows while no init segment could be built. */
  ghost predicate NotBegun<K>(codec: Codec, units: seq<Stamped>) {
    && Feed<K>(codec, FRESH, units) == []
    && Known(codec, NalsUpto(units, |units|), Muxed(codec, FRESH, units).params)
    && Muxed(codec, FRESH, units).init == None && Muxed(codec, FRESH, units).prev == None
    && forall j, seg :: 0 < j <= |units| ==> !Builds(codec, units, j, seg)
  }

  ghost predicate Begun<K>(codec: Codec, units: seq<Stamped>, r: nat, init: Blob, from: seq<nat>, casts: seq<Cast>) {
    && Begins(codec, units, r, init)
    && Stand(codec, units, r, from, casts)
    && Feed<K>(codec, FRESH, units) == [SetInit(init)] + AsOps<K>(casts)
    && Muxed(codec, FRESH, units).init == Some(init) && Muxed(codec, FRESH, units).prev == Some(units[|units| - 1].pts)
  }

  lemma {:induction false} NalsOfFront(units: seq<Stamped>, n: nat, j: nat)
    requires j <= n <= |units|
    ensures NalsUpto(units[..n], j) == NalsUpto(units, j)
  {
    if j > 0 { NalsOfFront(units, n, j - 1); }
  }

  lemma FrontBuilds(codec: Codec, units: seq<Stamped>, n: nat, j: nat, init: Blob)
    requires j <= n <= |units|
    ensures Builds(codec, units[..n], j, init) <==> Builds(codec, units, j, init)
  {
    NalsOfFront(units, n, j);
  }

  lemma NalsOfLast(units: seq<Stamped>)
    requires units != []
    ensures var n := |units| - 1; NalsUpto(units, n + 1) == NalsUpto(units[..n], n) + units[n].au
  {
    NalsOfFront(units, |units| - 1, |units| - 1);
  }

  /** Whether the last access unit is the one that makes an init segment possible. */
  lemma LastBuilds(codec: Codec, units: seq<Stamped>, before: Params)
    requires units != []
    requires var n := |units| - 1; Known(codec, NalsUpto(units[..n], n), before)
    ensures var n := |units| - 1;
            var p := TakeParams(codec, before, units[n].au);
            && Known(codec, NalsUpto(units, n + 1), p)
            && forall init :: Builds(codec, units, n + 1, init) <==> TryInit(codec, p) == Some(init)
  {
    var n := |units| - 1;
    var p := TakeParams(codec, before, units[n].au);
    NalsOfLast(units);
    KnownAppend(codec, NalsUpto(units[..n], n), before, units[n].au);
    forall init
      ensures Builds(codec, units, n + 1, init) <==> TryInit(codec, p) == Some(init)
    {
      if Builds(codec, units, n + 1, init) {
        var q :| Known(codec, NalsUpto(units, n + 1), q) && q.sps.Some? && q.pps.Some? && (codec.isH265 ==> q.vps.Some?) &&
                 codec.marshalInit(q) == Some(init);
        KnownIsUnique(codec, NalsUpto(units, n + 1), p, q);
      }
    }
  }

  lemma FrontDoesNotBuild(codec: Codec, units: seq<Stamped>, n: nat)
    requires n <= |units|
    requires forall j, seg :: 0 < j <= n ==> !Builds(codec, units[..n], j, seg)
    ensures forall j, seg :: 0 < j <= n ==> !Builds(codec, units, j, seg)
  {
    forall j, seg | 0 < j <= n
      ensures !Builds(codec, units, j, seg)
    {
      FrontBuilds(codec, units, n, j, seg);
    }
  }

  lemma SampleOfFront(codec: Codec, units: seq<Stamped>, n: nat, r: nat, j: nat)
    requires r <= j < n <= |units|
    ensures SampleFor(codec, units[..n], r, j) == SampleFor(codec, units, r, j)
  {
  }

  /** The last access unit's fragment joins those of the others. */
  lemma StandSnoc(codec: Codec, units: seq<Stamped>, r: nat, from: seq<nat>, casts: seq<Cast>, frag: Option<Blob>)
    requires units != []
    requires var n := |units| - 1; r <= n && Stand(codec, units[..n], r, from, casts) && frag == codec.marshalPart(SampleFor(codec, units, r, n))
    ensures var n := |units| - 1;
            if frag.Some? then Stand(codec, units, r, from + [n], casts + [Cast(frag.value, codec.isRandomAccess(units[n].au))])
            else Stand(codec, units, r, from, casts)
  {
    var n := |units| - 1;
    forall j | r <= j < n
      ensures SampleFor(codec, units[..n], r, j) == SampleFor(codec, units, r, j)
    {
      SampleOfFront(codec, units, n, r, j);
    }
    hide SampleFor;
    assert n !in from;
  }

  lemma OpsSnoc<K>(casts: seq<Cast>, c: Cast)
    ensures AsOps<K>(casts + [c]) == AsOps<K>(casts) + [Broadcast(c)]
  {
  }

  /** Either no init segment can be built yet, or it was built with the r-th access unit, and these are the fragments. */
  datatype Story = Waiting | Running(r: nat, init: Blob, from: seq<nat>, casts: seq<Cast>)

  ghost predicate Tells<K>(codec: Codec, units: seq<Stamped>, story: Story) {
    match story
    case Waiting => NotBegun<K>(codec, units)
    case Running(r, init, from, casts) => Begun<K>(codec, units, r, init, from, casts)
  }

  /** The first access unit that is written, if there is now an init segment. */
  lemma FirstWritten(codec: Codec, m: Muxer, pts: int, au: AccessUnit)
    requires m.init == None && m.prev == None
    ensures var w, p := WriteAU(codec, m, pts, au), TakeParams(codec, m.params, au);
            var key := codec.isRandomAccess(au);
            var frag := codec.marshalPart(Sample(pts, 3000, key, Avcc(au)));
            w == if TryInit(codec, p).None? then Written(Muxer(p, None, None), None, false, None)
                 else Written(Muxer(p, TryInit(codec, p), Some(pts)), frag, frag.Some? && key, TryInit(codec, p))
  {
  }

  lemma FirstStands(codec: Codec, units: seq<Stamped>, frag: Option<Blob>)
    requires units != []
    requires var n := |units| - 1;
             frag == codec.marshalPart(Sample(units[n].pts, 3000, codec.isRandomAccess(units[n].au), Avcc(units[n].au)))
    ensures var n := |units| - 1;
            if frag.Some? then Stand(codec, units, n, [n], [Cast(frag.value, codec.isRandomAccess(units[n].au))])
            else Stand(codec, units, n, [], [])
  {
    var n := |units| - 1;
    var c := if frag.Some? then Some(Cast(frag.value, codec.isRandomAccess(units[n].au))) else None;
    NothingStands(codec, units[..n]);
    assert frag == codec.marshalPart(SampleFor(codec, units, n, n));
    hide *;
    StandSnoc(codec, units, n, [], [], frag);
    if frag.Some? {
      assert [] + [n] == [n] && [] + [c.value] == [c.value];
    }
  }

  lemma NothingStands(codec: Codec, units: seq<Stamped>)
    ensures Stand(codec, units, |units|, [], [])
  {
  }

  lemma OpsOfFirst<K>(init: Blob, frag: Option<Blob>, key: bool, m: Muxer)
    ensures Ops<K>(Written(m, frag, frag.Some? && key, Some(init))) ==
            [SetInit(init)] + AsOps<K>(if frag.Some? then [Cast(frag.value, key)] else [])
  {
  }

  lemma WaitingGoesOn<K>(codec: Codec, units: seq<Stamped>) returns (story: Story)
    requires units != [] && NotBegun<K>(codec, units[..|units| - 1])
    ensures Tells<K>(codec, units, story)
  {
    var n := |units| - 1;
    var m, u := Muxed(codec, FRESH, units[..n]), units[n];
    var w, init := WriteAU(codec, m, u.pts, u.au), TryInit(codec, TakeParams(codec, m.params, u.au));
    assert Muxed(codec, FRESH, units) == w.muxer && Feed<K>(codec, FRESH, units) == [] + Ops<K>(w) == Ops<K>(w);
    FirstWritten(codec, m, u.pts, u.au);
    LastBuilds(codec, units, m.params);
    FrontDoesNotBuild(codec, units, n);
    hide WriteAU, TakeParams, TryInit, Known, Builds, Stand, Feed, Muxed;
    if init.None? {
      story := Waiting;
    } else {
      FirstStands(codec, units, w.frag);
      OpsOfFirst<K>(init.value, w.frag, codec.isRandomAccess(u.au), w.muxer);
      story := Running(n, init.value, if w.frag.Some? then [n] else [],
                       if w.frag.Some? then [Cast(w.frag.value, codec.isRandomAccess(u.au))] else []);
    }
  }

  lemma RunningGoesOn<K>(codec: Codec, units: seq<Stamped>, r: nat, init: Blob, from: seq<nat>, casts: seq<Cast>) returns (story: Story)
    requires units != [] && Begun<K>(codec, units[..|units| - 1], r, init, from, casts)
    ensures Tells<K>(codec, units, story)
  {
    var n := |units| - 1;
    var m, u := Muxed(codec, FRESH, units[..n]), units[n];
    var w := WriteAU(codec, m, u.pts, u.au);
    assert Muxed(codec, FRESH, units) == w.muxer && Feed<K>(codec, FRESH, units) == Feed<K>(codec, FRESH, units[..n]) + Ops<K>(w);
    BeginsInFront(codec, units, n, r, init);
    assert w.frag == codec.marshalPart(SampleFor(codec, units, r, n)) && w.muxer.init == Some(init) && w.newInit == None && w.muxer.prev == Some(u.pts);
    assert w.frag.Some? ==> w.key == codec.isRandomAccess(u.au);
    StandSnoc(codec, units, r, from, casts, w.frag);
    hide WriteAU, Begins, Stand, SampleFor, Muxed, Feed;
    if w.frag.Some? {
      var c := Cast(w.frag.value, codec.isRandomAccess(u.au));
      OpsSnoc<K>(casts, c);
      Assoc([SetInit(init)], AsOps<K>(casts), [Broadcast(c)]);
      story := Running(r, init, from + [n], casts + [c]);
    } else {
      story := Running(r, init, from, casts);
    }
  }

  lemma BeginsInFront(codec: Codec, units: seq<Stamped>, n: nat, r: nat, init: Blob)
    requires n <= |units| && Begins(codec, units[..n], r, init)
    ensures Begins(codec, units, r, init)
  {
    hide Builds;
    FrontBuilds(codec, units, n, r + 1, init);
    forall j, seg | 0 < j <= r
      ensures !Builds(codec, units, j, seg)
    {
      FrontBuilds(codec, units, n, j, seg);
    }
  }

  /**
   What a muxer makes of any access units: nothing, while the parameter sets among them are not
   enough for an init segment; or that init segment, built from the latest sets with the first
   access unit that makes it possible, and then one fragment for each access unit from that one on,
   in order, carrying its time, the distance to the one before, its units and its keyframe flag.
   */
  lemma {:induction false} FeedMeaning<K>(codec: Codec, units: seq<Stamped>) returns (story: Story)
    ensures match story
            case Waiting =>
              Feed<K>(codec, FRESH, units) == [] && forall j, seg :: 0 < j <= |units| ==> !Builds(codec, units, j, seg)
            case Running(r, init, from, casts) =>
              && Begins(codec, units, r, init) && Stand(codec, units, r, from, casts)
              && Feed<K>(codec, FRESH, units) == [SetInit(init)] + AsOps<K>(casts)
    ensures Tells<K>(codec, units, story)
    decreases |units|
  {
    if units == [] {
      story := Waiting;
    } else {
      var before := FeedMeaning<K>(codec, units[..|units| - 1]);
      if before.Waiting? {
        story := WaitingGoesOn<K>(codec, units);
      } else {
        story := RunningGoesOn<K>(codec, units, before.r, before.init, before.from, before.casts);
      }
    }
  }

  // ---------------------------------------------------------------- what the clients of a stream are given

  function CastsOf<K>(ops: seq<Op<K>>): seq<Cast> {
    if ops == [] then [] else (if ops[0].Broadcast? then [ops[0].c] else []) + CastsOf(ops[1..])
  }

  lemma {:induction false} HistIsCasts<K>(h: Hub<K>, ops: seq<Op<K>>)
    ensures WsHub.Run(h, ops).hist == h.hist + CastsOf(FeederPart(ops))
    decreases |ops|
  {
    if ops != [] {
      HistIsCasts(WsHub.Step(h, ops[0]), ops[1..]);
      if FromFeeder(ops[0]) {
        assert FeederPart(ops)[0] == ops[0] && FeederPart(ops)[1..] == FeederPart(ops[1..]);
        Assoc(h.hist, if ops[0].Broadcast? then [ops[0].c] else [], CastsOf(FeederPart(ops[1..])));
      } else {
        assert FeederPart(ops) == FeederPart(ops[1..]);
      }
    }
  }

  lemma {:induction false} CastsOfOps<K>(casts: seq<Cast>)
    ensures CastsOf(AsOps<K>(casts)) == casts
    decreases |casts|
  {
    if casts != [] {
      CastsOfOps<K>(casts[1..]);
      assert AsOps<K>(casts)[1..] == AsOps<K>(casts[1..]);
      assert casts == [casts[0]] + casts[1..];
    }
  }

  lemma CastsOfFeed<K>(init: Blob, casts: seq<Cast>)
    ensures CastsOf<K>([SetInit(init)] + AsOps<K>(casts)) == casts
  {
    CastsOfOps<K>(casts);
    assert ([SetInit(init)] + AsOps<K>(casts))[1..] == AsOps<K>(casts);
  }

  /** What a client is given is the init segment and the fragments of these access units. */
  ghost predicate GivenAre(codec: Codec, units: seq<Stamped>, r: nat, at: seq<nat>, given: seq<Blob>) {
    && |given| == |at| + 1 && Begins(codec, units, r, given[0])
    && (forall i :: 0 <= i < |at| ==> r <= at[i] < |units|)
    && (forall i, j :: 0 <= i < j < |at| ==> at[i] < at[j])
    && (forall i :: 0 <= i < |at| ==> codec.marshalPart(SampleFor(codec, units, r, at[i])) == Some(given[i + 1]))
  }

  /** Those picked of the fragments are the fragments of access units in order. */
  lemma PickedStand(codec: Codec, units: seq<Stamped>, r: nat, init: Blob, from: seq<nat>, casts: seq<Cast>, picks: seq<nat>)
    requires Begins(codec, units, r, init) && Stand(codec, units, r, from, casts) && Indexes(casts, picks)
    ensures var at := At(from, picks);
            GivenAre(codec, units, r, at, [init] + Picked(casts, picks))
  {
    hide Begins, SampleFor;
  }

  /** Those picked of the fragments, seen as access units. */
  function At(from: seq<nat>, picks: seq<nat>): (at: seq<nat>)
    requires forall i :: 0 <= i < |picks| ==> picks[i] < |from|
    ensures |at| == |picks|
  {
    seq(|picks|, i requires 0 <= i < |picks| => from[picks[i]])
  }

  /** Without a gap among the picks, every fragment from the first one on is picked. */
  lemma AllArePicked(from: seq<nat>, picks: seq<nat>, j: nat)
    requires forall i, k :: 0 <= i < k < |from| ==> from[i] < from[k]
    requires forall i, k :: 0 <= i < k < |picks| ==> picks[i] < picks[k]
    requires forall i :: 0 <= i < |picks| ==> picks[i] < |from|
    requires picks != [] && |picks| == |from| - picks[0] && j in from && from[picks[0]] <= j
    ensures j in At(from, picks)
  {
    AllIndexes(picks, |from|);
    var x :| 0 <= x < |from| && from[x] == j;
    assert x >= picks[0];
    assert At(from, picks)[x - picks[0]] == j;
  }

  lemma NoGapInPicked(codec: Codec, units: seq<Stamped>, r: nat, from: seq<nat>, casts: seq<Cast>, picks: seq<nat>, j: nat)
    requires Stand(codec, units, r, from, casts) && Indexes(casts, picks) && picks != []
    requires |picks| == |casts| - picks[0] && r <= j < |units| && from[picks[0]] <= j && j !in At(from, picks)
    ensures codec.marshalPart(SampleFor(codec, units, r, j)) == None
  {
    if j in from {
      AllArePicked(from, picks, j);
    }
  }

  /** What follows from the fragments of a stream and the picks of a client. */
  lemma PickedOfStream(codec: Codec, units: seq<Stamped>, r: nat, init: Blob, from: seq<nat>, casts: seq<Cast>, picks: seq<nat>, missed: nat)
    requires Begins(codec, units, r, init) && Stand(codec, units, r, from, casts) && Indexes(casts, picks)
    requires picks != [] && casts[picks[0]].key && (missed == 0 ==> |picks| == |casts| - picks[0])
    ensures var at := At(from, picks);
            && GivenAre(codec, units, r, at, [init] + Picked(casts, picks))
            && codec.isRandomAccess(units[at[0]].au)
            && (missed == 0 ==>
                  forall j :: at[0] <= j < |units| && j !in at ==> codec.marshalPart(SampleFor(codec, units, r, j)) == None)
  {
    PickedStand(codec, units, r, init, from, casts, picks);
    hide Begins, SampleFor, GivenAre;
    if missed == 0 {
      forall j | At(from, picks)[0] <= j < |units| && j !in At(from, picks)
        ensures codec.marshalPart(SampleFor(codec, units, r, j)) == None
      {
        NoGapInPicked(codec, units, r, from, casts, picks, j);
      }
    }
  }

  /** What was broadcast are the fragments of the stream, if anything was given to anyone. */
  lemma StreamRuns<K>(codec: Codec, units: seq<Stamped>, ops: seq<Op<K>>, k: K) returns (r: nat, init: Blob, from: seq<nat>, casts: seq<Cast>)
    requires FeederPart(ops) == Feed(codec, FRESH, units)
    requires k in WsHub.Run(NewHub(), ops).clients && WsHub.Run(NewHub(), ops).clients[k].started
    ensures Begins(codec, units, r, init) && Stand(codec, units, r, from, casts)
    ensures WsHub.Run(NewHub<K>(), ops).hist == casts
    ensures forall seg :: seg in Inits(ops) ==> seg == init
  {
    FeedSetsInitFirst<K>(codec, units);
    InterleavingKeepsOrder(ops);
    ClientHistory(ops, k);
    InitsAreOne(codec, units, ops);
    var story := FeedMeaning<K>(codec, units);
    HistIsCasts(NewHub<K>(), ops);
    hide Begins, Stand, Known, Builds, WsHub.Run, Feed, FeederPart, Muxed;
    r, init, from, casts := story.r, story.init, story.from, story.casts;
    CastsOfFeed<K>(init, casts);
  }

  lemma StampedTimes(aus: seq<AccessUnit>)
    ensures forall j :: 0 <= j < |Stamp(aus)| ==> Stamp(aus)[j].pts == 6000 * j
  {
  }

  lemma GivenIsPicked<K>(ops: seq<Op<K>>, k: K)
    requires InitBeforeKey(ops) && k in WsHub.Run(NewHub(), ops).clients && WsHub.Run(NewHub(), ops).clients[k].started
    ensures var h := WsHub.Run(NewHub(), ops);
            var client := h.clients[k];
            && Indexes(h.hist, client.picks) && client.picks != []
            && |Enqueued(client, h.hist)| > 0 && Enqueued(client, h.hist)[0] in Inits(ops)
            && Enqueued(client, h.hist) == [Enqueued(client, h.hist)[0]] + Picked(h.hist, client.picks)
            && h.hist[client.picks[0]].key
            && (client.missed == 0 ==> |client.picks| == |h.hist| - client.picks[0])
  {
    ClientHistory(ops, k);
    hide WsHub.Run, InitBeforeKey;
    var h := WsHub.Run(NewHub<K>(), ops);
    var given := Enqueued(h.clients[k], h.hist);
    assert given == [given[0]] + given[1..];
  }

  /**
   End to end: however clients join, leave and receive while a byte stream is being ingested, what
   a client is given is nothing, or the init segment of the stream and then the fragments of access
   units in their order, the first of them one that decoding can begin with. If the client lost
   nothing, no access unit is missing from there on that could be written at all.
   */
  lemma ClientsGetTheStream<K>(codec: Codec, stream: seq<byte>, ops: seq<Op<K>>, k: K) returns (r: nat, at: seq<nat>)
    requires FeederPart(ops) == FeedOf(codec, stream)
    requires k in WsHub.Run(NewHub(), ops).clients && WsHub.Run(NewHub(), ops).clients[k].started
    ensures var h := WsHub.Run(NewHub(), ops);
            var client, units := h.clients[k], Stamp(Terminated(Split(stream).nals));
            && Indexes(h.hist, client.picks)
            && GivenAre(codec, units, r, at, Enqueued(client, h.hist))
            && at != [] && codec.isRandomAccess(units[at[0]].au)
            && (forall j :: 0 <= j < |units| ==> units[j].pts == 6000 * j)
            && (client.missed == 0 ==>
                  forall j :: at[0] <= j < |units| && j !in at ==> codec.marshalPart(SampleFor(codec, units, r, j)) == None)
  {
    var units := Stamp(Terminated(Split(stream).nals));
    var h := WsHub.Run(NewHub<K>(), ops);
    var client := h.clients[k];
    FeedSetsInitFirst<K>(codec, units);
    InterleavingKeepsOrder(ops);
    hide WsHub.Run, InitBeforeKey, Stamp, Enqueued, Picked, GivenAre, Begins, SampleFor, Feed, FeederPart;
    GivenIsPicked(ops, k);
    StampedTimes(Terminated(Split(stream).nals));
    var init, from, casts;
    r, init, from, casts := StreamRuns(codec, units, ops, k);
    at := At(from, client.picks);
    hide At, Stand, Indexes;
    PickedOfStream(codec, units, r, init, from, casts, client.picks, client.missed);
  }
}
