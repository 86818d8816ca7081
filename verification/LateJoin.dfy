/**
 Late join: the publisher's loop, the session's broadcast loop, and a watcher that
 registers, is sent a keyframe and then drains its queue, interleaved in any way.
 A queued delta may already be part of the keyframe; it is painted again.
 */
module LateJoin {
  import opened Bytes
  import opened Ovp
  import opened FrameCodec
  import opened FrameBuffer
  import opened Viewer

  const BROADCAST_CAPACITY := 64

  /** A frame as it is passed on: the length that its header declares, and the payload that follows. */
  datatype Message = Frame(length: uint32, payload: Blob) | Other(body: Blob)

  /** What the viewer makes of a message. It believes the header's length, and not the payload's. */
  function SeenIn(m: Message): Option<FrameDelta> {
    if m.Frame? && Octets(m.payload) && m.length <= |m.payload| then
      assert Octets(m.payload[..m.length]);
      Seen(m.payload[..m.length])
    else None
  }

  /** A frame that the relay accepts, with the tile size the publisher always uses, and whose header covers it. */
  predicate Sound(ts: uint16, m: Message) {
    m.Frame? ==>
      && Octets(m.payload) && Decode(m.payload).Ok?
      && Usable(Decode(m.payload).value) && Decode(m.payload).value.tileSize == ts
      && |Encode(Decode(m.payload).value)| <= m.length <= |m.payload|
  }

  lemma SoundIsSeen(ts: uint16, m: Message)
    requires Sound(ts, m)
    ensures SeenIn(m) == if m.Frame? then Some(Decode(m.payload).value) else None
  {
    if m.Frame? {
      SeenIsDecoded(m.payload, m.length);
    }
  }

  predicate AllSound(ts: uint16, ms: seq<Message>) {
    forall i :: 0 <= i < |ms| ==> Sound(ts, ms[i])
  }

  lemma FrontIsSound(ts: uint16, ms: seq<Message>)
    requires AllSound(ts, ms) && ms != []
    ensures AllSound(ts, ms[..|ms| - 1])
  {
    hide Sound;
  }

  /** The delta in a message, if it is a frame. */
  function DeltaIn(ts: uint16, m: Message): (ds: seq<FrameDelta>)
    requires Sound(ts, m)
    ensures forall i :: 0 <= i < |ds| ==> Usable(ds[i]) && ds[i].tileSize == ts
  {
    if m.Frame? then [Decode(m.payload).value] else []
  }

  /** The deltas among the messages. */
  function Deltas(ts: uint16, ms: seq<Message>): (ds: seq<FrameDelta>)
    requires AllSound(ts, ms)
    ensures forall i :: 0 <= i < |ds| ==> Usable(ds[i]) && ds[i].tileSize == ts
  {
    hide Sound, Usable;
    if ms == [] then []
    else
      FrontIsSound(ts, ms);
      Deltas(ts, ms[..|ms| - 1]) + DeltaIn(ts, ms[|ms| - 1])
  }

  function FoldAll(s: Screen, ds: seq<FrameDelta>): Screen {
    if ds == [] then s else Fold(FoldAll(s, ds[..|ds| - 1]), ds[|ds| - 1])
  }

  function ShowAll(v: View, ds: seq<FrameDelta>): View {
    if ds == [] then v else Show(ShowAll(v, ds[..|ds| - 1]), ds[|ds| - 1])
  }

  // ---------------------------------------------------------------- deltas since the last resolution change

  predicate SameResolution(a: FrameDelta, b: FrameDelta) {
    a.width == b.width && a.height == b.height
  }

  /** The tiles of the deltas since the resolution last changed, in order. */
  function Segment(ds: seq<FrameDelta>): seq<Tile> {
    if ds == [] then []
    else
      var n := |ds| - 1;
      (if n > 0 && SameResolution(ds[n - 1], ds[n]) then Segment(ds[..n]) else []) + ds[n].tiles
  }

  /** The resolution never changes between these deltas. */
  predicate Unbroken(ds: seq<FrameDelta>) {
    |ds| <= 1 || (SameResolution(ds[|ds| - 2], ds[|ds| - 1]) && Unbroken(ds[..|ds| - 1]))
  }

  predicate AllUsable(ts: uint16, ds: seq<FrameDelta>) {
    forall i :: 0 <= i < |ds| ==> Usable(ds[i]) && ds[i].tileSize == ts
  }

  function Last(ds: seq<FrameDelta>): FrameDelta
    requires ds != []
  {
    ds[|ds| - 1]
  }

  /** What the first of the deltas finds and leaves in place. */
  function Start(s: Screen, ds: seq<FrameDelta>): Tiles
    requires ds != []
  {
    if Unbroken(ds) && SameGeometry(s, ds[0]) then s.tiles else map[]
  }

  /** Folding in closed form: only the deltas since the last resolution change matter. */
  lemma {:induction false} FoldClosed(ts: uint16, s: Screen, ds: seq<FrameDelta>)
    requires AllUsable(ts, ds) && ds != []
    ensures SameGeometry(FoldAll(s, ds), Last(ds))
    ensures FoldAll(s, ds).tiles == Paint(Start(s, ds), Segment(ds))
    decreases |ds|
  {
    var n := |ds| - 1;
    if n == 0 {
      assert ds[..0] == [];
      assert [] + ds[0].tiles == ds[0].tiles;
    } else {
      var front := ds[..n];
      FoldClosed(ts, s, front);
      assert Last(front) == ds[n - 1] && front[0] == ds[0];
      assert Start(s, ds) == if SameResolution(ds[n - 1], ds[n]) then Start(s, front) else map[];
      SegmentStep(ds);
      FoldStep(FoldAll(s, front), Start(s, front), Segment(front), ds[n]);
    }
  }

  lemma FoldStep(s: Screen, base: Tiles, tiles: seq<Tile>, fd: FrameDelta)
    requires Usable(fd) && s.tiles == Paint(base, tiles)
    ensures SameGeometry(Fold(s, fd), fd)
    ensures Fold(s, fd).tiles == if SameGeometry(s, fd) then Paint(base, tiles + fd.tiles) else Paint(map[], fd.tiles)
  {
    PaintAppend(base, tiles, fd.tiles);
  }

  lemma SegmentStep(ds: seq<FrameDelta>)
    requires |ds| > 1
    ensures var n := |ds| - 1;
            Segment(ds) == if SameResolution(ds[n - 1], ds[n]) then Segment(ds[..n]) + ds[n].tiles else ds[n].tiles
  {
    assert [] + ds[|ds| - 1].tiles == ds[|ds| - 1].tiles;
  }

  function ShowStart(v: View, ds: seq<FrameDelta>): Tiles
    requires ds != []
  {
    if Unbroken(ds) && SameSize(v, ds[0]) then v.shown else map[]
  }

  lemma {:induction false} ShowClosed(ts: uint16, v: View, ds: seq<FrameDelta>)
    requires AllUsable(ts, ds) && ds != []
    ensures SameSize(ShowAll(v, ds), Last(ds))
    ensures ShowAll(v, ds).shown == Paint(ShowStart(v, ds), OnScreenTiles(GeometryOf(Last(ds)), Segment(ds)))
    decreases |ds|
  {
    var n := |ds| - 1;
    if n == 0 {
      assert ds[..0] == [];
      assert [] + ds[0].tiles == ds[0].tiles;
    } else {
      var front := ds[..n];
      ShowClosed(ts, v, front);
      assert Last(front) == ds[n - 1] && front[0] == ds[0];
      assert ShowStart(v, ds) == if SameResolution(ds[n - 1], ds[n]) then ShowStart(v, front) else map[];
      SegmentStep(ds);
      ShowStep(ShowAll(v, front), GeometryOf(Last(front)), ShowStart(v, front), Segment(front), ds[n]);
    }
  }

  lemma ShowStep(v: View, g: Geometry, base: Tiles, tiles: seq<Tile>, fd: FrameDelta)
    requires v.width == g.width && v.height == g.height && fd.tileSize == g.tileSize
    requires v.shown == Paint(base, OnScreenTiles(g, tiles))
    ensures SameSize(Show(v, fd), fd)
    ensures Show(v, fd).shown ==
              if SameSize(v, fd) then Paint(base, OnScreenTiles(GeometryOf(fd), tiles + fd.tiles))
              else Paint(map[], OnScreenTiles(GeometryOf(fd), fd.tiles))
  {
    OnScreenAppend(g, tiles, fd.tiles);
    PaintAppend(base, OnScreenTiles(g, tiles), OnScreenTiles(g, fd.tiles));
  }

  lemma {:induction false} OnScreenAppend(g: Geometry, a: seq<Tile>, b: seq<Tile>)
    ensures OnScreenTiles(g, a + b) == OnScreenTiles(g, a) + OnScreenTiles(g, b)
    decreases |b|
  {
    if b == [] {
      assert a + b == a;
    } else {
      var n := |b| - 1;
      DropLastOfSum(a, b);
      OnScreenAppend(g, a, b[..n]);
    }
  }

  lemma {:induction false} UnbrokenFirst(ts: uint16, ds: seq<FrameDelta>)
    requires AllUsable(ts, ds) && ds != [] && Unbroken(ds)
    ensures GeometryOf(ds[0]) == GeometryOf(Last(ds))
    decreases |ds|
  {
    if |ds| > 1 {
      UnbrokenFirst(ts, ds[..|ds| - 1]);
    }
  }

  lemma PaintSomething(base: Tiles, tiles: seq<Tile>)
    ensures tiles != [] ==> Paint(base, tiles) != map[]
  {
    if tiles != [] {
      assert KeyOf(tiles[|tiles| - 1]) in Paint(base, tiles);
    }
  }

  lemma PaintNothing(base: Tiles, tiles: seq<Tile>)
    requires Paint(base, tiles) == map[]
    ensures base == map[] && tiles == []
  {
    PaintKeys(base, tiles);
    PaintSomething(base, tiles);
    assert base.Keys == {};
  }

  /**
   The heart of it: a watcher that agrees with the cache, and then replays deltas which the
   cache already contains, agrees with it again when the replay is over.
   */
  lemma ReplayAgrees(ts: uint16, s: Screen, ds: seq<FrameDelta>, v: View)
    requires AllUsable(ts, ds) && Agree(FoldAll(s, ds), v)
    ensures Agree(FoldAll(s, ds), ShowAll(v, ds))
  {
    if ds != [] {
      var fb, w, g := FoldAll(s, ds), Segment(ds), GeometryOf(Last(ds));
      FoldClosed(ts, s, ds);
      ShowClosed(ts, v, ds);
      var base := Start(s, ds);
      VisiblePaint(g, base, w);
      PaintTwice(Visible(g, base), OnScreenTiles(g, w));
      if Unbroken(ds) {
        UnbrokenFirst(ts, ds);
      }
      if !(Unbroken(ds) && SameSize(v, ds[0])) {
        ReplayFromNothing(g, base, w, Unbroken(ds), fb, v);
      }
    }
  }

  lemma ReplayFromNothing(g: Geometry, base: Tiles, w: seq<Tile>, unbroken: bool, fb: Screen, v: View)
    requires fb.tiles == Paint(base, w) && CacheGeometry(fb) == g && Agree(fb, v)
    requires unbroken ==> !(v.width == g.width && v.height == g.height)
    requires !unbroken ==> base == map[]
    ensures Paint(map[], OnScreenTiles(g, w)) == Visible(g, fb.tiles)
  {
    assert Visible(g, map[]) == map[];
    if unbroken {
      PaintNothing(base, w);
    }
    VisiblePaint(g, map[], w);
  }

  // ---------------------------------------------------------------- agreeing again

  function Differing(m: Tiles, n: Tiles): set<uint32> {
    set k | k in m.Keys + n.Keys && Lookup(m, k) != Lookup(n, k)
  }

  lemma PaintsAlikeIff(m: Tiles, n: Tiles, tiles: seq<Tile>)
    ensures Paint(m, tiles) == Paint(n, tiles) <==> Differing(m, n) <= KeySet(tiles)
  {
    forall k: uint32
      ensures Lookup(Paint(m, tiles), k) == Lookup(Paint(n, tiles), k) <==> k in KeySet(tiles) || k !in Differing(m, n)
    {
      PaintLookup(m, tiles, k);
      PaintLookup(n, tiles, k);
      LatestIsWritten(tiles, k);
    }
    if Differing(m, n) <= KeySet(tiles) {
      SameLookups(Paint(m, tiles), Paint(n, tiles));
    }
  }

  /** Where cache and watcher differ once a delta has cleared what it clears, before its tiles are painted. */
  function LeftOver(s: Screen, v: View, fd: FrameDelta): set<uint32> {
    Differing(if SameGeometry(s, fd) then Visible(CacheGeometry(s), s.tiles) else map[], if SameSize(v, fd) then v.shown else map[])
  }

  /** The deltas make cache and watcher agree, however they may have differed before. */
  ghost predicate Reunites(s: Screen, v: View, ds: seq<FrameDelta>) {
    if ds == [] then Agree(s, v)
    else !Unbroken(ds) || LeftOver(s, v, ds[0]) <= KeySet(OnScreenTiles(GeometryOf(Last(ds)), Segment(ds)))
  }

  /**
   A cache and a watcher with any screens at all, to which the same deltas come: they agree in
   the end exactly when the resolution changed between two of the deltas, or the deltas painted
   over every position where something different was left.
   */
  lemma AgreesAgainIff(ts: uint16, s: Screen, v: View, ds: seq<FrameDelta>)
    requires AllUsable(ts, ds)
    ensures Agree(FoldAll(s, ds), ShowAll(v, ds)) <==> Reunites(s, v, ds)
  {
    if ds != [] {
      var g, w := GeometryOf(Last(ds)), Segment(ds);
      FoldClosed(ts, s, ds);
      ShowClosed(ts, v, ds);
      VisiblePaint(g, Start(s, ds), w);
      PaintsAlikeIff(Visible(g, Start(s, ds)), ShowStart(v, ds), OnScreenTiles(g, w));
      assert Visible(g, map[]) == map[];
      if Unbroken(ds) {
        UnbrokenFirst(ts, ds);
      }
    }
  }

  // ---------------------------------------------------------------- sequences of messages

  lemma DropLastOfSum<T>(a: seq<T>, b: seq<T>)
    requires b != []
    ensures (a + b)[..|a + b| - 1] == a + b[..|b| - 1] && (a + b)[|a + b| - 1] == b[|b| - 1]
  {
  }

  lemma {:induction false} DeltasAppend(ts: uint16, a: seq<Message>, b: seq<Message>)
    requires AllSound(ts, a) && AllSound(ts, b)
    ensures AllSound(ts, a + b) && Deltas(ts, a + b) == Deltas(ts, a) + Deltas(ts, b)
    decreases |b|
  {
    if b == [] {
      assert a + b == a;
    } else {
      var n := |b| - 1;
      FrontIsSound(ts, b);
      DeltasAppend(ts, a, b[..n]);
      DropLastOfSum(a, b);
      hide Sound;
      Assoc(Deltas(ts, a), Deltas(ts, b[..n]), DeltaIn(ts, b[n]));
    }
  }

  lemma {:induction false} FoldAppend(s: Screen, a: seq<FrameDelta>, b: seq<FrameDelta>)
    ensures FoldAll(s, a + b) == FoldAll(FoldAll(s, a), b)
    decreases |b|
  {
    if b == [] {
      assert a + b == a;
    } else {
      var n := |b| - 1;
      FoldAppend(s, a, b[..n]);
      DropLastOfSum(a, b);
    }
  }

  lemma {:induction false} ShowAppend(v: View, a: seq<FrameDelta>, b: seq<FrameDelta>)
    ensures ShowAll(v, a + b) == ShowAll(ShowAll(v, a), b)
    decreases |b|
  {
    if b == [] {
      assert a + b == a;
    } else {
      var n := |b| - 1;
      ShowAppend(v, a, b[..n]);
      DropLastOfSum(a, b);
    }
  }
}
