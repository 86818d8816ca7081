/** The viewer's screen: how a watcher paints the deltas that it receives, and how that compares with the relay's cache. */
module Viewer {
  import opened Bytes
  import opened Ovp
  import opened FrameCodec
  import opened FrameBuffer

  datatype Geometry = Geometry(width: uint16, height: uint16, tileSize: uint16)

  function GeometryOf(fd: FrameDelta): Geometry {
    Geometry(fd.width, fd.height, fd.tileSize)
  }

  function CacheGeometry(s: Screen): Geometry {
    Geometry(s.width, s.height, s.tileSize)
  }

  /** The pixel at which a column or row of tiles begins, as a sum rather than a product. */
  function PixelOf(t: nat, tileSize: nat): nat {
    if t == 0 then 0 else PixelOf(t - 1, tileSize) + tileSize
  }

  /** The sum of steps is the product; `OnScreen` is stated without multiplication. */
  lemma {:induction false} PixelIsProduct(t: nat, tileSize: nat)
    ensures PixelOf(t, tileSize) == t * tileSize
  {
    if t > 0 {
      PixelIsProduct(t - 1, tileSize);
    }
  }

  /** Whether any pixel of the tile at this position is on the screen. */
  predicate OnScreen(g: Geometry, tx: uint16, ty: uint16) {
    && Min(g.tileSize, g.width - PixelOf(tx, g.tileSize)) > 0
    && Min(g.tileSize, g.height - PixelOf(ty, g.tileSize)) > 0
  }

  /** What is on the screen: the tile's first pixel is, in both directions. */
  lemma OnScreenMeans(g: Geometry, tx: uint16, ty: uint16)
    ensures OnScreen(g, tx, ty) <==> g.tileSize > 0 && tx * g.tileSize < g.width && ty * g.tileSize < g.height
  {
    PixelIsProduct(tx, g.tileSize);
    PixelIsProduct(ty, g.tileSize);
  }

  /** A pixel of the screen that lies within the tile at this position. */
  predicate PixelOfTile(g: Geometry, tx: uint16, ty: uint16, x: nat, y: nat) {
    && x < g.width && y < g.height
    && tx * g.tileSize <= x < (tx + 1) * g.tileSize && ty * g.tileSize <= y < (ty + 1) * g.tileSize
  }

  /** A tile is on the screen exactly when some pixel of it is. */
  lemma OnScreenExactlyWithAPixel(g: Geometry, tx: uint16, ty: uint16)
    ensures OnScreen(g, tx, ty) <==> exists x: nat, y: nat :: PixelOfTile(g, tx, ty, x, y)
  {
    var ts: nat, left: nat, top: nat := g.tileSize, tx * g.tileSize, ty * g.tileSize;
    OnScreenMeans(g, tx, ty);
    assert (tx + 1) * g.tileSize == left + ts && (ty + 1) * g.tileSize == top + ts;
    assert forall x: nat, y: nat :: PixelOfTile(g, tx, ty, x, y) <==>
                                    x < g.width && y < g.height && left <= x < left + ts && top <= y < top + ts;
    hide OnScreen, PixelOfTile;
    if ts > 0 && left < g.width && top < g.height {
      assert PixelOfTile(g, tx, ty, left, top);
    }
  }

  predicate KeyOnScreen(g: Geometry, k: uint32) {
    OnScreen(g, k / 0x1_0000, k % 0x1_0000)
  }

  function OnScreenTiles(g: Geometry, tiles: seq<Tile>): seq<Tile> {
    if tiles == [] then []
    else
      var front, t := OnScreenTiles(g, tiles[..|tiles| - 1]), tiles[|tiles| - 1];
      if KeyOnScreen(g, KeyOf(t)) then front + [t] else front
  }

  /** Of the tiles, in their order, those are kept whose first pixel is on the screen. */
  lemma KeptOneByOne(g: Geometry, tiles: seq<Tile>, t: Tile)
    ensures OnScreenTiles(g, []) == []
    ensures OnScreenTiles(g, tiles + [t]) ==
            if g.tileSize > 0 && t.tx * g.tileSize < g.width && t.ty * g.tileSize < g.height
            then OnScreenTiles(g, tiles) + [t] else OnScreenTiles(g, tiles)
  {
    assert (tiles + [t])[..|tiles|] == tiles;
    KeyPosition(t);
    OnScreenMeans(g, t.tx, t.ty);
  }

  /** The part of a tile map that is on the screen. */
  function Visible(g: Geometry, m: Tiles): Tiles {
    map k | k in m && KeyOnScreen(g, k) :: m[k]
  }

  /** A screen on which every delta is painted as soon as it is there. */
  datatype View = View(width: uint16, height: uint16, shown: Tiles)

  const NO_VIEW := View(0, 0, map[])

  /** The screen is cleared when the resolution changes, and only then. */
  function Show(v: View, fd: FrameDelta): View {
    View(fd.width, fd.height,
         Paint(if fd.width != v.width || fd.height != v.height then map[] else v.shown,
               OnScreenTiles(GeometryOf(fd), fd.tiles)))
  }

  /** The viewer reads as many tiles as are complete. */
  function CompleteTiles(data: Blob, count: nat): Walk
    requires Octets(data) && |data| >= DELTA_HEADER_SIZE
  {
    if count == 0 then Walk([], DELTA_HEADER_SIZE)
    else
      var w := DecodeTiles(data, count);
      if w.Ok? then w.value else CompleteTiles(data, count - 1)
  }

  function Seen(payload: Blob): Option<FrameDelta>
    requires Octets(payload)
  {
    if |payload| < DELTA_HEADER_SIZE then None
    else
      var head := DecodeHead(payload);
      Some(head.(tiles := CompleteTiles(payload, head.tileCount).tiles))
  }

  /** What the relay accepts, the viewer reads the same way from any part that covers the delta. */
  lemma SeenIsDecoded(payload: Blob, n: nat)
    requires Octets(payload) && Decode(payload).Ok?
    requires |Encode(Decode(payload).value)| <= n <= |payload|
    ensures Octets(payload[..n]) && Seen(payload[..n]) == Some(Decode(payload).value)
  {
    var fd, part := Decode(payload).value, payload[..n];
    DecodeAcceptsExactly(payload, fd);
    assert Octets(part);
    assert Encode(fd) <= part;
    DecodeAcceptsExactly(part, fd);
    assert CompleteTiles(part, DecodeHead(part).tileCount) == DecodeTiles(part, DecodeHead(part).tileCount).value;
  }

  /** A payload that ends within a tile record is read up to there. */
  lemma SeenUntilCut(payload: Blob, head: FrameDelta, tiles: seq<Tile>)
    requires Octets(payload) && |payload| >= DELTA_HEADER_SIZE && DecodeHead(payload) == head
    requires Yields(payload, |tiles|, tiles) && |tiles| < head.tileCount
    requires Behind(tiles) + TILE_HEADER_SIZE > |payload|
    ensures Seen(payload) == Some(head.(tiles := tiles)) && Decode(payload).Err?
  {
    TilesAt(payload, tiles);
    TruncationIsFinal(payload, |tiles| + 1, head.tileCount);
    StopsAtTruncation(payload, |tiles|, head.tileCount);
  }

  lemma AllComplete(data: Blob, count: nat)
    requires Octets(data) && |data| >= DELTA_HEADER_SIZE && DecodeTiles(data, count).Ok?
    ensures CompleteTiles(data, count) == DecodeTiles(data, count).value
  {
  }

  lemma {:induction false} StopsAtTruncation(data: Blob, i: nat, count: nat)
    requires Octets(data) && |data| >= DELTA_HEADER_SIZE && i < count
    requires DecodeTiles(data, i).Ok? && DecodeTiles(data, i + 1).Err?
    ensures CompleteTiles(data, count) == DecodeTiles(data, i).value
    decreases count
  {
    hide DecodeNext, Octets;
    TruncationIsFinal(data, i + 1, count);
    if count > i + 1 {
      StopsAtTruncation(data, i, count - 1);
    }
  }

  // ---------------------------------------------------------------- painting

  function Lookup(m: Tiles, k: uint32): Option<Tile> {
    if k in m then Some(m[k]) else None
  }

  function Latest(tiles: seq<Tile>, k: uint32): Option<Tile> {
    if tiles == [] then None
    else if KeyOf(tiles[|tiles| - 1]) == k then Some(Stored(tiles[|tiles| - 1]))
    else Latest(tiles[..|tiles| - 1], k)
  }

  lemma {:induction false} PaintLookup(base: Tiles, tiles: seq<Tile>, k: uint32)
    ensures Lookup(Paint(base, tiles), k) == if Latest(tiles, k).Some? then Latest(tiles, k) else Lookup(base, k)
    decreases |tiles|
  {
    if tiles != [] {
      PaintLookup(base, tiles[..|tiles| - 1], k);
    }
  }

  lemma SameLookups(m: Tiles, n: Tiles)
    requires forall k :: Lookup(m, k) == Lookup(n, k)
    ensures m == n
  {
    assert forall k :: k in m ==> Lookup(m, k).Some? && Lookup(n, k).Some?;
    assert forall k :: k in n ==> Lookup(n, k).Some? && Lookup(m, k).Some?;
  }

  /** Painting the same tiles a second time changes nothing. */
  lemma PaintTwice(base: Tiles, tiles: seq<Tile>)
    ensures Paint(Paint(base, tiles), tiles) == Paint(base, tiles)
  {
    forall k: uint32
      ensures Lookup(Paint(Paint(base, tiles), tiles), k) == Lookup(Paint(base, tiles), k)
    {
      PaintLookup(base, tiles, k);
      PaintLookup(Paint(base, tiles), tiles, k);
    }
    SameLookups(Paint(Paint(base, tiles), tiles), Paint(base, tiles));
  }

  lemma {:induction false} PaintAppend(base: Tiles, a: seq<Tile>, b: seq<Tile>)
    ensures Paint(base, a + b) == Paint(Paint(base, a), b)
    decreases |b|
  {
    if b == [] {
      assert a + b == a;
    } else {
      var n := |b| - 1;
      assert (a + b)[..|a| + n] == a + b[..n] && (a + b)[|a| + n] == b[n];
      PaintAppend(base, a, b[..n]);
    }
  }

  lemma KeyPosition(t: Tile)
    ensures KeyOf(t) / 0x1_0000 == t.tx && KeyOf(t) % 0x1_0000 == t.ty
  {
  }

  lemma VisibleUpdate(g: Geometry, m: Tiles, k: uint32, t: Tile)
    ensures Visible(g, m[k := t]) == if KeyOnScreen(g, k) then Visible(g, m)[k := t] else Visible(g, m)
  {
  }

  /** Leaving out what is off the screen before painting or after it is the same. */
  lemma {:induction false} VisiblePaint(g: Geometry, base: Tiles, tiles: seq<Tile>)
    ensures Visible(g, Paint(base, tiles)) == Paint(Visible(g, base), OnScreenTiles(g, tiles))
    decreases |tiles|
  {
    if tiles != [] {
      var n := |tiles| - 1;
      VisiblePaint(g, base, tiles[..n]);
      VisibleUpdate(g, Paint(base, tiles[..n]), KeyOf(tiles[n]), Stored(tiles[n]));
      PaintSnoc(Visible(g, base), OnScreenTiles(g, tiles[..n]), tiles[n]);
    }
  }

  lemma PaintSnoc(base: Tiles, tiles: seq<Tile>, t: Tile)
    ensures Paint(base, tiles + [t]) == Paint(base, tiles)[KeyOf(t) := Stored(t)]
  {
    assert (tiles + [t])[..|tiles|] == tiles;
  }

  // ---------------------------------------------------------------- agreement with the relay

  /** The watcher shows what the relay caches; their resolutions may differ only while both hold nothing. */
  predicate Agree(s: Screen, v: View) {
    && v.shown == Visible(CacheGeometry(s), s.tiles)
    && ((v.width == s.width && v.height == s.height) || (v.shown == map[] && s.tiles == map[]))
  }

  predicate SameSize(v: View, fd: FrameDelta) {
    v.width == fd.width && v.height == fd.height
  }

  /**
   One delta applied on both sides keeps them in agreement exactly when it does not change
   the tile size alone, or paints over every tile that was shown. (The relay forgets its
   tiles when the tile size changes, the viewer does not.)
   */
  lemma DeltaKeepsAgreementIff(s: Screen, v: View, fd: FrameDelta)
    requires Agree(s, v) && Usable(fd)
    ensures Agree(Fold(s, fd), Show(v, fd)) <==>
            || SameGeometry(s, fd)
            || !SameSize(v, fd)
            || v.shown.Keys <= KeySet(OnScreenTiles(GeometryOf(fd), fd.tiles))
  {
    var g, tiles := GeometryOf(fd), OnScreenTiles(GeometryOf(fd), fd.tiles);
    assert Visible(g, map[]) == map[];
    VisiblePaint(g, map[], fd.tiles);
    if SameGeometry(s, fd) {
      VisiblePaint(g, s.tiles, fd.tiles);
    } else if SameSize(v, fd) {
      PaintKeys(v.shown, tiles);
      PaintKeys(map[], tiles);
      if v.shown.Keys <= KeySet(tiles) {
        PaintOver(v.shown, tiles);
      }
    }
  }

  /** What was there before is gone once every tile has been painted over. */
  lemma PaintOver(base: Tiles, tiles: seq<Tile>)
    requires base.Keys <= KeySet(tiles)
    ensures Paint(base, tiles) == Paint(map[], tiles)
  {
    forall k: uint32
      ensures Lookup(Paint(base, tiles), k) == Lookup(Paint(map[], tiles), k)
    {
      PaintLookup(base, tiles, k);
      PaintLookup(map[], tiles, k);
      LatestIsWritten(tiles, k);
    }
    SameLookups(Paint(base, tiles), Paint(map[], tiles));
  }

  lemma {:induction false} LatestIsWritten(tiles: seq<Tile>, k: uint32)
    ensures Latest(tiles, k).Some? <==> k in KeySet(tiles)
    decreases |tiles|
  {
    if tiles != [] {
      LatestIsWritten(tiles[..|tiles| - 1], k);
    }
  }

  /** Every tile that is painted last at its position is the one shown there already. */
  ghost predicate Repaints(shown: Tiles, tiles: seq<Tile>) {
    forall k :: k in KeySet(tiles) ==> Lookup(shown, k) == Latest(tiles, k)
  }

  lemma RepaintsMeaning(shown: Tiles, base: Tiles, tiles: seq<Tile>)
    requires base == shown || base == map[]
    ensures Paint(base, tiles) == shown <==> Repaints(shown, tiles) && (base == shown || shown.Keys <= KeySet(tiles))
  {
    forall k: uint32
      ensures Lookup(Paint(base, tiles), k) == if k in KeySet(tiles) then Latest(tiles, k) else Lookup(base, k)
    {
      PaintLookup(base, tiles, k);
      LatestIsWritten(tiles, k);
    }
    if Repaints(shown, tiles) && (base == shown || shown.Keys <= KeySet(tiles)) {
      SameLookups(Paint(base, tiles), shown);
    }
    if Paint(base, tiles) == shown {
      PaintKeys(base, tiles);
    }
  }

  /**
   A delta that the relay does not fold, for whatever reason, and the watcher paints: it does no
   harm exactly when it repaints what is shown, or nothing was shown and nothing is painted.
   */
  lemma UnfoldedAgreesIff(s: Screen, v: View, fd: FrameDelta)
    requires Agree(s, v)
    ensures var tiles := OnScreenTiles(GeometryOf(fd), fd.tiles);
            Agree(s, Show(v, fd)) <==>
              if SameSize(v, fd) then Repaints(v.shown, tiles) else tiles == [] && v.shown == map[] && s.tiles == map[]
  {
    var tiles := OnScreenTiles(GeometryOf(fd), fd.tiles);
    if SameSize(v, fd) {
      RepaintsMeaning(v.shown, v.shown, tiles);
    } else {
      PaintKeys(map[], tiles);
      assert tiles != [] ==> KeyOf(tiles[|tiles| - 1]) in KeySet(tiles);
    }
  }

  /**
   A delta that the relay folds and the watcher does not get: it is not missed exactly when it
   would have repainted what is shown, and nothing else is to be cleared.
   */
  lemma LostAgreesIff(s: Screen, v: View, fd: FrameDelta)
    requires Agree(s, v) && Usable(fd)
    ensures var tiles := OnScreenTiles(GeometryOf(fd), fd.tiles);
            Agree(Fold(s, fd), v) <==>
              && Repaints(v.shown, tiles)
              && (SameGeometry(s, fd) || v.shown.Keys <= KeySet(tiles))
              && (SameSize(v, fd) || fd.tiles == [])
  {
    var g, tiles := GeometryOf(fd), OnScreenTiles(GeometryOf(fd), fd.tiles);
    var kept := if SameGeometry(s, fd) then s.tiles else map[];
    var base := if SameGeometry(s, fd) then v.shown else map[];
    assert Visible(g, map[]) == map[];
    VisiblePaint(g, kept, fd.tiles);
    RepaintsMeaning(v.shown, base, tiles);
    PaintKeys(kept, fd.tiles);
    if fd.tiles == [] {
      assert tiles == [];
    } else {
      assert KeyOf(fd.tiles[|fd.tiles| - 1]) in KeySet(fd.tiles);
    }
  }

  // ---------------------------------------------------------------- drawing later

  /** The tiles of one delta that wait to be drawn; their places were computed when they arrived. */
  datatype Batch = Batch(tileSize: uint16, tiles: seq<Tile>)

  /** The screen as it is: cleared at once, drawn on later, one delta after the other. */
  datatype Canvas = Canvas(width: uint16, height: uint16, shown: Tiles, chain: seq<Batch>)

  const NO_CANVAS := Canvas(0, 0, map[], [])

  function Arrive(c: Canvas, fd: FrameDelta): Canvas {
    Canvas(fd.width, fd.height,
           if fd.width != c.width || fd.height != c.height then map[] else c.shown,
           c.chain + [Batch(fd.tileSize, OnScreenTiles(GeometryOf(fd), fd.tiles))])
  }

  /** Two codecs are known; a tile that cannot be decoded, whatever length was declared for it, is left out. */
  predicate Decodes(t: Tile, broken: set<Tile>) {
    (t.codec == 1 || t.codec == 2) && Stored(t) !in broken
  }

  function Decoded(tiles: seq<Tile>, broken: set<Tile>): seq<Tile> {
    if tiles == [] then []
    else
      var front, t := Decoded(tiles[..|tiles| - 1], broken), tiles[|tiles| - 1];
      if Decodes(t, broken) then front + [t] else front
  }

  /** Of the tiles, in their order, those of codec 1 or 2 are left that are not broken. */
  lemma DecodedOneByOne(tiles: seq<Tile>, t: Tile, broken: set<Tile>)
    requires t.dataLen == |t.data|
    ensures Decoded([], broken) == []
    ensures Decoded(tiles + [t], broken) ==
            if (t.codec == 1 || t.codec == 2) && t !in broken then Decoded(tiles, broken) + [t] else Decoded(tiles, broken)
  {
    assert (tiles + [t])[..|tiles|] == tiles;
    CachedIsStored(t);
  }

  /** Those that can be decoded are painted where the canvas has room for them. */
  function Drawn(base: Tiles, g: Geometry, tiles: seq<Tile>, broken: set<Tile>): Tiles {
    Paint(base, OnScreenTiles(g, Decoded(tiles, broken)))
  }

  /** The first delta that waits is drawn, onto the canvas as it is by then. */
  function Draw(c: Canvas, broken: set<Tile>): Canvas {
    if c.chain == [] then c
    else
      var b := c.chain[0];
      c.(shown := Drawn(c.shown, Geometry(c.width, c.height, b.tileSize), b.tiles, broken), chain := c.chain[1..])
  }

  /** What of the waiting tiles will lie on a canvas of this size. */
  function Waiting(width: uint16, height: uint16, chain: seq<Batch>, broken: set<Tile>): seq<Tile> {
    if chain == [] then []
    else
      OnScreenTiles(Geometry(width, height, chain[0].tileSize), Decoded(chain[0].tiles, broken)) +
      Waiting(width, height, chain[1..], broken)
  }

  /** What is shown once everything that waits has been drawn. */
  function Settled(c: Canvas, broken: set<Tile>): Tiles {
    Paint(c.shown, Waiting(c.width, c.height, c.chain, broken))
  }

  /**
   A canvas, and two things said about its history since the watcher registered: what would be
   shown had every tile been painted at once on an empty screen, and its stains. A stain is a
   position left to the wrong tile or to none: a tile from before is there, or one that was not
   drawn yet when the resolution changed, or the last tile for it could not be decoded; and no
   delta has painted over it since.
   */
  datatype Viewing = Viewing(canvas: Canvas, atOnce: View, stains: set<uint32>)

  function Reopened(c: Canvas, broken: set<Tile>): Viewing {
    Viewing(c, View(c.width, c.height, map[]), Settled(c, broken).Keys)
  }

  /** The positions whose last tile cannot be decoded. */
  function Undrawn(tiles: seq<Tile>, broken: set<Tile>): set<uint32> {
    set k | k in KeySet(tiles) && Latest(tiles, k).Some? && !Decodes(Latest(tiles, k).value, broken)
  }

  function StainsAfter(c: Canvas, stains: set<uint32>, fd: FrameDelta, broken: set<Tile>): set<uint32> {
    var tiles := OnScreenTiles(GeometryOf(fd), fd.tiles);
    (if fd.width == c.width && fd.height == c.height then stains else KeySet(Waiting(fd.width, fd.height, c.chain, broken)))
    - KeySet(tiles) + Undrawn(tiles, broken)
  }

  function See(w: Viewing, fd: FrameDelta, broken: set<Tile>): Viewing {
    Viewing(Arrive(w.canvas, fd), Show(w.atOnce, fd), StainsAfter(w.canvas, w.stains, fd, broken))
  }

  /** Only what can be decoded has been drawn. */
  ghost predicate AllDecode(m: Tiles, broken: set<Tile>) {
    forall k :: k in m ==> Decodes(m[k], broken)
  }

  /** The stains are exactly the positions at which the canvas will not show what painting at once would have shown. */
  ghost predicate Linked(w: Viewing, broken: set<Tile>) {
    && w.atOnce.width == w.canvas.width && w.atOnce.height == w.canvas.height
    && AllDecode(w.canvas.shown, broken)
    && (forall k: uint32 :: k in w.stains <==> Lookup(Settled(w.canvas, broken), k) != Lookup(w.atOnce.shown, k))
  }

  lemma ReopenedIsLinked(c: Canvas, broken: set<Tile>)
    requires AllDecode(c.shown, broken)
    ensures Linked(Reopened(c, broken), broken)
  {
  }

  /** Leaving out what cannot be decoded changes a position only if its last tile is left out. */
  lemma {:induction false} DecodedLatest(tiles: seq<Tile>, broken: set<Tile>, k: uint32)
    ensures Latest(Decoded(tiles, broken), k).Some? ==>
              Latest(tiles, k).Some? && Decodes(Latest(Decoded(tiles, broken), k).value, broken)
    ensures Latest(tiles, k).Some? && Decodes(Latest(tiles, k).value, broken) ==> Latest(Decoded(tiles, broken), k) == Latest(tiles, k)
    decreases |tiles|
  {
    if tiles != [] {
      var front, t := tiles[..|tiles| - 1], tiles[|tiles| - 1];
      DecodedLatest(front, broken, k);
      var some := Decoded(front, broken);
      assert (some + [t])[..|some|] == some;
      assert Stored(Stored(t)) == Stored(t);
    }
  }

  lemma DecodedPaint(base: Tiles, tiles: seq<Tile>, broken: set<Tile>)
    requires AllDecode(base, broken)
    ensures AllDecode(Paint(base, Decoded(tiles, broken)), broken)
  {
    var m := Paint(base, Decoded(tiles, broken));
    forall k | k in m
      ensures Decodes(m[k], broken)
    {
      PaintLookup(base, Decoded(tiles, broken), k);
      DecodedLatest(tiles, broken, k);
    }
  }

  /** Being on the screen and being decodable do not depend on each other. */
  lemma {:induction false} DecodedOnScreen(g: Geometry, tiles: seq<Tile>, broken: set<Tile>)
    ensures OnScreenTiles(g, Decoded(tiles, broken)) == Decoded(OnScreenTiles(g, tiles), broken)
    decreases |tiles|
  {
    if tiles != [] {
      var front, t := tiles[..|tiles| - 1], tiles[|tiles| - 1];
      DecodedOnScreen(g, front, broken);
      var some, visible := Decoded(front, broken), OnScreenTiles(g, front);
      assert (some + [t])[..|some|] == some;
      assert (visible + [t])[..|visible|] == visible;
    }
  }

  lemma {:induction false} WaitingSnoc(width: uint16, height: uint16, chain: seq<Batch>, b: Batch, broken: set<Tile>)
    ensures Waiting(width, height, chain + [b], broken) ==
            Waiting(width, height, chain, broken) + OnScreenTiles(Geometry(width, height, b.tileSize), Decoded(b.tiles, broken))
    decreases |chain|
  {
    if chain == [] {
      assert [b][1..] == [];
      assert [] + [b] == [b];
    } else {
      assert (chain + [b])[1..] == chain[1..] + [b];
      WaitingSnoc(width, height, chain[1..], b, broken);
    }
  }

  lemma {:induction false} OnScreenTwice(g: Geometry, tiles: seq<Tile>)
    ensures OnScreenTiles(g, OnScreenTiles(g, tiles)) == OnScreenTiles(g, tiles)
    decreases |tiles|
  {
    if tiles != [] {
      var front, t := tiles[..|tiles| - 1], tiles[|tiles| - 1];
      OnScreenTwice(g, front);
      assert (OnScreenTiles(g, front) + [t])[..|OnScreenTiles(g, front)|] == OnScreenTiles(g, front);
    }
  }

  /** What an arriving delta adds to what will be shown. */
  lemma ArriveSettles(c: Canvas, fd: FrameDelta, broken: set<Tile>)
    ensures var base := if fd.width != c.width || fd.height != c.height then map[] else c.shown;
            Settled(Arrive(c, fd), broken) ==
              Paint(Paint(base, Waiting(fd.width, fd.height, c.chain, broken)), Decoded(OnScreenTiles(GeometryOf(fd), fd.tiles), broken))
  {
    var g, tiles := GeometryOf(fd), OnScreenTiles(GeometryOf(fd), fd.tiles);
    WaitingSnoc(fd.width, fd.height, c.chain, Batch(fd.tileSize, tiles), broken);
    OnScreenTwice(g, fd.tiles);
    DecodedOnScreen(g, tiles, broken);
    PaintAppend(if fd.width != c.width || fd.height != c.height then map[] else c.shown,
                Waiting(fd.width, fd.height, c.chain, broken), Decoded(tiles, broken));
  }

  lemma {:induction false} WaitingDecodes(width: uint16, height: uint16, chain: seq<Batch>, broken: set<Tile>, base: Tiles)
    requires AllDecode(base, broken)
    ensures AllDecode(Paint(base, Waiting(width, height, chain, broken)), broken)
    decreases |chain|
  {
    if chain != [] {
      var g := Geometry(width, height, chain[0].tileSize);
      var first := OnScreenTiles(g, Decoded(chain[0].tiles, broken));
      DecodedOnScreen(g, chain[0].tiles, broken);
      DecodedPaint(base, OnScreenTiles(g, chain[0].tiles), broken);
      hide AllDecode;
      WaitingDecodes(width, height, chain[1..], broken, Paint(base, first));
      PaintAppend(base, first, Waiting(width, height, chain[1..], broken));
    }
  }

  /** Of a position that differs or not before tiles come to it, what is so once those that can be decoded are there. */
  lemma DifferenceAfter(m: Tiles, n: Tiles, tiles: seq<Tile>, broken: set<Tile>, k: uint32)
    requires AllDecode(m, broken)
    ensures Lookup(Paint(m, Decoded(tiles, broken)), k) != Lookup(Paint(n, tiles), k) <==>
              (k !in KeySet(tiles) && Lookup(m, k) != Lookup(n, k)) || k in Undrawn(tiles, broken)
  {
    PaintLookup(m, Decoded(tiles, broken), k);
    PaintLookup(n, tiles, k);
    LatestIsWritten(tiles, k);
    DecodedLatest(tiles, broken, k);
  }

  /** The stains stay exactly the positions at which the canvas will differ. */
  lemma SeeKeepsLinked(w: Viewing, fd: FrameDelta, broken: set<Tile>)
    requires Linked(w, broken)
    ensures Linked(See(w, fd, broken), broken)
  {
    var c, tiles := w.canvas, OnScreenTiles(GeometryOf(fd), fd.tiles);
    ArriveSettles(c, fd, broken);
    var same := fd.width == c.width && fd.height == c.height;
    var waiting := Waiting(fd.width, fd.height, c.chain, broken);
    var m, n := Paint(if same then c.shown else map[], waiting), if same then w.atOnce.shown else map[];
    WaitingDecodes(fd.width, fd.height, c.chain, broken, if same then c.shown else map[]);
    PaintKeys(map[], waiting);
    hide Paint, Decoded, Waiting, OnScreenTiles, Decodes;
    forall k: uint32
      ensures k in See(w, fd, broken).stains <==>
                Lookup(Settled(See(w, fd, broken).canvas, broken), k) != Lookup(See(w, fd, broken).atOnce.shown, k)
    {
      DifferenceAfter(m, n, tiles, broken, k);
    }
  }

  /** Drawing changes nothing of what will be shown in the end. */
  lemma DrawKeepsSettled(c: Canvas, broken: set<Tile>)
    ensures Settled(Draw(c, broken), broken) == Settled(c, broken)
  {
    if c.chain != [] {
      PaintAppend(c.shown, OnScreenTiles(Geometry(c.width, c.height, c.chain[0].tileSize), Decoded(c.chain[0].tiles, broken)),
                  Waiting(c.width, c.height, c.chain[1..], broken));
    }
  }

  lemma DrawKeepsLinked(w: Viewing, broken: set<Tile>)
    requires Linked(w, broken)
    ensures Linked(w.(canvas := Draw(w.canvas, broken)), broken)
  {
    DrawKeepsSettled(w.canvas, broken);
    if w.canvas.chain != [] {
      var c := w.canvas;
      var g := Geometry(c.width, c.height, c.chain[0].tileSize);
      DecodedOnScreen(g, c.chain[0].tiles, broken);
      DecodedPaint(c.shown, OnScreenTiles(g, c.chain[0].tiles), broken);
    }
  }

  /** A watcher that would agree at once will, once all is drawn, differ from the relay exactly at its stains. */
  lemma DiffersAtStains(s: Screen, w: Viewing, broken: set<Tile>)
    requires Linked(w, broken) && Agree(s, w.atOnce)
    ensures forall k: uint32 ::
              k in w.stains <==> Lookup(Settled(w.canvas, broken), k) != Lookup(Visible(CacheGeometry(s), s.tiles), k)
    ensures Settled(w.canvas, broken) == Visible(CacheGeometry(s), s.tiles) <==> w.stains == {}
    ensures w.canvas.chain == [] ==> Settled(w.canvas, broken) == w.canvas.shown
  {
    if w.stains == {} {
      SameLookups(Settled(w.canvas, broken), Visible(CacheGeometry(s), s.tiles));
    } else {
      var k :| k in w.stains;
    }
  }

  // ---------------------------------------------------------------- the screen as an object

  class ScreenView {
    var screenWidth: uint16
    var screenHeight: uint16
    var shown: Tiles
    var frameChain: seq<Batch>

    ghost function Abs(): Canvas
      reads this
    {
      Canvas(screenWidth, screenHeight, shown, frameChain)
    }

    constructor ()
      ensures Abs() == NO_CANVAS
    {
      screenWidth, screenHeight, shown, frameChain := 0, 0, map[], [];
    }

    /** The tiles of a payload that are complete. */
    static method ReadTiles(payload: Blob, count: nat) returns (tiles: seq<Tile>)
      requires Octets(payload) && |payload| >= DELTA_HEADER_SIZE
      ensures tiles == CompleteTiles(payload, count).tiles
    {
      hide Octets, DecodeNext, CompleteTiles;
      tiles := [];
      var pos, i := DELTA_HEADER_SIZE, 0;
      while i < count
        invariant 0 <= i <= count && DELTA_HEADER_SIZE <= pos <= |payload|
        invariant DecodeTiles(payload, i) == Ok(Walk(tiles, pos))
      {
        var t, next := ReadTile(payload, i, pos);
        assert DecodeTiles(payload, i + 1) == DecodeNext(payload, Walk(tiles, pos));
        if t.Err? {
          StopsAtTruncation(payload, i, count);
          return;
        }
        tiles, pos := tiles + [t.value], next;
        i := i + 1;
      }
      AllComplete(payload, count);
    }

    static method KeepOnScreen(g: Geometry, tiles: seq<Tile>) returns (kept: seq<Tile>)
      ensures kept == OnScreenTiles(g, tiles)
    {
      kept := [];
      var i := 0;
      while i < |tiles|
        invariant 0 <= i <= |tiles|
        invariant kept == OnScreenTiles(g, tiles[..i])
      {
        var t := tiles[i];
        assert tiles[..i + 1][..i] == tiles[..i];
        KeyPosition(t);
        if OnScreen(g, t.tx, t.ty) {
          kept := kept + [t];
        }
        i := i + 1;
      }
      assert tiles[..i] == tiles;
    }

    /** The canvas is cleared at once; the tiles are left to be drawn. */
    method HandleFrameDelta(payload: Blob)
      requires Octets(payload)
      modifies this
      ensures Abs() == if Seen(payload).None? then old(Abs()) else Arrive(old(Abs()), Seen(payload).value)
    {
      if |payload| < DELTA_HEADER_SIZE {
        return;
      }
      var head := DecodeHead(payload);
      if head.width != screenWidth || head.height != screenHeight {
        screenWidth := head.width;
        screenHeight := head.height;
        shown := map[];
      }
      var tiles := ReadTiles(payload, head.tileCount);
      var visible := KeepOnScreen(GeometryOf(head), tiles);
      frameChain := frameChain + [Batch(head.tileSize, visible)];
    }

    method DrawEach(g: Geometry, tiles: seq<Tile>, broken: set<Tile>)
      modifies this`shown
      ensures shown == Drawn(old(shown), g, tiles, broken)
    {
      assert tiles[..0] == [];
      assert Drawn(shown, g, tiles[..0], broken) == shown;
      hide Drawn, OnScreen, KeyOf, Stored;
      var i := 0;
      while i < |tiles|
        invariant 0 <= i <= |tiles|
        invariant shown == Drawn(old(shown), g, tiles[..i], broken)
      {
        var t := tiles[i];
        OneMoreDrawn(old(shown), g, tiles, i, broken);
        if (t.codec == 1 || t.codec == 2) && Stored(t) !in broken {
          if OnScreen(g, t.tx, t.ty) {
            shown := shown[KeyOf(t) := Stored(t)];
          }
        }
        i := i + 1;
      }
      assert tiles[..i] == tiles;
    }

    /** The next delta's turn: what can be decoded is drawn, in order, where the canvas has room for it. */
    method DrawTiles(broken: set<Tile>)
      requires frameChain != []
      modifies this`shown, this`frameChain
      ensures Abs() == Draw(old(Abs()), broken)
    {
      var first := frameChain[0];
      frameChain := frameChain[1..];
      DrawEach(Geometry(screenWidth, screenHeight, first.tileSize), first.tiles, broken);
    }
  }

  lemma OneMoreDrawn(base: Tiles, g: Geometry, tiles: seq<Tile>, i: nat, broken: set<Tile>)
    requires i < |tiles|
    ensures var t, before := tiles[i], Drawn(base, g, tiles[..i], broken);
            Drawn(base, g, tiles[..i + 1], broken) ==
              if Decodes(t, broken) && OnScreen(g, t.tx, t.ty) then before[KeyOf(t) := Stored(t)] else before
  {
    var t, some := tiles[i], Decoded(tiles[..i], broken);
    assert tiles[..i + 1][..i] == tiles[..i];
    assert (some + [t])[..|some|] == some;
    KeyPosition(t);
    PaintSnoc(base, OnScreenTiles(g, some), t);
  }
}
