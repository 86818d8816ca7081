/** The relay's tile cache: deltas are folded into it, and a keyframe is made from it for a new watcher. */
module FrameBuffer {
  import opened Bytes
  import opened Ovp
  import opened FrameCodec

  const MAX_WIDTH := 7680
  const MAX_HEIGHT := 4320
  const FRAME_DELTA: uint16 := 3
  const MAX_TILE_COUNT := 65535

  predicate ValidDimensions(w: int, h: int) {
    w > 0 && h > 0 && w <= MAX_WIDTH && h <= MAX_HEIGHT
  }

  /** The position packed into 32 bits: the column above the row. */
  function TileKey(tx: uint16, ty: uint16): uint32 {
    tx * 0x1_0000 + ty
  }

  function KeyOf(t: Tile): uint32 {
    TileKey(t.tx, t.ty)
  }

  lemma TileKeyIsInjective(t: Tile, u: Tile)
    ensures KeyOf(t) == KeyOf(u) <==> t.tx == u.tx && t.ty == u.ty
  {
    assert KeyOf(t) / 0x1_0000 == t.tx && KeyOf(t) % 0x1_0000 == t.ty;
    assert KeyOf(u) / 0x1_0000 == u.tx && KeyOf(u) % 0x1_0000 == u.ty;
  }

  /** A tile as it is cached: its bytes are copied and measured. */
  function Stored(t: Tile): Tile {
    t.(dataLen := |t.data| % 0x1_0000_0000)
  }

  type Tiles = map<uint32, Tile>

  /** Tiles written one over the other, the last one winning. */
  function Paint(base: Tiles, tiles: seq<Tile>): Tiles {
    if tiles == [] then base
    else Paint(base, tiles[..|tiles| - 1])[KeyOf(tiles[|tiles| - 1]) := Stored(tiles[|tiles| - 1])]
  }

  datatype Screen = Screen(seqNo: uint32, profile: uint16, width: uint16, height: uint16, tileSize: uint16, tiles: Tiles)

  const BLANK := Screen(0, 0, 0, 0, 0, map[])

  predicate Usable(fd: FrameDelta) {
    ValidDimensions(fd.width, fd.height) && fd.tileSize != 0
  }

  predicate SameGeometry(s: Screen, fd: FrameDelta) {
    fd.width == s.width && fd.height == s.height && fd.tileSize == s.tileSize
  }

  function Fold(s: Screen, fd: FrameDelta): Screen {
    if !Usable(fd) then s
    else Screen(fd.seqNo, fd.profile, fd.width, fd.height, fd.tileSize,
                Paint(if SameGeometry(s, fd) then s.tiles else map[], fd.tiles))
  }

  // ---------------------------------------------------------------- what the cache holds

  predicate OctetTiles(tiles: seq<Tile>) {
    forall i :: 0 <= i < |tiles| ==> Octets(tiles[i].data)
  }

  ghost predicate Cached(m: Tiles) {
    forall k :: k in m ==> KeyOf(m[k]) == k && m[k].dataLen == |m[k].data| && Octets(m[k].data)
  }

  ghost predicate ScreenInv(s: Screen) {
    && Cached(s.tiles)
    && (s.tiles != map[] ==> ValidDimensions(s.width, s.height) && s.tileSize != 0)
  }

  lemma {:induction false} PaintKeepsCached(base: Tiles, tiles: seq<Tile>)
    requires Cached(base) && Exact(tiles) && OctetTiles(tiles)
    ensures Cached(Paint(base, tiles))
    decreases |tiles|
  {
    if tiles != [] {
      PaintKeepsCached(base, tiles[..|tiles| - 1]);
    }
  }

  /** Whatever was accepted from the wire keeps the cache sound. */
  lemma FoldKeepsInv(s: Screen, data: Blob)
    requires ScreenInv(s) && Octets(data) && Decode(data).Ok?
    ensures ScreenInv(Fold(s, Decode(data).value))
  {
    var fd := Decode(data).value;
    DecodeAcceptsExactly(data, fd);
    EncodedOctets(data, fd);
    PaintKeepsCached(if SameGeometry(s, fd) then s.tiles else map[], fd.tiles);
  }

  lemma EncodedOctets(data: Blob, fd: FrameDelta)
    requires Octets(data) && Encode(fd) <= data
    ensures OctetTiles(fd.tiles)
  {
    var head, body := DeltaHead(fd), EncodeTiles(fd.tiles);
    assert forall i :: 0 <= i < |body| ==> body[i] == data[|head| + i];
    TilesAreOctets(fd.tiles);
  }

  lemma {:induction false} TilesAreOctets(tiles: seq<Tile>)
    ensures Octets(EncodeTiles(tiles)) <==> OctetTiles(tiles)
    decreases |tiles|
  {
    if tiles != [] {
      var n := |tiles| - 1;
      TilesAreOctets(tiles[..n]);
      RecordIsOctets(tiles[n]);
      OctetsConcat(EncodeTiles(tiles[..n]), TileRecord(tiles[n]));
      LastIsOctets(tiles);
    }
  }

  lemma RecordIsOctets(t: Tile)
    ensures Octets(TileRecord(t)) <==> Octets(t.data)
  {
    OctetsConcat(TileHead(t), t.data);
  }

  lemma LastIsOctets(tiles: seq<Tile>)
    requires tiles != []
    ensures OctetTiles(tiles) <==> OctetTiles(tiles[..|tiles| - 1]) && Octets(tiles[|tiles| - 1].data)
  {
    assert forall i :: 0 <= i < |tiles| - 1 ==> tiles[..|tiles| - 1][i] == tiles[i];
  }

  lemma OctetsConcat(a: Blob, b: Blob)
    ensures Octets(a + b) <==> Octets(a) && Octets(b)
  {
    assert forall i :: 0 <= i < |a| ==> (a + b)[i] == a[i];
    assert forall i :: 0 <= i < |b| ==> (a + b)[|a| + i] == b[i];
  }

  // ---------------------------------------------------------------- the keyframe

  predicate DistinctKeys(tiles: seq<Tile>) {
    forall i, j :: 0 <= i < j < |tiles| ==> KeyOf(tiles[i]) != KeyOf(tiles[j])
  }

  function KeySet(tiles: seq<Tile>): set<uint32> {
    if tiles == [] then {} else KeySet(tiles[..|tiles| - 1]) + {KeyOf(tiles[|tiles| - 1])}
  }

  /** Every cached tile once, in some order. */
  predicate Lists(m: Tiles, tiles: seq<Tile>) {
    && DistinctKeys(tiles)
    && KeySet(tiles) == m.Keys
    && (forall i :: 0 <= i < |tiles| ==> KeyOf(tiles[i]) in m && m[KeyOf(tiles[i])] == tiles[i])
  }

  function KeyFrame(s: Screen, now: uint64, tiles: seq<Tile>): FrameDelta {
    FrameDelta(s.seqNo, now, s.profile, s.width, s.height, s.tileSize, |tiles| % 0x1_0000, tiles)
  }

  lemma {:induction false} PaintKeys(base: Tiles, tiles: seq<Tile>)
    ensures Paint(base, tiles).Keys == base.Keys + KeySet(tiles)
    decreases |tiles|
  {
    if tiles != [] {
      PaintKeys(base, tiles[..|tiles| - 1]);
    }
  }

  lemma {:induction false} InKeySet(tiles: seq<Tile>, k: uint32) returns (i: int)
    ensures k in KeySet(tiles) <==> 0 <= i < |tiles|
    ensures k in KeySet(tiles) ==> KeyOf(tiles[i]) == k
    ensures k !in KeySet(tiles) ==> forall j :: 0 <= j < |tiles| ==> KeyOf(tiles[j]) != k
    decreases |tiles|
  {
    i := |tiles| - 1;
    if tiles != [] && KeyOf(tiles[i]) != k {
      var front := tiles[..i];
      var j := InKeySet(front, k);
      assert forall x :: 0 <= x < |front| ==> front[x] == tiles[x];
      i := if k in KeySet(front) then j else -1;
    }
  }

  lemma {:induction false} KeySetSize(tiles: seq<Tile>)
    requires DistinctKeys(tiles)
    ensures |KeySet(tiles)| == |tiles|
    decreases |tiles|
  {
    if tiles != [] {
      var front := tiles[..|tiles| - 1];
      KeySetSize(front);
      var i := InKeySet(front, KeyOf(tiles[|tiles| - 1]));
    }
  }

  lemma {:induction false} PaintValue(base: Tiles, tiles: seq<Tile>, i: nat)
    requires DistinctKeys(tiles) && i < |tiles|
    ensures KeyOf(tiles[i]) in Paint(base, tiles) && Paint(base, tiles)[KeyOf(tiles[i])] == Stored(tiles[i])
    decreases |tiles|
  {
    if i < |tiles| - 1 {
      PaintValue(base, tiles[..|tiles| - 1], i);
    }
  }

  /** The last of the tiles at this position. */
  predicate LastAt(tiles: seq<Tile>, i: nat, k: uint32) {
    i < |tiles| && KeyOf(tiles[i]) == k && forall j :: i < j < |tiles| ==> KeyOf(tiles[j]) != k
  }

  lemma {:induction false} LastIsFound(base: Tiles, tiles: seq<Tile>, i: nat, k: uint32)
    requires LastAt(tiles, i, k)
    ensures k in Paint(base, tiles) && Paint(base, tiles)[k] == Stored(tiles[i])
    decreases |tiles|
  {
    var n := |tiles| - 1;
    hide Stored, KeyOf;
    if i < n {
      assert KeyOf(tiles[n]) != k;
      LastIsFound(base, tiles[..n], i, k);
    }
  }

  lemma {:induction false} OthersStay(base: Tiles, tiles: seq<Tile>, k: uint32)
    requires forall i :: 0 <= i < |tiles| ==> KeyOf(tiles[i]) != k
    ensures k in Paint(base, tiles) <==> k in base
    ensures k in base ==> Paint(base, tiles)[k] == base[k]
    decreases |tiles|
  {
    hide Stored, KeyOf;
    if tiles != [] {
      OthersStay(base, tiles[..|tiles| - 1], k);
    }
  }

  /** At every position the last tile painted there is found, and what was there before where none was. */
  lemma PaintMeans(base: Tiles, tiles: seq<Tile>, k: uint32)
    ensures forall i: nat :: LastAt(tiles, i, k) ==> k in Paint(base, tiles) && Paint(base, tiles)[k] == Stored(tiles[i])
    ensures (forall i :: 0 <= i < |tiles| ==> KeyOf(tiles[i]) != k) ==>
              (k in Paint(base, tiles) <==> k in base) && (k in base ==> Paint(base, tiles)[k] == base[k])
  {
    hide Paint, Stored, KeyOf;
    forall i: nat | LastAt(tiles, i, k)
      ensures k in Paint(base, tiles) && Paint(base, tiles)[k] == Stored(tiles[i])
    {
      LastIsFound(base, tiles, i, k);
    }
    if forall i :: 0 <= i < |tiles| ==> KeyOf(tiles[i]) != k {
      OthersStay(base, tiles, k);
    }
  }

  /**
   What a delta does to the cache: nothing at all if its dimensions are out of range; or else the
   cache takes over its numbers, forgets its tiles if the geometry is another one, and has at every
   position the last of the delta's tiles there.
   */
  lemma FoldMeans(s: Screen, fd: FrameDelta, k: uint32)
    ensures fd.width == 0 || fd.height == 0 || fd.width > 7680 || fd.height > 4320 || fd.tileSize == 0 ==> Fold(s, fd) == s
    ensures 0 < fd.width <= 7680 && 0 < fd.height <= 4320 && fd.tileSize > 0 ==>
              var t := Fold(s, fd);
              && t.seqNo == fd.seqNo && t.profile == fd.profile
              && t.width == fd.width && t.height == fd.height && t.tileSize == fd.tileSize
              && (forall i: nat :: LastAt(fd.tiles, i, k) ==> k in t.tiles && t.tiles[k] == Stored(fd.tiles[i]))
              && ((forall i :: 0 <= i < |fd.tiles| ==> KeyOf(fd.tiles[i]) != k) ==>
                    if fd.width == s.width && fd.height == s.height && fd.tileSize == s.tileSize
                    then (k in t.tiles <==> k in s.tiles) && (k in s.tiles ==> t.tiles[k] == s.tiles[k])
                    else k !in t.tiles)
  {
    PaintMeans(if SameGeometry(s, fd) then s.tiles else map[], fd.tiles, k);
  }

  lemma CachedIsStored(t: Tile)
    requires t.dataLen == |t.data|
    ensures Stored(t) == t
  {
  }

  /** Painting a complete list of the cached tiles onto nothing gives the cache back. */
  lemma PaintOfList(m: Tiles, tiles: seq<Tile>)
    requires Cached(m) && Lists(m, tiles)
    ensures Paint(map[], tiles) == m
  {
    var p := Paint(map[], tiles);
    PaintKeys(map[], tiles);
    forall k | k in m
      ensures p[k] == m[k]
    {
      var i := InKeySet(tiles, k);
      PaintValue(map[], tiles, i);
      CachedIsStored(tiles[i]);
    }
  }

  /** Painting a part of it only does not. */
  lemma PaintOfPart(m: Tiles, tiles: seq<Tile>, n: nat)
    requires Lists(m, tiles) && n < |tiles|
    ensures Paint(map[], tiles[..n]) != m
  {
    KeySetSize(tiles);
    KeySetSize(tiles[..n]);
    PaintKeys(map[], tiles[..n]);
  }

  /**
   What a watcher decodes from the keyframe has the cache's numbers and its tiles, exactly when
   the number of tiles fits the 16-bit count; a cache with more tiles is sent cut short.
   */
  lemma KeyFrameDecodes(s: Screen, now: uint64, tiles: seq<Tile>)
    requires ScreenInv(s) && s.tiles != map[] && Lists(s.tiles, tiles)
    ensures Octets(Encode(KeyFrame(s, now, tiles)))
    ensures var r := Decode(Encode(KeyFrame(s, now, tiles)));
            && r.Ok?
            && Usable(r.value) && SameGeometry(s, r.value)
            && r.value.seqNo == s.seqNo && r.value.tsMs == now && r.value.profile == s.profile
            && r.value.tiles <= tiles && |r.value.tiles| == |s.tiles| % 0x1_0000
            && (Fold(BLANK, r.value).tiles == s.tiles <==> |s.tiles| <= MAX_TILE_COUNT)
  {
    var fd := KeyFrame(s, now, tiles);
    KeySetSize(tiles);
    ListIsSound(s.tiles, tiles);
    DecodesCut(fd);
    CutPaints(s, fd.(tiles := tiles[..fd.tileCount]), tiles);
  }

  lemma FoldOnBlank(fd: FrameDelta)
    requires Usable(fd)
    ensures Fold(BLANK, fd).tiles == Paint(map[], fd.tiles)
  {
  }

  lemma CutListPaints(m: Tiles, tiles: seq<Tile>, n: nat)
    requires Cached(m) && Lists(m, tiles) && n <= |tiles|
    ensures Paint(map[], tiles[..n]) == m <==> n == |tiles|
  {
    if n == |tiles| {
      assert tiles[..n] == tiles;
      PaintOfList(m, tiles);
    } else {
      PaintOfPart(m, tiles, n);
    }
  }

  lemma CutPaints(s: Screen, cut: FrameDelta, tiles: seq<Tile>)
    requires ScreenInv(s) && Lists(s.tiles, tiles) && |s.tiles| == |tiles|
    requires Usable(cut) && cut.tileCount == |tiles| % 0x1_0000 && cut.tiles == tiles[..cut.tileCount]
    ensures Fold(BLANK, cut).tiles == s.tiles <==> |s.tiles| <= MAX_TILE_COUNT
  {
    FoldOnBlank(cut);
    CutListPaints(s.tiles, tiles, cut.tileCount);
    WrappedCount(|tiles|);
  }

  lemma WrappedCount(n: nat)
    ensures n % 0x1_0000 == n <==> n <= MAX_TILE_COUNT
  {
  }

  lemma EncodeIsOctets(fd: FrameDelta)
    requires OctetTiles(fd.tiles)
    ensures Octets(Encode(fd))
  {
    TilesAreOctets(fd.tiles);
    HeadIsOctets(fd);
    OctetsConcat(DeltaHead(fd), EncodeTiles(fd.tiles));
  }

  lemma CutIsPrefix(fd: FrameDelta, n: nat)
    requires n <= |fd.tiles|
    ensures Encode(fd.(tiles := fd.tiles[..n])) <= Encode(fd)
  {
    EncodeTake(fd.tiles, n);
    PrefixBehind(DeltaHead(fd), EncodeTiles(fd.tiles[..n]), EncodeTiles(fd.tiles));
  }

  /** A count that is too small cuts the list of tiles there. */
  lemma DecodesCut(fd: FrameDelta)
    requires fd.tileCount <= |fd.tiles| && Exact(fd.tiles) && OctetTiles(fd.tiles)
    ensures Octets(Encode(fd))
    ensures Decode(Encode(fd)) == Ok(fd.(tiles := fd.tiles[..fd.tileCount]))
  {
    EncodeIsOctets(fd);
    CutIsPrefix(fd, fd.tileCount);
    CutIsConsistent(fd);
    DecodesPrefix(Encode(fd), fd.(tiles := fd.tiles[..fd.tileCount]));
  }

  lemma CutIsConsistent(fd: FrameDelta)
    requires fd.tileCount <= |fd.tiles| && Exact(fd.tiles)
    ensures Consistent(fd.(tiles := fd.tiles[..fd.tileCount]))
  {
  }

  lemma DecodesPrefix(data: Blob, fd: FrameDelta)
    requires Octets(data) && Consistent(fd) && Encode(fd) <= data
    ensures Decode(data) == Ok(fd)
  {
    DecodeAcceptsExactly(data, fd);
  }

  lemma PrefixBehind(a: Blob, b: Blob, c: Blob)
    requires b <= c
    ensures a + b <= a + c
  {
  }

  lemma ListIsSound(m: Tiles, tiles: seq<Tile>)
    requires Cached(m) && Lists(m, tiles)
    ensures Exact(tiles) && OctetTiles(tiles)
  {
  }

  lemma HeadIsOctets(fd: FrameDelta)
    ensures Octets(DeltaHead(fd))
  {
  }

  lemma PrefixOfSum(a: Blob, b: Blob, c: Blob)
    requires a <= b
    ensures a <= b + c
  {
  }

  lemma {:induction false} EncodeTake(tiles: seq<Tile>, n: nat)
    requires n <= |tiles|
    ensures EncodeTiles(tiles[..n]) <= EncodeTiles(tiles)
    decreases |tiles|
  {
    if n == |tiles| {
      assert tiles[..n] == tiles;
    } else {
      var front, t := tiles[..|tiles| - 1], tiles[|tiles| - 1];
      assert EncodeTiles(tiles) == EncodeTiles(front) + TileRecord(t);
      assert front[..n] == tiles[..n];
      hide *;
      EncodeTake(front, n);
      PrefixOfSum(EncodeTiles(tiles[..n]), EncodeTiles(front), TileRecord(t));
    }
  }

  // ---------------------------------------------------------------- the cache as an object

  lemma OneMoreListed(tiles: seq<Tile>, t: Tile)
    requires DistinctKeys(tiles) && KeyOf(t) !in KeySet(tiles)
    ensures DistinctKeys(tiles + [t]) && KeySet(tiles + [t]) == KeySet(tiles) + {KeyOf(t)}
  {
    var i := InKeySet(tiles, KeyOf(t));
    assert (tiles + [t])[..|tiles|] == tiles;
  }

  class FrameBuffer {
    var seqNo: uint32
    var profile: uint16
    var width: uint16
    var height: uint16
    var tileSize: uint16
    var tiles: Tiles

    function Abs(): Screen
      reads this
    {
      Screen(seqNo, profile, width, height, tileSize, tiles)
    }

    constructor ()
      ensures Abs() == BLANK
    {
      seqNo, profile, width, height, tileSize, tiles := 0, 0, 0, 0, 0, map[];
    }

    method Update(fd: FrameDelta)
      modifies this
      ensures Abs() == Fold(old(Abs()), fd)
    {
      if !ValidDimensions(fd.width, fd.height) || fd.tileSize == 0 {
        return;
      }
      if fd.width != width || fd.height != height || fd.tileSize != tileSize {
        tiles := map[];
        width, height, tileSize := fd.width, fd.height, fd.tileSize;
      }
      profile := fd.profile;
      seqNo := fd.seqNo;
      ghost var base := tiles;
      var i := 0;
      while i < |fd.tiles|
        invariant 0 <= i <= |fd.tiles|
        invariant tiles == Paint(base, fd.tiles[..i])
        invariant Abs() == Screen(fd.seqNo, fd.profile, fd.width, fd.height, fd.tileSize, tiles)
      {
        var t := fd.tiles[i];
        assert fd.tiles[..i + 1][..i] == fd.tiles[..i];
        tiles := tiles[TileKey(t.tx, t.ty) := Tile(t.tx, t.ty, t.codec, |t.data| % 0x1_0000_0000, t.data)];
        i := i + 1;
      }
      assert fd.tiles[..i] == fd.tiles;
    }

    /** The cached tiles in whatever order the map gives them. */
    method ListTiles() returns (out: seq<Tile>)
      requires Cached(tiles)
      ensures Lists(tiles, out)
    {
      assert DistinctKeys([]) && KeySet([]) == {};
      hide KeySet, DistinctKeys, KeyOf, Octets;
      out := [];
      var left := tiles.Keys;
      while left != {}
        invariant left <= tiles.Keys && DistinctKeys(out)
        invariant forall k: uint32 :: k in KeySet(out) <==> k in tiles && k !in left
        invariant forall i :: 0 <= i < |out| ==> KeyOf(out[i]) in tiles && tiles[KeyOf(out[i])] == out[i]
        decreases left
      {
        var k :| k in left;
        OneMoreListed(out, tiles[k]);
        out := out + [tiles[k]];
        left := left - {k};
      }
    }

    method FullFrameMessage(now: uint64) returns (msg: Option<Blob>, ghost list: seq<Tile>)
      requires ScreenInv(Abs())
      ensures msg.None? <==> tiles == map[]
      ensures msg.Some? ==> Lists(tiles, list) && msg.value == Message(FRAME_DELTA, Encode(KeyFrame(Abs(), now, list)))
    {
      list := [];
      if |tiles| == 0 || width == 0 {
        return None, list;
      }
      var out := ListTiles();
      list := out;
      KeySetSize(out);
      var fd := FrameDelta(seqNo, now, profile, width, height, tileSize, |tiles| % 0x1_0000, out);
      var payload := EncodeFrameDelta(fd);
      var wire := MarshalMessage(FRAME_DELTA, payload[..]);
      return Some(wire[..]), list;
    }
  }
}
