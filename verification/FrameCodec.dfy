/** FRAME_DELTA payloads: a fixed header and then one record for every changed tile. */
module FrameCodec {
  import opened Bytes
  import opened Ovp

  const DELTA_HEADER_SIZE := 22
  const TILE_HEADER_SIZE := 10

  datatype Tile = Tile(tx: uint16, ty: uint16, codec: uint16, dataLen: uint32, data: Blob)

  datatype FrameDelta = FrameDelta(
    seqNo: uint32, tsMs: uint64, profile: uint16, width: uint16, height: uint16,
    tileSize: uint16, tileCount: uint16, tiles: seq<Tile>)

  /** The declared sizes, and the declared tile count, are the real ones. */
  predicate Exact(tiles: seq<Tile>) {
    forall i :: 0 <= i < |tiles| ==> tiles[i].dataLen == |tiles[i].data|
  }

  predicate Consistent(fd: FrameDelta) {
    fd.tileCount == |fd.tiles| && Exact(fd.tiles)
  }

  // ---------------------------------------------------------------- encoding

  function DeltaHead(fd: FrameDelta): (b: Blob)
    ensures |b| == DELTA_HEADER_SIZE
  {
    Le(fd.seqNo, 4) + Le(fd.tsMs, 8) + Le(fd.profile, 2) + Le(fd.width, 2) + Le(fd.height, 2)
    + Le(fd.tileSize, 2) + Le(fd.tileCount, 2)
  }

  function TileHead(t: Tile): (b: Blob)
    ensures |b| == TILE_HEADER_SIZE
  {
    Le(t.tx, 2) + Le(t.ty, 2) + Le(t.codec, 2) + Le(t.dataLen, 4)
  }

  /** A tile as it is written: its header and its data. */
  function TileRecord(t: Tile): Blob {
    TileHead(t) + t.data
  }

  function EncodeTiles(tiles: seq<Tile>): Blob {
    if tiles == [] then []
    else EncodeTiles(tiles[..|tiles| - 1]) + TileRecord(tiles[|tiles| - 1])
  }

  function Encode(fd: FrameDelta): Blob {
    DeltaHead(fd) + EncodeTiles(fd.tiles)
  }

  method EncodedSize(fd: FrameDelta) returns (size: nat)
    ensures size == |Encode(fd)|
  {
    size := DELTA_HEADER_SIZE;
    var i := 0;
    assert EncodeTiles(fd.tiles[..0]) == [];
    hide EncodeTiles;
    while i < |fd.tiles|
      invariant i <= |fd.tiles|
      invariant size == DELTA_HEADER_SIZE + |EncodeTiles(fd.tiles[..i])|
    {
      EncodedNext(fd.tiles, i);
      size := size + TILE_HEADER_SIZE + |fd.tiles[i].data|;
      i := i + 1;
    }
    assert fd.tiles[..i] == fd.tiles;
  }

  method PutDeltaHead(buf: array<byte>, fd: FrameDelta)
    requires buf.Length >= DELTA_HEADER_SIZE
    modifies buf
    ensures buf[..DELTA_HEADER_SIZE] == DeltaHead(fd)
  {
    Put(buf, 0, 4, fd.seqNo);
    assert buf[..4] == Le(fd.seqNo, 4);
    Put(buf, 4, 8, fd.tsMs);
    Put(buf, 12, 2, fd.profile);
    Put(buf, 14, 2, fd.width);
    Put(buf, 16, 2, fd.height);
    Put(buf, 18, 2, fd.tileSize);
    Put(buf, 20, 2, fd.tileCount);
  }

  method PutTile(buf: array<byte>, start: nat, t: Tile) returns (off: nat)
    requires start + TILE_HEADER_SIZE + |t.data| <= buf.Length
    modifies buf
    ensures off == start + TILE_HEADER_SIZE + |t.data|
    ensures buf[..off] == old(buf[..start]) + TileRecord(t)
  {
    off := start;
    Put(buf, off, 2, t.tx);
    off := off + 2;
    Put(buf, off, 2, t.ty);
    off := off + 2;
    Put(buf, off, 2, t.codec);
    off := off + 2;
    Put(buf, off, 4, t.dataLen);
    off := off + 4;
    Copy(buf, off, t.data);
    off := off + |t.data|;
    Assoc5(old(buf[..start]), Le(t.tx, 2), Le(t.ty, 2), Le(t.codec, 2), Le(t.dataLen, 4), t.data);
  }

  lemma Assoc5(s: Blob, a: Blob, b: Blob, c: Blob, d: Blob, e: Blob)
    ensures s + a + b + c + d + e == s + (a + b + c + d + e)
  {
  }

  lemma EncodedNext(tiles: seq<Tile>, i: nat)
    requires i < |tiles|
    ensures EncodeTiles(tiles[..i + 1]) == EncodeTiles(tiles[..i]) + TileRecord(tiles[i])
  {
    assert tiles[..i + 1][..i] == tiles[..i];
  }

  /** A growing prefix of the encoding is one of the whole. */
  lemma {:induction false} EncodedPrefix(tiles: seq<Tile>, i: nat)
    requires i <= |tiles|
    ensures |EncodeTiles(tiles[..i])| <= |EncodeTiles(tiles)|
    decreases |tiles| - i
  {
    if i == |tiles| {
      assert tiles[..i] == tiles;
    } else {
      EncodedPrefix(tiles, i + 1);
      EncodedNext(tiles, i);
    }
  }

  lemma RecordFits(tiles: seq<Tile>, i: nat, before: Blob)
    requires i < |tiles|
    ensures |EncodeTiles(tiles[..i])| + TILE_HEADER_SIZE + |tiles[i].data| == |EncodeTiles(tiles[..i + 1])| <= |EncodeTiles(tiles)|
    ensures before + EncodeTiles(tiles[..i + 1]) == before + EncodeTiles(tiles[..i]) + TileRecord(tiles[i])
  {
    EncodedNext(tiles, i);
    EncodedPrefix(tiles, i + 1);
    Assoc(before, EncodeTiles(tiles[..i]), TileRecord(tiles[i]));
  }

  /** The records of all tiles, behind what `buf` holds up to `start`. */
  method PutTiles(buf: array<byte>, start: nat, tiles: seq<Tile>) returns (off: nat)
    requires start + |EncodeTiles(tiles)| == buf.Length
    modifies buf
    ensures off == buf.Length
    ensures buf[..] == old(buf[..start]) + EncodeTiles(tiles)
  {
    assert tiles[..0] == [];
    assert EncodeTiles(tiles[..0]) == [];
    hide EncodeTiles, TileHead;
    off := start;
    var i := 0;
    while i < |tiles|
      invariant 0 <= i <= |tiles|
      invariant off == start + |EncodeTiles(tiles[..i])| <= buf.Length
      invariant buf[..off] == old(buf[..start]) + EncodeTiles(tiles[..i])
    {
      RecordFits(tiles, i, old(buf[..start]));
      off := PutTile(buf, off, tiles[i]);
      i := i + 1;
    }
    assert tiles[..i] == tiles;
    assert buf[..off] == buf[..];
  }

  method EncodeFrameDelta(fd: FrameDelta) returns (buf: array<byte>)
    ensures fresh(buf) && buf[..] == Encode(fd)
  {
    var size := EncodedSize(fd);
    buf := new byte[size];
    PutDeltaHead(buf, fd);
    var off := PutTiles(buf, DELTA_HEADER_SIZE, fd.tiles);
  }

  // ---------------------------------------------------------------- decoding

  function DecodeHead(data: Blob): FrameDelta
    requires Octets(data) && |data| >= DELTA_HEADER_SIZE
  {
    FrameDelta(Uint32(data, 0), Uint64(data, 4), Uint16(data, 12), Uint16(data, 14), Uint16(data, 16),
               Uint16(data, 18), Uint16(data, 20), [])
  }

  function TileAt(data: Blob, off: nat): Tile
    requires Octets(data) && off + TILE_HEADER_SIZE <= |data|
  {
    Tile(Uint16(data, off), Uint16(data, off + 2), Uint16(data, off + 4), Uint32(data, off + 6), [])
  }

  /** Where the fields of a delta's header are. */
  lemma DeltaLayout(data: Blob)
    requires Octets(data) && |data| >= 22
    ensures var h := DecodeHead(data);
            && h.seqNo == Uint32(data, 0) == data[0] + 0x100 * data[1] + 0x1_0000 * data[2] + 0x100_0000 * data[3]
            && h.tsMs == Uint32(data, 4) + 0x1_0000_0000 * Uint32(data, 8)
            && h.profile == data[12] + 256 * data[13]
            && h.width == data[14] + 256 * data[15]
            && h.height == data[16] + 256 * data[17]
            && h.tileSize == data[18] + 256 * data[19]
            && h.tileCount == data[20] + 256 * data[21]
  {
    Uint32Bytes(data, 0);
    Uint64Bytes(data, 4);
    Uint16Bytes(data, 12);
    Uint16Bytes(data, 14);
    Uint16Bytes(data, 16);
    Uint16Bytes(data, 18);
    Uint16Bytes(data, 20);
  }

  /** Where the fields of a tile's header are. */
  lemma TileLayout(data: Blob, off: nat)
    requires Octets(data) && off + 10 <= |data|
    ensures var t := TileAt(data, off);
            && t.tx == data[off] + 256 * data[off + 1]
            && t.ty == data[off + 2] + 256 * data[off + 3]
            && t.codec == data[off + 4] + 256 * data[off + 5]
            && t.dataLen == data[off + 6] + 0x100 * data[off + 7] + 0x1_0000 * data[off + 8] + 0x100_0000 * data[off + 9]
  {
    Uint16Bytes(data, off);
    Uint16Bytes(data, off + 2);
    Uint16Bytes(data, off + 4);
    Uint32Bytes(data, off + 6);
  }

  /** The tiles decoded so far and where the next one begins. */
  datatype Walk = Walk(tiles: seq<Tile>, off: nat)

  /** The first `count` tile records behind the header. */
  function DecodeTiles(data: Blob, count: nat): (r: Result<Walk>)
    requires Octets(data) && |data| >= DELTA_HEADER_SIZE
    ensures r.Ok? ==> |r.value.tiles| == count && DELTA_HEADER_SIZE <= r.value.off <= |data|
  {
    if count == 0 then Ok(Walk([], DELTA_HEADER_SIZE))
    else
      var w := DecodeTiles(data, count - 1);
      if w.Err? then w else DecodeNext(data, w.value)
  }

  function DecodeNext(data: Blob, w: Walk): (r: Result<Walk>)
    requires Octets(data) && w.off <= |data|
    ensures r.Ok? ==> |r.value.tiles| == |w.tiles| + 1 && w.off <= r.value.off <= |data|
  {
    if w.off + TILE_HEADER_SIZE > |data| then Err(TruncatedTileHeader(|w.tiles|))
    else
      var t := TileAt(data, w.off);
      var start := w.off + TILE_HEADER_SIZE;
      if start + t.dataLen > |data| then Err(TruncatedTileData(|w.tiles|))
      else Ok(Walk(w.tiles + [t.(data := data[start..start + t.dataLen])], start + t.dataLen))
  }

  function Decode(data: Blob): (r: Result<FrameDelta>)
    requires Octets(data)
  {
    if |data| < DELTA_HEADER_SIZE then Err(DeltaTooShort)
    else
      var head := DecodeHead(data);
      var w := DecodeTiles(data, head.tileCount);
      if w.Err? then Err(w.error) else Ok(head.(tiles := w.value.tiles))
  }

  /** Once a tile is cut off, no later count of tiles can be decoded either. */
  lemma {:induction false} TruncationIsFinal(data: Blob, i: nat, count: nat)
    requires Octets(data) && |data| >= DELTA_HEADER_SIZE && i <= count
    requires DecodeTiles(data, i).Err?
    ensures DecodeTiles(data, count) == DecodeTiles(data, i)
    decreases count
  {
    hide DecodeNext, Octets;
    if i < count {
      TruncationIsFinal(data, i, count - 1);
    }
  }

  /** What comes of the record at this position does not depend on the tiles before it, but for their number. */
  lemma NextIs(data: Blob, tiles: seq<Tile>, start: nat)
    requires Octets(data) && start <= |data|
    ensures start + TILE_HEADER_SIZE > |data| ==> DecodeNext(data, Walk(tiles, start)) == Err(TruncatedTileHeader(|tiles|))
    ensures start + TILE_HEADER_SIZE <= |data| ==>
              var t, off := TileAt(data, start), start + TILE_HEADER_SIZE;
              DecodeNext(data, Walk(tiles, start)) ==
                if off + t.dataLen > |data| then Err(TruncatedTileData(|tiles|))
                else Ok(Walk(tiles + [t.(data := data[off..off + t.dataLen])], off + t.dataLen))
  {
    hide Octets, TileAt;
  }

  method ReadTile(data: Blob, i: nat, start: nat) returns (r: Result<Tile>, off: nat)
    requires Octets(data) && start <= |data|
    ensures forall tiles: seq<Tile> :: |tiles| == i ==>
              DecodeNext(data, Walk(tiles, start)) == if r.Err? then Err(r.error) else Ok(Walk(tiles + [r.value], off))
  {
    hide Octets, TileAt, DecodeNext;
    forall tiles: seq<Tile> | |tiles| == i
      ensures start + TILE_HEADER_SIZE > |data| ==> DecodeNext(data, Walk(tiles, start)) == Err(TruncatedTileHeader(i))
      ensures start + TILE_HEADER_SIZE <= |data| ==>
                var t, at := TileAt(data, start), start + TILE_HEADER_SIZE;
                DecodeNext(data, Walk(tiles, start)) ==
                  if at + t.dataLen > |data| then Err(TruncatedTileData(i))
                  else Ok(Walk(tiles + [t.(data := data[at..at + t.dataLen])], at + t.dataLen))
    {
      NextIs(data, tiles, start);
    }
    off := start;
    if off + TILE_HEADER_SIZE > |data| {
      return Err(TruncatedTileHeader(i)), off;
    }
    var t := TileAt(data, off);
    off := off + TILE_HEADER_SIZE;
    if off + t.dataLen > |data| {
      return Err(TruncatedTileData(i)), off;
    }
    r := Ok(t.(data := data[off..off + t.dataLen]));
    off := off + t.dataLen;
  }

  method DecodeFrameDelta(data: Blob) returns (r: Result<FrameDelta>)
    requires Octets(data)
    ensures r == Decode(data)
  {
    hide DecodeNext, DecodeHead, Octets;
    if |data| < DELTA_HEADER_SIZE {
      return Err(DeltaTooShort);
    }
    var fd := DecodeHead(data);
    var off, tiles := DELTA_HEADER_SIZE, [];
    var i := 0;
    while i < fd.tileCount
      invariant 0 <= i <= fd.tileCount && DELTA_HEADER_SIZE <= off <= |data|
      invariant DecodeTiles(data, i) == Ok(Walk(tiles, off))
    {
      var t, next := ReadTile(data, i, off);
      assert DecodeTiles(data, i + 1) == DecodeNext(data, Walk(tiles, off));
      if t.Err? {
        TruncationIsFinal(data, i + 1, fd.tileCount);
        return Err(t.error);
      }
      tiles, off := tiles + [t.value], next;
      i := i + 1;
    }
    return Ok(fd.(tiles := tiles));
  }

  // ---------------------------------------------------------------- one is the inverse of the other

  lemma AtSplit7(data: Blob, a: Blob, b: Blob, c: Blob, d: Blob, e: Blob, f: Blob, g: Blob)
    requires |a| == 4 && |b| == 8 && |c| == |d| == |e| == |f| == |g| == 2
    ensures At(data, 0, a + b + c + d + e + f + g) <==>
            && At(data, 0, a) && At(data, 4, b) && At(data, 12, c) && At(data, 14, d)
            && At(data, 16, e) && At(data, 18, f) && At(data, 20, g)
  {
    AtSplit(data, 0, a + b + c + d + e + f, g);
    AtSplit(data, 0, a + b + c + d + e, f);
    AtSplit(data, 0, a + b + c + d, e);
    AtSplit(data, 0, a + b + c, d);
    AtSplit(data, 0, a + b, c);
    AtSplit(data, 0, a, b);
  }

  lemma DeltaHeadAt(data: Blob, fd: FrameDelta)
    requires Octets(data) && |data| >= DELTA_HEADER_SIZE
    ensures DecodeHead(data) == fd.(tiles := []) <==> At(data, 0, DeltaHead(fd))
  {
    AtSplit7(data, Le(fd.seqNo, 4), Le(fd.tsMs, 8), Le(fd.profile, 2), Le(fd.width, 2),
             Le(fd.height, 2), Le(fd.tileSize, 2), Le(fd.tileCount, 2));
    Uint32At(data, 0, fd.seqNo);
    Uint64At(data, 4, fd.tsMs);
    Uint16At(data, 12, fd.profile);
    Uint16At(data, 14, fd.width);
    Uint16At(data, 16, fd.height);
    Uint16At(data, 18, fd.tileSize);
    Uint16At(data, 20, fd.tileCount);
  }

  lemma TileHeadAt(data: Blob, off: nat, t: Tile)
    requires Octets(data) && off + TILE_HEADER_SIZE <= |data|
    ensures TileAt(data, off) == t.(data := []) <==> At(data, off, TileHead(t))
  {
    var a, b, c, d := Le(t.tx, 2), Le(t.ty, 2), Le(t.codec, 2), Le(t.dataLen, 4);
    AtSplit(data, off, a + b + c, d);
    AtSplit(data, off, a + b, c);
    AtSplit(data, off, a, b);
    Uint16At(data, off, t.tx);
    Uint16At(data, off + 2, t.ty);
    Uint16At(data, off + 4, t.codec);
    Uint32At(data, off + 6, t.dataLen);
  }

  /** Whether a tile's header and all of its data are there. */
  predicate Fits(data: Blob, off: nat)
    requires Octets(data)
  {
    off + TILE_HEADER_SIZE <= |data| && off + TILE_HEADER_SIZE + TileAt(data, off).dataLen <= |data|
  }

  function WholeTile(data: Blob, off: nat): Tile
    requires Octets(data) && Fits(data, off)
  {
    var u, start := TileAt(data, off), off + TILE_HEADER_SIZE;
    u.(data := data[start..start + u.dataLen])
  }

  /** The record of this tile is there exactly if it is what is read there. */
  lemma WholeTileIs(data: Blob, off: nat, t: Tile)
    requires Octets(data) && off <= |data|
    ensures t.dataLen == |t.data| && At(data, off, TileRecord(t)) <==> Fits(data, off) && WholeTile(data, off) == t
  {
    hide Octets, TileAt, TileRecord, At;
    RecordAt(data, off, t);
    if off + TILE_HEADER_SIZE <= |data| {
      HeadIsBare(data, off);
      DataAt(data, off + TILE_HEADER_SIZE, TileAt(data, off), t);
    }
  }

  lemma NextIsWhole(data: Blob, w: Walk)
    requires Octets(data) && w.off <= |data|
    ensures DecodeNext(data, w).Ok? <==> Fits(data, w.off)
    ensures Fits(data, w.off) ==>
              DecodeNext(data, w).value.tiles == w.tiles + [WholeTile(data, w.off)]
              && DecodeNext(data, w).value.off == w.off + TILE_HEADER_SIZE + TileAt(data, w.off).dataLen
  {
    hide Octets, TileAt;
  }

  lemma NextTileAt(data: Blob, w: Walk, t: Tile)
    requires Octets(data) && w.off <= |data|
    ensures (DecodeNext(data, w).Ok? && DecodeNext(data, w).value.tiles == w.tiles + [t]) <==>
            (t.dataLen == |t.data| && At(data, w.off, TileRecord(t)))
    ensures DecodeNext(data, w).Ok? && DecodeNext(data, w).value.tiles == w.tiles + [t] ==>
              DecodeNext(data, w).value.off == w.off + TILE_HEADER_SIZE + |t.data|
  {
    assert Fits(data, w.off) ==> WholeTile(data, w.off).dataLen == TileAt(data, w.off).dataLen;
    hide *;
    WholeTileIs(data, w.off, t);
    NextIsWhole(data, w);
    if Fits(data, w.off) {
      SameLast(w.tiles, WholeTile(data, w.off), t);
    }
  }

  lemma HeadIsBare(data: Blob, off: nat)
    requires Octets(data) && off + TILE_HEADER_SIZE <= |data|
    ensures TileAt(data, off).data == []
  {
  }

  /** The data behind a header make it this tile. */
  lemma DataAt(data: Blob, start: nat, u: Tile, t: Tile)
    requires u.data == [] && start <= |data|
    ensures start + u.dataLen <= |data| ==>
              (u.(data := data[start..start + u.dataLen]) == t <==> u == t.(data := []) && t.dataLen == |t.data| && At(data, start, t.data))
    ensures At(data, start, t.data) ==> start + |t.data| <= |data|
  {
  }

  /** A whole tile record, header and data. */
  lemma RecordAt(data: Blob, off: nat, t: Tile)
    requires Octets(data) && off <= |data|
    ensures At(data, off, TileRecord(t)) <==>
            && off + TILE_HEADER_SIZE <= |data|
            && TileAt(data, off) == t.(data := [])
            && At(data, off + TILE_HEADER_SIZE, t.data)
  {
    AtSplit(data, off, TileHead(t), t.data);
    if off + TILE_HEADER_SIZE <= |data| {
      TileHeadAt(data, off, t);
    }
  }

  lemma SameLast(front: seq<Tile>, t: Tile, u: Tile)
    ensures front + [t] == front + [u] <==> t == u
  {
    assert (front + [t])[|front|] == t && (front + [u])[|front|] == u;
  }

  /** Decoding `count` tiles yields just these. */
  predicate Yields(data: Blob, count: nat, tiles: seq<Tile>)
    requires Octets(data) && |data| >= DELTA_HEADER_SIZE
  {
    DecodeTiles(data, count).Ok? && DecodeTiles(data, count).value.tiles == tiles
  }

  /** Where the next tile is read once these have been. */
  function Behind(tiles: seq<Tile>): nat {
    DELTA_HEADER_SIZE + |EncodeTiles(tiles)|
  }

  lemma YieldsOneMore(data: Blob, front: seq<Tile>, t: Tile)
    requires Octets(data) && |data| >= DELTA_HEADER_SIZE
    requires Yields(data, |front|, front) ==> DecodeTiles(data, |front|).value.off == Behind(front)
    ensures Yields(data, |front| + 1, front + [t]) <==>
            Yields(data, |front|, front) && t.dataLen == |t.data| && At(data, Behind(front), TileRecord(t))
    ensures Yields(data, |front| + 1, front + [t]) ==>
              DecodeTiles(data, |front| + 1).value.off == Behind(front) + TILE_HEADER_SIZE + |t.data|
  {
    var w := DecodeTiles(data, |front|);
    if w.Ok? {
      if w.value.tiles == front {
        NextTileAt(data, w.value, t);
      } else if DecodeNext(data, w.value).Ok? {
        var all := DecodeNext(data, w.value).value.tiles;
        assert all[..|front|] == w.value.tiles && (front + [t])[..|front|] == front;
      }
    }
  }

  lemma EncodeSnoc(front: seq<Tile>, t: Tile)
    ensures EncodeTiles(front + [t]) == EncodeTiles(front) + TileRecord(t)
  {
    var tiles := front + [t];
    assert tiles[..|front|] == front && tiles[|front|] == t;
  }

  lemma ExactSnoc(front: seq<Tile>, t: Tile)
    ensures Exact(front + [t]) <==> Exact(front) && t.dataLen == |t.data|
  {
    var tiles := front + [t];
    assert tiles[|front|] == t;
    assert forall i :: 0 <= i < |front| ==> tiles[i] == front[i];
  }

  lemma {:induction false} TilesAt(data: Blob, tiles: seq<Tile>)
    requires Octets(data) && |data| >= DELTA_HEADER_SIZE
    ensures Yields(data, |tiles|, tiles) <==> Exact(tiles) && At(data, DELTA_HEADER_SIZE, EncodeTiles(tiles))
    ensures Yields(data, |tiles|, tiles) ==> DecodeTiles(data, |tiles|).value.off == Behind(tiles)
    decreases |tiles|
  {
    if tiles != [] {
      var front, t := tiles[..|tiles| - 1], tiles[|tiles| - 1];
      assert tiles == front + [t];
      TilesAt(data, front);
      TilesStep(data, front, t);
    }
  }

  lemma TilesStep(data: Blob, front: seq<Tile>, t: Tile)
    requires Octets(data) && |data| >= DELTA_HEADER_SIZE
    requires Yields(data, |front|, front) <==> Exact(front) && At(data, DELTA_HEADER_SIZE, EncodeTiles(front))
    requires Yields(data, |front|, front) ==> DecodeTiles(data, |front|).value.off == Behind(front)
    ensures Yields(data, |front| + 1, front + [t]) <==>
            Exact(front + [t]) && At(data, DELTA_HEADER_SIZE, EncodeTiles(front + [t]))
    ensures Yields(data, |front| + 1, front + [t]) ==>
              DecodeTiles(data, |front| + 1).value.off == Behind(front + [t])
  {
    var more := Yields(data, |front| + 1, front + [t]);
    assert more <==> Exact(front + [t]) && At(data, DELTA_HEADER_SIZE, EncodeTiles(front)) &&
                     At(data, Behind(front), TileRecord(t)) by {
      YieldsOneMore(data, front, t);
      ExactSnoc(front, t);
    }
    EncodedBehind(data, front, t);
    assert more ==> DecodeTiles(data, |front| + 1).value.off == Behind(front + [t]) by {
      YieldsOneMore(data, front, t);
      EncodeSnoc(front, t);
    }
  }

  lemma EncodedBehind(data: Blob, front: seq<Tile>, t: Tile)
    ensures At(data, DELTA_HEADER_SIZE, EncodeTiles(front + [t])) <==>
            At(data, DELTA_HEADER_SIZE, EncodeTiles(front)) && At(data, Behind(front), TileRecord(t))
  {
    assert Behind(front) == DELTA_HEADER_SIZE + |EncodeTiles(front)|;
    hide *;
    EncodeSnoc(front, t);
    BehindSplit(data, EncodeTiles(front), TileRecord(t), EncodeTiles(front + [t]));
  }

  lemma BehindSplit(data: Blob, e: Blob, r: Blob, both: Blob)
    requires both == e + r
    ensures At(data, DELTA_HEADER_SIZE, both) <==>
            At(data, DELTA_HEADER_SIZE, e) && At(data, DELTA_HEADER_SIZE + |e|, r)
  {
    AtSplit(data, DELTA_HEADER_SIZE, e, r);
  }

  /**
   A payload decodes to a delta exactly when that delta's counts are right and its
   encoding is what the payload begins with. Whatever is accepted therefore re-encodes
   to a prefix of itself, and everything else is refused.
   */
  lemma DecodeAcceptsExactly(data: Blob, fd: FrameDelta)
    requires Octets(data)
    ensures Decode(data) == Ok(fd) <==> Consistent(fd) && Encode(fd) <= data
  {
    if |data| < DELTA_HEADER_SIZE {
      assert |Encode(fd)| >= DELTA_HEADER_SIZE;
    } else {
      DeltaHeadAt(data, fd);
      TilesAt(data, fd.tiles);
      EncodedAt(data, fd);
    }
  }

  lemma EncodedAt(data: Blob, fd: FrameDelta)
    ensures Encode(fd) <= data <==> At(data, 0, DeltaHead(fd)) && At(data, DELTA_HEADER_SIZE, EncodeTiles(fd.tiles))
  {
    AtSplit(data, 0, DeltaHead(fd), EncodeTiles(fd.tiles));
  }

  /** The round trip returns the delta exactly when its counts were right. */
  lemma RoundTrip(fd: FrameDelta)
    requires Octets(Encode(fd))
    ensures Decode(Encode(fd)) == Ok(fd) <==> Consistent(fd)
  {
    DecodeAcceptsExactly(Encode(fd), fd);
  }
}
