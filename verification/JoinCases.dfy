/** Where a watcher does not agree with the relay: what is lost or read differently, and what is drawn late. */
module JoinCases {
  import opened Bytes
  import opened Ovp
  import opened FrameCodec
  import opened FrameBuffer
  import opened Viewer
  import opened LateJoin
  import opened JoinProtocol
  import opened JoinProgress

  lemma AheadIs(s: Sys)
    ensures Ahead(s) == s.queue + InFlight(s)
  {
  }

  lemma FullStep(s: Sys)
    requires s.phase == Pumping && s.inHand.Some? && |s.queue| == s.capacity
    ensures var t := Step(s, FanOut);
            && t.queue == Push(s.queue, s.inHand.value, s.capacity) && InFlight(t) == InFlight(s.(inHand := None))
            && t.drops == s.drops + 1 && t.since == Ahead(t) && t.base == t.watcher.atOnce
  {
    hide Push;
  }

  /** A full queue loses the message that the watcher would have seen next. */
  lemma DropLosesTheNext(ts: uint16, s: Sys)
    requires Inv(ts, s) && s.phase == Pumping && s.inHand.Some? && |s.queue| == s.capacity
    ensures Ahead(s) != []
    ensures var t := Step(s, FanOut);
            Ahead(t) == Ahead(s)[1..] && t.drops == s.drops + 1 && t.since == Ahead(t) && t.base == t.watcher.atOnce
  {
    var m, rest := s.inHand.value, s.broadcast + Held(s.pending);
    assert Core(ts, s);
    FullStep(s);
    hide *;
    CoreParts(ts, s);
    FanOutAhead(s);
    AheadIs(s);
    AheadIs(Step(s, FanOut));
    FanOutAhead(s);
    FanOutDrops(ts, s.queue, m, rest, s.capacity);
    assert Ahead(s) == s.queue + ([m] + rest);
  }

  // ---------------------------------------------------------------- frames that relay and watcher read differently

  /** What the relay makes of a message. */
  function FoldedIn(m: Message): Option<FrameDelta> {
    if m.Frame? && Octets(m.payload) && Decode(m.payload).Ok? && Usable(Decode(m.payload).value)
    then Some(Decode(m.payload).value) else None
  }

  function WatchAtOnce(v: View, m: Message): View {
    if SeenIn(m).None? then v else Show(v, SeenIn(m).value)
  }

  /**
   Any message that relay and watcher do not both read: exactly when it leaves them in
   agreement. A frame whose header covers less than its payload can be read by both, and
   differently; ShortHeaderDiverges is such a case.
   */
  lemma MisreadAgreesIff(s: Screen, v: View, m: Message)
    requires Agree(s, v) && (FoldedIn(m).None? || SeenIn(m).None?)
    ensures Agree(RelayFold(s, m), WatchAtOnce(v, m)) <==>
              if SeenIn(m).Some? then
                var fd := SeenIn(m).value;
                var tiles := OnScreenTiles(GeometryOf(fd), fd.tiles);
                if SameSize(v, fd) then Repaints(v.shown, tiles) else tiles == [] && v.shown == map[] && s.tiles == map[]
              else if FoldedIn(m).Some? then
                var fd := FoldedIn(m).value;
                var tiles := OnScreenTiles(GeometryOf(fd), fd.tiles);
                && Repaints(v.shown, tiles)
                && (SameGeometry(s, fd) || v.shown.Keys <= KeySet(tiles))
                && (SameSize(v, fd) || fd.tiles == [])
              else true
  {
    if SeenIn(m).Some? {
      UnfoldedAgreesIff(s, v, SeenIn(m).value);
    } else if FoldedIn(m).Some? {
      LostAgreesIff(s, v, FoldedIn(m).value);
    }
  }

  /** The encoding of a delta with one tile, whatever number of tiles it declares. */
  lemma OneTileEncoded(fd: FrameDelta, t: Tile)
    requires fd.tiles == [t] && t.data == [] && t.dataLen == 0
    ensures var payload := Encode(fd);
            && Octets(payload) && |payload| == DELTA_HEADER_SIZE + TILE_HEADER_SIZE
            && DecodeHead(payload) == fd.(tiles := [])
            && Yields(payload, 1, [t]) && Behind([t]) == |payload|
            && payload[..DELTA_HEADER_SIZE] == DeltaHead(fd)
  {
    var payload := Encode(fd);
    EncodeIsOctets(fd);
    assert [t][..0] == [];
    assert EncodeTiles([t]) == [] + TileRecord(t) == TileHead(t) + [] == TileHead(t);
    EncodedAt(payload, fd);
    DeltaHeadAt(payload, fd);
    TilesAt(payload, [t]);
  }

  /** A delta cut off within its second tile: the relay refuses it, the watcher reads the first. */
  lemma TruncatedIsMisread(fd: FrameDelta, t: Tile)
    requires fd.tiles == [t] && t.data == [] && t.dataLen == 0 && fd.tileCount == 2
    ensures var m := KeyMessage(Encode(fd)); FoldedIn(m) == None && SeenIn(m) == Some(fd)
  {
    hide Encode, Octets, Behind, DecodeHead, Yields, Seen, Decode;
    OneTileEncoded(fd, t);
    var payload := Encode(fd);
    SeenUntilCut(payload, fd.(tiles := []), [t]);
    WholeSlice(payload);
  }

  /** A header that declares less than the payload has: the relay reads the tile, the watcher none. */
  lemma ShortHeaderIsMisread(fd: FrameDelta, t: Tile)
    requires fd.tiles == [t] && t.data == [] && t.dataLen == 0 && fd.tileCount == 1 && Usable(fd)
    ensures var m := Frame(DELTA_HEADER_SIZE, Encode(fd)); FoldedIn(m) == Some(fd) && SeenIn(m) == Some(fd.(tiles := []))
  {
    assert Consistent(fd);
    hide Encode, Octets, Decode, Seen, SeenIn, DecodeHead, Yields, Behind;
    OneTileEncoded(fd, t);
    DecodeAcceptsExactly(Encode(fd), fd);
    WholeSlice(Encode(fd));
    HeaderIsSeen(fd, Encode(fd));
  }

  lemma HeaderIsSeen(fd: FrameDelta, payload: Blob)
    requires Octets(payload) && |payload| >= DELTA_HEADER_SIZE && payload[..DELTA_HEADER_SIZE] == DeltaHead(fd)
    requires fd.tileCount == 1
    ensures SeenIn(Frame(DELTA_HEADER_SIZE, payload)) == Some(fd.(tiles := []))
  {
    hide DeltaHead, Seen, DecodeHead, Yields;
    HeaderAlone(fd, payload[..DELTA_HEADER_SIZE]);
  }

  lemma HeaderAlone(fd: FrameDelta, part: Blob)
    requires part == DeltaHead(fd) && fd.tileCount == 1
    ensures Octets(part) && Seen(part) == Some(fd.(tiles := []))
  {
    HeadIsOctets(fd);
    DeltaHeadAt(part, fd);
    assert EncodeTiles([]) == [];
    SeenUntilCut(part, fd.(tiles := []), []);
  }

  /** A tile on an empty screen. */
  lemma OneTileShown(fd: FrameDelta, t: Tile)
    requires fd.tiles == [t] && t.dataLen == |t.data| && Usable(fd) && KeyOnScreen(GeometryOf(fd), KeyOf(t))
    ensures Agree(Fold(BLANK, fd), Show(NO_VIEW, fd))
    ensures Show(NO_VIEW, fd).shown == map[KeyOf(t) := t] && Fold(BLANK, fd).tiles == map[KeyOf(t) := t]
    ensures OnScreenTiles(GeometryOf(fd), fd.tiles) == [t] && KeySet([t]) == {KeyOf(t)} && Latest([t], KeyOf(t)) == Some(t)
  {
    assert Visible(CacheGeometry(BLANK), map[]) == map[];
    DeltaKeepsAgreementIff(BLANK, NO_VIEW, fd);
    OneTileOnly(GeometryOf(fd), t);
  }

  lemma OneTileOnly(g: Geometry, t: Tile)
    requires t.dataLen == |t.data|
    ensures OnScreenTiles(g, [t]) == if KeyOnScreen(g, KeyOf(t)) then [t] else []
    ensures Paint(map[], [t]) == map[KeyOf(t) := t] && KeySet([t]) == {KeyOf(t)} && Latest([t], KeyOf(t)) == Some(t)
  {
    hide KeyOnScreen, KeyOf, Stored;
    CachedIsStored(t);
    OneTileVisible(g, t);
    OneTilePainted(t);
  }

  lemma OneTileVisible(g: Geometry, t: Tile)
    ensures OnScreenTiles(g, [t]) == if KeyOnScreen(g, KeyOf(t)) then [t] else []
  {
    hide KeyOnScreen, KeyOf;
    assert [t][..0] == [];
  }

  lemma OneTilePainted(t: Tile)
    ensures Paint(map[], [t]) == map[KeyOf(t) := Stored(t)] && KeySet([t]) == {KeyOf(t)} && Latest([t], KeyOf(t)) == Some(Stored(t))
  {
    hide KeyOf, Stored;
    assert [t][..0] == [];
    assert {} + {KeyOf(t)} == {KeyOf(t)};
  }

  predicate EmptyTile(fd: FrameDelta, t: Tile) {
    fd.tiles == [t] && t.data == [] && t.dataLen == 0 && Usable(fd) && KeyOnScreen(GeometryOf(fd), KeyOf(t))
  }

  /** A delta cut off within its second tile, whose first is new to the screen. */
  lemma TruncatedDeltaDiverges(fd: FrameDelta, t: Tile, cut: FrameDelta, u: Tile)
    requires EmptyTile(fd, t) && EmptyTile(cut, u) && GeometryOf(fd) == GeometryOf(cut) && KeyOf(t) != KeyOf(u)
    requires cut.tileCount == 2
    ensures var s, v, m := Fold(BLANK, fd), Show(NO_VIEW, fd), KeyMessage(Encode(cut));
            Agree(s, v) && FoldedIn(m).None? && SeenIn(m).Some? && !Agree(RelayFold(s, m), WatchAtOnce(v, m))
  {
    hide Encode, KeyMessage, KeyOnScreen;
    OneTileShown(fd, t);
    OneTileShown(cut, u);
    TruncatedIsMisread(cut, u);
    MisreadAgreesIff(Fold(BLANK, fd), Show(NO_VIEW, fd), KeyMessage(Encode(cut)));
    assert KeyOf(u) in KeySet([u]) && Lookup(Show(NO_VIEW, fd).shown, KeyOf(u)) == None;
  }

  lemma BlankAgrees()
    ensures Agree(BLANK, NO_VIEW)
  {
    assert Visible(CacheGeometry(BLANK), map[]) == map[];
  }

  /** A tile that the relay reads and the watcher does not, on an empty screen. */
  lemma UnreadTile(fd: FrameDelta, t: Tile, m: Message)
    requires EmptyTile(fd, t) && FoldedIn(m) == Some(fd) && SeenIn(m) == Some(fd.(tiles := []))
    ensures !Agree(RelayFold(BLANK, m), WatchAtOnce(NO_VIEW, m))
  {
    OneTileShown(fd, t);
    hide SeenIn, KeyOnScreen, Decode;
    assert Show(NO_VIEW, fd.(tiles := [])).shown == map[];
    assert KeyOf(t) in Show(NO_VIEW, fd).shown;
    assert RelayFold(BLANK, m) == Fold(BLANK, fd);
  }

  /** A header that covers the delta's own header only. */
  lemma ShortHeaderDiverges(fd: FrameDelta, t: Tile)
    requires EmptyTile(fd, t) && fd.tileCount == 1
    ensures var m := Frame(DELTA_HEADER_SIZE, Encode(fd));
            Agree(BLANK, NO_VIEW) && FoldedIn(m).Some? && SeenIn(m).Some? && !Agree(RelayFold(BLANK, m), WatchAtOnce(NO_VIEW, m))
  {
    hide KeyOnScreen, Encode, SeenIn, FoldedIn, RelayFold, WatchAtOnce, Agree;
    BlankAgrees();
    ShortHeaderIsMisread(fd, t);
    UnreadTile(fd, t, Frame(DELTA_HEADER_SIZE, Encode(fd)));
  }

  /** A new tile size with the same resolution empties the cache but not the watcher's screen. */
  lemma TileSizeChangeDiverges(fd: FrameDelta, t: Tile, next: FrameDelta, u: Tile)
    requires EmptyTile(fd, t) && EmptyTile(next, u) && KeyOf(t) != KeyOf(u)
    requires next.width == fd.width && next.height == fd.height && next.tileSize != fd.tileSize
    ensures var s, v := Fold(BLANK, fd), Show(NO_VIEW, fd);
            Agree(s, v) && !Agree(Fold(s, next), Show(v, next))
  {
    hide KeyOnScreen, OnScreenTiles, Paint, Agree;
    OneTileShown(fd, t);
    OneTileShown(next, u);
    DeltaKeepsAgreementIff(Fold(BLANK, fd), Show(NO_VIEW, fd), next);
    assert KeyOf(t) in Show(NO_VIEW, fd).shown.Keys && KeyOf(t) !in KeySet([u]);
  }

  /** A delta that never reaches the watcher, with a tile that is new to the screen. */
  lemma LostDeltaDiverges(fd: FrameDelta, t: Tile, lost: FrameDelta, u: Tile)
    requires EmptyTile(fd, t) && EmptyTile(lost, u) && GeometryOf(fd) == GeometryOf(lost) && KeyOf(t) != KeyOf(u)
    ensures var s, v := Fold(BLANK, fd), Show(NO_VIEW, fd);
            Agree(s, v) && !Agree(Fold(s, lost), v)
  {
    hide KeyOnScreen;
    OneTileShown(fd, t);
    OneTileShown(lost, u);
    LostAgreesIff(Fold(BLANK, fd), Show(NO_VIEW, fd), lost);
    assert KeyOf(u) in KeySet([u]) && Lookup(Show(NO_VIEW, fd).shown, KeyOf(u)) == None;
  }

  /** A delta that the relay refuses for its dimensions, and that clears the watcher's screen. */
  lemma RefusedDeltaDiverges(fd: FrameDelta, t: Tile, refused: FrameDelta)
    requires EmptyTile(fd, t) && !Usable(refused) && !SameSize(Show(NO_VIEW, fd), refused)
    ensures var s, v := Fold(BLANK, fd), Show(NO_VIEW, fd);
            Agree(s, v) && Fold(s, refused) == s && !Agree(s, Show(v, refused))
  {
    hide KeyOnScreen, OnScreenTiles, Paint, Agree;
    OneTileShown(fd, t);
    assert KeyOf(t) in Show(NO_VIEW, fd).shown;
    UnfoldedAgreesIff(Fold(BLANK, fd), Show(NO_VIEW, fd), refused);
  }

  // ---------------------------------------------------------------- a run in which drawing is late

  lemma RunOne(s: Sys, ev: Event)
    ensures Run(s, [ev]) == Step(s, ev)
  {
    assert [ev][..0] == [];
  }

  /** Nothing is under way to the watcher, who is connected. */
  predicate Quiet(s: Sys) {
    && s.pending == None && s.broadcast == [] && s.inHand == None
    && s.queue == [] && s.phase == Pumping && s.capacity > 0
  }

  /** One message all the way from the publisher to the watcher. */
  function Delivery(m: Message): seq<Event> {
    [Publish(m), Submit] + [Take, FanOut] + [Pump]
  }

  lemma Sent(s: Sys, m: Message)
    requires Quiet(s)
    ensures Step(Step(s, Publish(m)), Submit) == s.(fb := RelayFold(s.fb, m), log := s.log + [m], since := s.since + [m], broadcast := [m])
  {
    hide RelayFold;
    assert [] + [m] == [m];
  }

  lemma Queued(s: Sys, m: Message)
    requires Quiet(s.(broadcast := [])) && s.broadcast == [m]
    ensures Step(Step(s, Take), FanOut) == s.(broadcast := [], queue := [m])
  {
    assert [m][1..] == [] && [] + [m] == [m];
  }

  lemma Pumped(s: Sys, m: Message)
    requires Quiet(s.(queue := [])) && s.queue == [m]
    ensures Step(s, Pump) == s.(queue := [], watcher := Watch(s.watcher, m, s.broken))
  {
    hide Watch;
    assert [m][1..] == [];
  }

  lemma Delivered(s: Sys, m: Message)
    requires Quiet(s)
    ensures Run(s, Delivery(m)) == s.(fb := RelayFold(s.fb, m), log := s.log + [m], since := s.since + [m], watcher := Watch(s.watcher, m, s.broken))
  {
    hide RelayFold, Watch, Run, Step;
    Sent(s, m);
    var sent := s.(fb := RelayFold(s.fb, m), log := s.log + [m], since := s.since + [m], broadcast := [m]);
    Queued(sent, m);
    Pumped(sent.(broadcast := [], queue := [m]), m);
    RunTwo(s, Publish(m), Submit);
    RunTwo(sent, Take, FanOut);
    RunOne(sent.(broadcast := [], queue := [m]), Pump);
    RunAppend(s, [Publish(m), Submit], [Take, FanOut]);
    RunAppend(s, [Publish(m), Submit] + [Take, FanOut], [Pump]);
  }

  lemma RunTwo(s: Sys, a: Event, b: Event)
    ensures Run(s, [a, b]) == Step(Step(s, a), b)
  {
    assert [a, b][..1] == [a];
    RunOne(s, a);
  }

  lemma WholeIsRead(payload: Blob, fd: FrameDelta)
    requires Octets(payload) && Decode(payload) == Ok(fd) && Usable(fd) && payload == Encode(fd) && |payload| < 0x1_0000_0000
    ensures var m := KeyMessage(payload); Sound(fd.tileSize, m) && FoldedIn(m) == Some(fd) && SeenIn(m) == Some(fd)
  {
    hide Encode, Decode, SeenIn, Octets, Usable;
    WholeIsSeen(payload);
  }

  /** Such a delta, as it is sent, is read by relay and watcher alike. */
  lemma OneTileMessage(fd: FrameDelta, t: Tile)
    requires EmptyTile(fd, t) && fd.tileCount == 1
    ensures var m := KeyMessage(Encode(fd));
            Sound(fd.tileSize, m) && SeenIn(m) == Some(fd) && FoldedIn(m) == Some(fd)
  {
    assert Consistent(fd);
    hide Encode, Decode, Octets, Sound, FoldedIn, SeenIn, KeyMessage, Yields, KeyOnScreen, DecodeHead;
    OneTileEncoded(fd, t);
    DecodeAcceptsExactly(Encode(fd), fd);
    WholeIsRead(Encode(fd), fd);
  }

  /** Two resolutions, and a tile of the first that would lie on the canvas of the second. */
  predicate LateTile(first: FrameDelta, t: Tile, second: FrameDelta, u: Tile) {
    && EmptyTile(first, t) && EmptyTile(second, u)
    && first.tileCount == 1 && second.tileCount == 1 && first.tileSize == second.tileSize
    && !(first.width == second.width && first.height == second.height)
    && KeyOnScreen(GeometryOf(second), KeyOf(t)) && KeyOf(t) != KeyOf(u)
    && Decodes(t, {}) && Decodes(u, {})
  }

  /** The first tile of a screen, and the one below it. */
  lemma FirstTwoTiles(g: Geometry)
    requires g.tileSize > 0 && g.width > g.tileSize && g.height > g.tileSize
    ensures KeyOnScreen(g, 0) && KeyOnScreen(g, 1)
  {
    assert PixelOf(0, g.tileSize) == 0;
    assert PixelOf(1, g.tileSize) == PixelOf(0, g.tileSize) + g.tileSize;
  }

  /** A delta with one empty JPEG tile in the first column. */
  predicate OneTile(fd: FrameDelta, t: Tile, side: uint16, ty: uint16) {
    && fd.width == side && fd.height == side && fd.tileSize == 16
    && fd.tileCount == 1 && fd.tiles == [t] && t == Tile(0, ty, 2, 0, [])
  }

  /** For example a first tile at 64 by 64, and one below it at 128 by 128. */
  lemma LateTileExample(first: FrameDelta, t: Tile, second: FrameDelta, u: Tile)
    requires OneTile(first, t, 64, 0) && OneTile(second, u, 128, 1)
    ensures LateTile(first, t, second, u)
  {
    hide KeyOnScreen;
    FirstTwoTiles(GeometryOf(first));
    FirstTwoTiles(GeometryOf(second));
  }

  /** Nothing of a single tile that can be decoded is left undrawn. */
  lemma OneTileDrawn(t: Tile)
    requires t.dataLen == |t.data| && Decodes(t, {})
    ensures Decoded([t], {}) == [t] && Undrawn([t], {}) == {}
  {
    hide KeyOf;
    CachedIsStored(t);
    OneTilePainted(t);
    assert [t][..0] == [];
  }

  /** One delta of one tile arrives on a canvas of another size, where at most one tile waits. */
  lemma OneTileArrives(w: Viewing, fd: FrameDelta, t: Tile, waiting: seq<Tile>)
    requires EmptyTile(fd, t) && Decodes(t, {}) && !(fd.width == w.canvas.width && fd.height == w.canvas.height)
    requires waiting == Waiting(fd.width, fd.height, w.canvas.chain, {})
    ensures var next := See(w, fd, {});
            && next.stains == KeySet(waiting) - {KeyOf(t)}
            && next.canvas == Canvas(fd.width, fd.height, map[], w.canvas.chain + [Batch(fd.tileSize, [t])])
  {
    hide KeyOnScreen;
    OneTileDrawn(t);
    OneTileOnly(GeometryOf(fd), t);
    hide Decoded, Undrawn, OnScreenTiles, KeyOf, Decodes, Usable, Paint, Latest;
  }

  lemma OneTileWaits(g: Geometry, t: Tile)
    requires OnScreenTiles(g, [t]) == [t] && Decoded([t], {}) == [t]
    ensures Waiting(g.width, g.height, [Batch(g.tileSize, [t])], {}) == [t]
  {
    hide OnScreenTiles, Decoded;
    var late := [Batch(g.tileSize, [t])];
    assert late[1..] == [] && [t] + [] == [t];
  }

  /** What the two deltas make of an empty canvas, before anything is drawn. */
  lemma LateTileStains(first: FrameDelta, t: Tile, second: FrameDelta, u: Tile)
    requires LateTile(first, t, second, u)
    ensures var w := See(See(Reopened(NO_CANVAS, {}), first, {}), second, {});
            w.stains == {KeyOf(t)} && w.canvas.chain == [Batch(first.tileSize, [t]), Batch(second.tileSize, [u])]
  {
    var a := Batch(first.tileSize, [t]);
    OneTileOnly(GeometryOf(second), t);
    OneTileDrawn(t);
    assert Waiting(first.width, first.height, [], {}) == [];
    hide KeyOnScreen, OnScreenTiles, Decoded, Undrawn, KeyOf, Decodes, Paint, Latest, KeySet, See, Waiting;
    OneTileWaits(GeometryOf(second), t);
    OneTileArrives(Reopened(NO_CANVAS, {}), first, t, []);
    assert [] + [a] == [a];
    OneTileArrives(See(Reopened(NO_CANVAS, {}), first, {}), second, u, [t]);
    assert {KeyOf(t)} - {KeyOf(u)} == {KeyOf(t)};
  }

  lemma DrawnTwice(c: Canvas, a: Batch, b: Batch)
    requires c.chain == [a, b]
    ensures Viewer.Draw(Viewer.Draw(c, {}), {}).chain == []
  {
    hide OnScreenTiles, Paint, Decoded;
    assert [a, b][1..] == [b] && [b][1..] == [];
    assert Viewer.Draw(c, {}).chain == [b];
  }

  function LateRun(a: Message, b: Message): seq<Event> {
    [Register, Snapshot(0, [])] + Delivery(a) + Delivery(b) + [Event.Draw, Event.Draw]
  }

  lemma LateRunEnds(capacity: nat, a: Message, b: Message)
    requires capacity > 0
    ensures var s := Run(Initial(capacity, {}), LateRun(a, b));
            var w := Watch(Watch(Reopened(NO_CANVAS, {}), a, {}), b, {});
            && s.fb == RelayFold(RelayFold(BLANK, a), b)
            && s.watcher == w.(canvas := Viewer.Draw(Viewer.Draw(w.canvas, {}), {}))
            && Ahead(s) == [] && s.phase == Pumping && Lossless(s) && s.broken == {}
  {
    var start := Initial(capacity, {});
    RunTwo(start, Register, Snapshot(0, []));
    var s := Run(start, [Register, Snapshot(0, [])]);
    JoinedEmpty(capacity);
    hide RelayFold, Watch, Reopened, Viewer.Draw, Delivery;
    Delivered(s, a);
    var s1 := Run(s, Delivery(a));
    Delivered(s1, b);
    var s2 := Run(s1, Delivery(b));
    RunTwo(s2, Event.Draw, Event.Draw);
    RunAppend(start, [Register, Snapshot(0, [])], Delivery(a));
    RunAppend(start, [Register, Snapshot(0, [])] + Delivery(a), Delivery(b));
    RunAppend(start, [Register, Snapshot(0, [])] + Delivery(a) + Delivery(b), [Event.Draw, Event.Draw]);
  }

  /** Registering where nothing has been published yet. */
  lemma JoinedEmpty(capacity: nat)
    requires capacity > 0
    ensures var s := Step(Step(Initial(capacity, {}), Register), Snapshot(0, []));
            Quiet(s) && s.fb == BLANK && s.watcher == Reopened(NO_CANVAS, {}) && Lossless(s) && s.broken == {}
  {
    assert Settled(NO_CANVAS, {}) == map[];
  }

  lemma LateRunSteady(ts: uint16, a: Message, b: Message)
    requires Sound(ts, a) && Sound(ts, b)
    ensures Steady(ts, LateRun(a, b))
  {
    hide Sound;
    var events := LateRun(a, b);
    forall i | 0 <= i < |events| && events[i].Publish?
      ensures Sound(ts, events[i].m)
    {
      assert i == 2 || i == 7;
    }
  }

  /** The watcher after that run. */
  lemma LateRunWatcher(capacity: nat, a: Message, b: Message, first: FrameDelta, t: Tile, second: FrameDelta, u: Tile)
    requires LateTile(first, t, second, u) && capacity > 0
    requires SeenIn(a) == Some(first) && SeenIn(b) == Some(second)
    ensures var s := Run(Initial(capacity, {}), LateRun(a, b));
            Served(s) && Ahead(s) == [] && s.watcher.canvas.chain == [] && s.watcher.stains == {KeyOf(t)}
  {
    hide KeyOnScreen, SeenIn, Run, Viewer.Draw, Decodes, See, Reopened, Ahead, Initial, LateRun;
    LateRunEnds(capacity, a, b);
    LateTileStains(first, t, second, u);
    var c := See(See(Reopened(NO_CANVAS, {}), first, {}), second, {}).canvas;
    DrawnTwice(c, c.chain[0], c.chain[1]);
  }

  /**
   A run in which nothing is lost and everything is drawn, but the first resolution's tile only
   after the second has cleared the canvas: it stays there, and the relay does not have it.
   */
  lemma LateDrawingDiverges(capacity: nat, first: FrameDelta, t: Tile, second: FrameDelta, u: Tile)
    requires LateTile(first, t, second, u) && capacity > 0
    ensures var events := LateRun(KeyMessage(Encode(first)), KeyMessage(Encode(second)));
            var s := Run(Initial(capacity, {}), events);
            && Steady(first.tileSize, events) && Served(s) && Ahead(s) == [] && s.watcher.canvas.chain == []
            && s.watcher.stains == {KeyOf(t)}
            && s.watcher.canvas.shown != Visible(CacheGeometry(s.fb), s.fb.tiles)
  {
    var a, b := KeyMessage(Encode(first)), KeyMessage(Encode(second));
    OneTileMessage(first, t);
    OneTileMessage(second, u);
    hide *;
    LateRunSteady(first.tileSize, a, b);
    LateRunWatcher(capacity, a, b, first, t, second, u);
    LateJoinConverges(first.tileSize, capacity, {}, LateRun(a, b));
  }
}
