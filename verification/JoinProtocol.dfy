/** The relay, one watcher and everything in between, as one transition system. */
module JoinProtocol {
  import opened Bytes
  import opened Ovp
  import opened FrameCodec
  import opened FrameBuffer
  import opened Viewer
  import opened LateJoin

  datatype Phase = Away | Registered | Pumping

  /**
   `log` is everything published so far. `pending` has been folded into the cache but is not
   in the broadcast channel yet, `inHand` has left the channel but is not fanned out yet.
   `capacity` is how much the watcher's queue holds, `broken` is what it cannot decode. Since
   the watcher's keyframe, `drops` counts what its full queue lost, and `cut` tells whether the
   keyframe was too large for the counts that go with it. Looking back to when something was
   last lost for the watcher, or to its keyframe: `base` is what it would have shown by then had
   all been painted at once, and `since` all that it had yet to see then or was published later.
   */
  datatype Sys = Sys(
    fb: Screen, log: seq<Message>, pending: Option<Message>, broadcast: seq<Message>, inHand: Option<Message>,
    phase: Phase, capacity: nat, broken: set<Tile>, queue: seq<Message>, watcher: Viewing, drops: nat, cut: bool,
    since: seq<Message>, base: View)

  function Initial(capacity: nat, broken: set<Tile>): Sys {
    Sys(BLANK, [], None, [], None, Away, capacity, broken, [], Reopened(NO_CANVAS, broken), 0, false, [], NO_VIEW)
  }

  /** `Draw` is the turn of the watcher's next waiting delta; a watcher that left may register again, with its canvas. */
  datatype Event =
    | Publish(m: Message) | Submit | Take | FanOut
    | Register | Snapshot(now: uint64, tiles: seq<Tile>) | Pump | Draw | Leave

  function RelayFold(s: Screen, m: Message): Screen {
    if m.Frame? && Octets(m.payload) && Decode(m.payload).Ok? then Fold(s, Decode(m.payload).value) else s
  }

  function Watch(w: Viewing, m: Message, broken: set<Tile>): Viewing {
    var fd := SeenIn(m);
    if fd.None? then w else See(w, fd.value, broken)
  }

  /** Pushing onto a bounded queue, the oldest entry giving way. */
  function Push<T>(queue: seq<T>, m: T, capacity: nat): seq<T> {
    if |queue| < capacity then queue + [m]
    else if queue == [] then []
    else queue[1..] + [m]
  }

  function KeyMessage(payload: Blob): Message {
    Frame(|payload| % 0x1_0000_0000, payload)
  }

  function InFlight(s: Sys): seq<Message> {
    Held(s.inHand) + s.broadcast + Held(s.pending)
  }

  /** The messages that the watcher has yet to see, in order. */
  function Ahead(s: Sys): seq<Message> {
    s.queue + InFlight(s)
  }

  /** Something was lost, or the watcher begins anew: what counts is what it sees from now on. */
  function Anew(s: Sys): Sys {
    s.(since := Ahead(s), base := s.watcher.atOnce)
  }

  function SnapshotStep(s: Sys, now: uint64, tiles: seq<Tile>): Sys {
    if s.fb.tiles == map[] || s.fb.width == 0 then Anew(s.(phase := Pumping))
    else if !Lists(s.fb.tiles, tiles) then s
    else
      var payload := Encode(KeyFrame(s.fb, now, tiles));
      Anew(s.(phase := Pumping, cut := |s.fb.tiles| > MAX_TILE_COUNT || |payload| >= 0x1_0000_0000,
              watcher := Watch(s.watcher, KeyMessage(payload), s.broken)))
  }

  function FanOutStep(s: Sys): Sys
    requires s.inHand.Some?
  {
    if s.phase == Away then Anew(s.(inHand := None))
    else if |s.queue| < s.capacity then s.(inHand := None, queue := s.queue + [s.inHand.value])
    else
      Anew(s.(inHand := None, queue := Push(s.queue, s.inHand.value, s.capacity),
              drops := if s.phase == Pumping then s.drops + 1 else s.drops))
  }

  /** The watcher draws what comes next. */
  function DrawnNext(s: Sys): Sys {
    s.(watcher := s.watcher.(canvas := Viewer.Draw(s.watcher.canvas, s.broken)))
  }

  /** One step; an event that is not possible now leaves everything as it is. */
  function Step(s: Sys, ev: Event): Sys {
    match ev
    case Publish(m) =>
      if s.pending.Some? then s else s.(fb := RelayFold(s.fb, m), log := s.log + [m], pending := Some(m), since := s.since + [m])
    case Submit =>
      if s.pending.None? || |s.broadcast| >= BROADCAST_CAPACITY then s
      else s.(broadcast := s.broadcast + [s.pending.value], pending := None)
    case Take =>
      if s.inHand.Some? || s.broadcast == [] then s
      else s.(inHand := Some(s.broadcast[0]), broadcast := s.broadcast[1..])
    case FanOut => if s.inHand.None? then s else FanOutStep(s)
    case Register =>
      if s.phase != Away then s
      else Anew(s.(phase := Registered, watcher := Reopened(s.watcher.canvas, s.broken), drops := 0, cut := false))
    case Snapshot(now, tiles) => if s.phase != Registered then s else SnapshotStep(s, now, tiles)
    case Pump =>
      if s.phase != Pumping || s.queue == [] then s
      else s.(queue := s.queue[1..], watcher := Watch(s.watcher, s.queue[0], s.broken))
    case Draw => DrawnNext(s)
    case Leave => Anew(s.(phase := Away, queue := []))
  }

  // ---------------------------------------------------------------- what is on its way

  predicate EndsWith(log: seq<Message>, ms: seq<Message>) {
    |ms| <= |log| && log[|log| - |ms|..] == ms
  }

  ghost predicate FeedInv(ts: uint16, s: Sys) {
    && AllSound(ts, s.log)
    && AllSound(ts, Ahead(s))
    && EndsWith(s.log, InFlight(s))
    && EndsWith(s.log, Ahead(s))
    && |s.broadcast| <= BROADCAST_CAPACITY
    && |s.queue| <= s.capacity
  }

  ghost predicate CacheInv(ts: uint16, s: Sys)
    requires AllSound(ts, s.log)
  {
    ScreenInv(s.fb) && s.fb == FoldAll(BLANK, Deltas(ts, s.log))
  }

  /** Nothing has been lost for the watcher since its keyframe. */
  predicate Lossless(s: Sys) {
    s.drops == 0 && !s.cut
  }

  ghost predicate WatcherInv(ts: uint16, s: Sys)
    requires AllSound(ts, Ahead(s))
  {
    && (s.phase == Away ==> s.queue == [])
    && (s.phase == Registered ==> s.watcher.atOnce.shown == map[] && Lossless(s))
    && (s.phase == Pumping && Lossless(s) ==> Agree(s.fb, ShowAll(s.watcher.atOnce, Deltas(ts, Ahead(s)))))
    && Linked(s.watcher, s.broken)
  }

  /** What the watcher will have seen is what it had seen by then, and what came since. */
  ghost predicate SinceInv(ts: uint16, s: Sys)
    requires AllSound(ts, Ahead(s))
  {
    && AllSound(ts, s.since) && EndsWith(s.log, s.since)
    && ShowAll(s.watcher.atOnce, Deltas(ts, Ahead(s))) == ShowAll(s.base, Deltas(ts, s.since))
  }

  ghost predicate Core(ts: uint16, s: Sys) {
    FeedInv(ts, s) && CacheInv(ts, s) && WatcherInv(ts, s)
  }

  ghost predicate Inv(ts: uint16, s: Sys) {
    Core(ts, s) && SinceInv(ts, s)
  }

  // ---------------------------------------------------------------- each step keeps it

  /** What a step that publishes nothing has to see to. */
  lemma CoreIsKept(ts: uint16, s: Sys, t: Sys)
    requires Core(ts, s) && t.fb == s.fb && t.log == s.log
    requires AllSound(ts, Ahead(t)) && EndsWith(t.log, InFlight(t)) && EndsWith(t.log, Ahead(t))
    requires |t.broadcast| <= BROADCAST_CAPACITY && |t.queue| <= t.capacity && (t.phase == Away ==> t.queue == [])
    requires t.phase == Registered ==> t.watcher.atOnce.shown == map[] && Lossless(t)
    requires t.phase == Pumping && Lossless(t) ==> Agree(t.fb, ShowAll(t.watcher.atOnce, Deltas(ts, Ahead(t))))
    requires Linked(t.watcher, t.broken)
    ensures Core(ts, t)
  {
    hide InFlight, Ahead, AllSound, EndsWith, FoldAll, ShowAll, Agree, ScreenInv, Linked;
  }

  /** The parts of what is kept, by name. */
  lemma CoreParts(ts: uint16, s: Sys)
    requires Core(ts, s)
    ensures AllSound(ts, s.log) && AllSound(ts, Ahead(s)) && EndsWith(s.log, InFlight(s)) && EndsWith(s.log, Ahead(s))
    ensures |s.broadcast| <= BROADCAST_CAPACITY && |s.queue| <= s.capacity && (s.phase == Away ==> s.queue == [])
    ensures s.phase == Registered ==> s.watcher.atOnce.shown == map[] && Lossless(s)
    ensures s.phase == Pumping && Lossless(s) ==> Agree(s.fb, ShowAll(s.watcher.atOnce, Deltas(ts, Ahead(s))))
    ensures Linked(s.watcher, s.broken) && ScreenInv(s.fb)
  {
    hide InFlight, Ahead, AllSound, EndsWith, FoldAll, ShowAll, Agree, ScreenInv, Linked;
  }

  lemma AppendSound(ts: uint16, ms: seq<Message>, m: Message)
    requires AllSound(ts, ms) && Sound(ts, m)
    ensures AllSound(ts, ms + [m])
    ensures m.Frame? ==> Deltas(ts, ms + [m]) == Deltas(ts, ms) + [Decode(m.payload).value]
    ensures m.Other? ==> Deltas(ts, ms + [m]) == Deltas(ts, ms)
  {
    assert (ms + [m])[..|ms|] == ms && (ms + [m])[|ms|] == m;
  }

  lemma FoldTileSize(ts: uint16, ds: seq<FrameDelta>)
    requires AllUsable(ts, ds)
    ensures FoldAll(BLANK, ds) == BLANK || FoldAll(BLANK, ds).tileSize == ts
  {
    if ds != [] {
      FoldClosed(ts, BLANK, ds);
    }
  }

  lemma FoldSnoc(s: Screen, ds: seq<FrameDelta>, fd: FrameDelta)
    ensures FoldAll(s, ds + [fd]) == Fold(FoldAll(s, ds), fd)
  {
    assert (ds + [fd])[..|ds|] == ds;
  }

  lemma ShowSnoc(v: View, ds: seq<FrameDelta>, fd: FrameDelta)
    ensures ShowAll(v, ds + [fd]) == Show(ShowAll(v, ds), fd)
  {
    assert (ds + [fd])[..|ds|] == ds;
  }

  lemma PublishCache(ts: uint16, s: Sys, m: Message)
    requires Inv(ts, s) && Sound(ts, m) && s.pending.None?
    ensures AllSound(ts, s.log + [m]) && CacheInv(ts, Step(s, Publish(m)))
  {
    AppendSound(ts, s.log, m);
    if m.Frame? {
      FoldSnoc(BLANK, Deltas(ts, s.log), Decode(m.payload).value);
      FoldKeepsInv(s.fb, m.payload);
    }
  }

  lemma PublishAgrees(ts: uint16, fb: Screen, v: View, ds: seq<FrameDelta>, fd: FrameDelta)
    requires AllUsable(ts, ds) && fb == FoldAll(BLANK, ds)
    requires Agree(fb, v) && Usable(fd) && fd.tileSize == ts
    ensures Agree(Fold(fb, fd), Show(v, fd))
  {
    DeltaKeepsAgreementIff(fb, v, fd);
    FoldTileSize(ts, ds);
  }

  lemma AheadOfPublish(s: Sys, m: Message)
    requires s.pending.None?
    ensures InFlight(Step(s, Publish(m))) == InFlight(s) + [m]
    ensures Ahead(Step(s, Publish(m))) == Ahead(s) + [m]
  {
    Assoc(s.queue, InFlight(s), [m]);
    assert Held(s.inHand) + s.broadcast + [] == Held(s.inHand) + s.broadcast;
  }

  lemma EndsWithAppend(log: seq<Message>, ms: seq<Message>, m: Message)
    ensures EndsWith(log, ms) ==> EndsWith(log + [m], ms + [m])
  {
  }

  lemma PublishFeed(ts: uint16, s: Sys, m: Message)
    requires Inv(ts, s) && Sound(ts, m) && s.pending.None?
    ensures FeedInv(ts, Step(s, Publish(m)))
  {
    AheadOfPublish(s, m);
    AppendSound(ts, s.log, m);
    AppendSound(ts, Ahead(s), m);
    EndsWithAppend(s.log, InFlight(s), m);
    EndsWithAppend(s.log, Ahead(s), m);
    hide InFlight, Ahead, AllSound, Sound, EndsWith, CacheInv, WatcherInv;
  }

  /** A delta that is published reaches the cache now and the watcher in the end. */
  lemma PublishShown(ts: uint16, s: Sys, m: Message)
    requires Core(ts, s) && Sound(ts, m)
    requires s.phase == Pumping && Lossless(s)
    ensures AllSound(ts, Ahead(s) + [m])
    ensures Agree(RelayFold(s.fb, m), ShowAll(s.watcher.atOnce, Deltas(ts, Ahead(s) + [m])))
  {
    CoreParts(ts, s);
    hide InFlight, Ahead, AllSound, EndsWith, FoldAll, ShowAll, Agree, ScreenInv, Linked;
    AppendSound(ts, Ahead(s), m);
    if m.Frame? {
      var fd, ds := Decode(m.payload).value, Deltas(ts, Ahead(s));
      PublishAgrees(ts, s.fb, ShowAll(s.watcher.atOnce, ds), Deltas(ts, s.log), fd);
      ShowSnoc(s.watcher.atOnce, ds, fd);
    }
  }

  lemma PublishWatcher(ts: uint16, s: Sys, m: Message)
    requires Inv(ts, s) && Sound(ts, m) && s.pending.None?
    requires FeedInv(ts, Step(s, Publish(m)))
    ensures WatcherInv(ts, Step(s, Publish(m)))
  {
    var t := Step(s, Publish(m));
    assert Core(ts, s) && t == s.(fb := RelayFold(s.fb, m), log := s.log + [m], pending := Some(m), since := s.since + [m]);
    hide Inv, Core, FeedInv, Sound, RelayFold, InFlight, Ahead, AllSound, EndsWith, FoldAll, ShowAll, Agree, ScreenInv, Linked;
    CoreParts(ts, s);
    AheadOfPublish(s, m);
    hide Step;
    if s.phase == Pumping && Lossless(s) {
      PublishShown(ts, s, m);
    }
  }

  /** What comes new comes behind both. */
  lemma PublishSince(ts: uint16, s: Sys, m: Message)
    requires Inv(ts, s) && Sound(ts, m) && s.pending.None?
    ensures AllSound(ts, Ahead(Step(s, Publish(m)))) && SinceInv(ts, Step(s, Publish(m)))
  {
    var t := Step(s, Publish(m));
    assert t.watcher == s.watcher && t.base == s.base && t.log == s.log + [m] && t.since == s.since + [m];
    CoreParts(ts, s);
    AheadOfPublish(s, m);
    hide Core, Step, InFlight, Ahead, AllSound, Sound, ShowAll, RelayFold;
    AppendSound(ts, Ahead(s), m);
    AppendSound(ts, s.since, m);
    EndsWithAppend(s.log, s.since, m);
    hide EndsWith;
    if m.Frame? {
      ShowSnoc(s.watcher.atOnce, Deltas(ts, Ahead(s)), Decode(m.payload).value);
      ShowSnoc(s.base, Deltas(ts, s.since), Decode(m.payload).value);
    }
  }

  lemma PublishKeepsInv(ts: uint16, s: Sys, m: Message)
    requires Inv(ts, s) && Sound(ts, m) && s.pending.None?
    ensures Inv(ts, Step(s, Publish(m)))
  {
    hide FeedInv, CacheInv, WatcherInv, SinceInv, Step;
    PublishCache(ts, s, m);
    PublishFeed(ts, s, m);
    PublishWatcher(ts, s, m);
    PublishSince(ts, s, m);
  }

  /** What counts from now on counts from what the watcher has seen. */
  lemma AnewKeepsInv(ts: uint16, s: Sys)
    requires Core(ts, s)
    ensures Inv(ts, Anew(s))
  {
    assert InFlight(Anew(s)) == InFlight(s) && Ahead(Anew(s)) == Ahead(s);
    hide InFlight, Ahead, AllSound, EndsWith, FoldAll, ShowAll, Agree, ScreenInv, Linked;
  }

  /** A step that only hands messages on, or draws, changes nothing of what lies ahead. */
  lemma HandOnKeepsInv(ts: uint16, s: Sys, t: Sys)
    requires Inv(ts, s)
    requires Ahead(t) == Ahead(s) && EndsWith(t.log, InFlight(t))
    requires t.fb == s.fb && t.log == s.log && t.phase == s.phase && t.capacity == s.capacity
    requires t.watcher.atOnce == s.watcher.atOnce && Linked(t.watcher, t.broken)
    requires t.drops == s.drops && t.cut == s.cut && t.since == s.since && t.base == s.base
    requires |t.broadcast| <= BROADCAST_CAPACITY && |t.queue| <= t.capacity
    requires t.phase == Away ==> t.queue == []
    ensures Inv(ts, t)
  {
    CoreParts(ts, s);
    hide InFlight, Ahead, AllSound, EndsWith, FoldAll, ShowAll, Agree, ScreenInv, Linked, FeedInv, CacheInv, WatcherInv;
    CoreIsKept(ts, s, t);
  }

  /** Only where the messages under way are has changed. */
  ghost predicate HandsOn(s: Sys, t: Sys) {
    && t == s.(pending := t.pending, broadcast := t.broadcast, inHand := t.inHand)
    && InFlight(t) == InFlight(s) && Ahead(t) == Ahead(s)
    && (|s.broadcast| <= BROADCAST_CAPACITY ==> |t.broadcast| <= BROADCAST_CAPACITY)
  }

  lemma SubmitHandsOn(s: Sys)
    ensures HandsOn(s, Step(s, Submit))
  {
    if s.pending.Some? {
      Assoc(Held(s.inHand), s.broadcast, [s.pending.value]);
    }
  }

  lemma TakeHandsOn(s: Sys)
    ensures HandsOn(s, Step(s, Take))
  {
    if s.broadcast != [] {
      assert [s.broadcast[0]] + s.broadcast[1..] == s.broadcast;
    }
  }

  lemma HandingOnKeepsInv(ts: uint16, s: Sys, t: Sys)
    requires Inv(ts, s) && HandsOn(s, t)
    ensures Inv(ts, t)
  {
    assert Core(ts, s);
    hide Inv, Core, FoldAll, ShowAll, Agree, ScreenInv, InFlight, Ahead, AllSound, EndsWith, Linked;
    CoreParts(ts, s);
    HandOnKeepsInv(ts, s, t);
  }

  lemma EndsWithLess(log: seq<Message>, ms: seq<Message>)
    requires EndsWith(log, ms) && ms != []
    ensures EndsWith(log, ms[1..])
  {
  }

  lemma FanOutRegroups(q: seq<Message>, m: Message, rest: seq<Message>)
    ensures q + ([m] + rest) == q + [m] + rest
  {
  }

  lemma FanOutAhead(s: Sys)
    requires s.inHand.Some?
    ensures InFlight(s) == [s.inHand.value] + (s.broadcast + Held(s.pending))
    ensures InFlight(s.(inHand := None)) == s.broadcast + Held(s.pending)
  {
    Assoc([s.inHand.value], s.broadcast, Held(s.pending));
    assert [] + s.broadcast == s.broadcast;
  }

  /** What a full queue passes on is what lay ahead, without its first message. */
  lemma FanOutDrops(ts: uint16, q: seq<Message>, m: Message, rest: seq<Message>, capacity: nat)
    requires AllSound(ts, q + ([m] + rest)) && |q| == capacity
    ensures Push(q, m, capacity) + rest == (q + ([m] + rest))[1..] && |Push(q, m, capacity)| <= capacity
    ensures AllSound(ts, Push(q, m, capacity) + rest)
  {
    var all, out := q + ([m] + rest), Push(q, m, capacity) + rest;
    assert all[1..] == out;
    assert forall i :: 0 <= i < |out| ==> out[i] == all[i + 1];
  }

  lemma FanOutIs(s: Sys)
    requires s.inHand.Some?
    ensures Step(s, FanOut) ==
            if s.phase == Away then Anew(s.(inHand := None))
            else if |s.queue| < s.capacity then s.(inHand := None, queue := s.queue + [s.inHand.value])
            else Anew(s.(inHand := None, queue := Push(s.queue, s.inHand.value, s.capacity),
                         drops := if s.phase == Pumping then s.drops + 1 else s.drops))
  {
    hide Anew, Push;
  }

  lemma FanOutFullKeepsInv(ts: uint16, s: Sys, rest: seq<Message>)
    requires Inv(ts, s) && s.inHand.Some? && s.phase != Away && |s.queue| >= s.capacity
    requires InFlight(s) == [s.inHand.value] + rest && EndsWith(s.log, rest)
    requires InFlight(s.(inHand := None)) == rest
    ensures Inv(ts, Step(s, FanOut))
  {
    var t := s.(inHand := None, queue := Push(s.queue, s.inHand.value, s.capacity),
                drops := if s.phase == Pumping then s.drops + 1 else s.drops);
    assert Core(ts, s) && InFlight(t) == rest;
    hide Inv, Core, InFlight, AllSound, FoldAll, ShowAll, Agree, ScreenInv, Linked, Anew, Step;
    CoreParts(ts, s);
    FanOutDrops(ts, s.queue, s.inHand.value, rest, s.capacity);
    EndsWithLess(s.log, Ahead(s));
    hide EndsWith, Push;
    CoreIsKept(ts, s, t);
    AnewKeepsInv(ts, t);
    FanOutIs(s);
  }

  lemma FanOutRoomKeepsInv(ts: uint16, s: Sys, rest: seq<Message>)
    requires Inv(ts, s) && s.inHand.Some? && s.phase != Away && |s.queue| < s.capacity
    requires InFlight(s) == [s.inHand.value] + rest && EndsWith(s.log, rest)
    requires InFlight(s.(inHand := None)) == rest
    ensures Inv(ts, Step(s, FanOut))
  {
    var t := s.(inHand := None, queue := s.queue + [s.inHand.value]);
    assert Core(ts, s) && InFlight(t) == rest;
    hide Inv, Core, InFlight, AllSound, EndsWith, Linked, Step;
    CoreParts(ts, s);
    FanOutRegroups(s.queue, s.inHand.value, rest);
    HandOnKeepsInv(ts, s, t);
    FanOutIs(s);
  }

  lemma FanOutAwayKeepsInv(ts: uint16, s: Sys, rest: seq<Message>)
    requires Inv(ts, s) && s.inHand.Some? && s.phase == Away
    requires InFlight(s) == [s.inHand.value] + rest && EndsWith(s.log, rest)
    requires InFlight(s.(inHand := None)) == rest
    ensures Inv(ts, Step(s, FanOut))
  {
    var t := s.(inHand := None);
    assert Core(ts, s);
    hide Inv, Core, InFlight, AllSound, EndsWith, FoldAll, ShowAll, Agree, ScreenInv, Linked, Anew, Step;
    CoreParts(ts, s);
    assert Ahead(s) == [] + InFlight(s) == InFlight(s) && Ahead(t) == [] + rest == rest;
    RestIsSound(ts, s.log, s.inHand.value, rest);
    CoreIsKept(ts, s, t);
    AnewKeepsInv(ts, t);
    FanOutIs(s);
  }

  lemma FanOutKeepsInv(ts: uint16, s: Sys)
    requires Inv(ts, s) && s.inHand.Some?
    ensures Inv(ts, Step(s, FanOut))
  {
    var rest := s.broadcast + Held(s.pending);
    FanOutAhead(s);
    EndsWithLess(s.log, InFlight(s));
    assert InFlight(s)[1..] == rest;
    hide InFlight, Inv, EndsWith;
    if s.phase == Away {
      FanOutAwayKeepsInv(ts, s, rest);
    } else if |s.queue| < s.capacity {
      FanOutRoomKeepsInv(ts, s, rest);
    } else {
      FanOutFullKeepsInv(ts, s, rest);
    }
  }

  lemma SameAhead(s: Sys, t: Sys)
    requires t.queue == s.queue && t.inHand == s.inHand && t.broadcast == s.broadcast && t.pending == s.pending
    ensures InFlight(t) == InFlight(s) && Ahead(t) == Ahead(s)
  {
  }

  lemma RegisterKeepsInv(ts: uint16, s: Sys)
    requires Inv(ts, s) && s.phase == Away
    ensures Inv(ts, Step(s, Register))
  {
    var t := s.(phase := Registered, watcher := Reopened(s.watcher.canvas, s.broken), drops := 0, cut := false);
    assert Core(ts, s);
    hide Inv, Core, SinceInv, Reopened, InFlight, Ahead, AllSound, EndsWith, FoldAll, ShowAll, Agree, ScreenInv, Linked, Anew, Settled, Step;
    CoreParts(ts, s);
    SameAhead(s, t);
    ReopenKeepsLinked(s.watcher, s.broken);
    assert t.watcher.atOnce.shown == map[] by { ReopenedIsEmpty(s.watcher.canvas, s.broken); }
    CoreIsKept(ts, s, t);
    AnewKeepsInv(ts, t);
    RegisterIs(s);
  }

  lemma RegisterIs(s: Sys)
    requires s.phase == Away
    ensures Step(s, Register) ==
            Anew(s.(phase := Registered, watcher := Reopened(s.watcher.canvas, s.broken), drops := 0, cut := false))
  {
    hide Anew, Reopened;
  }

  lemma ReopenedIsEmpty(c: Canvas, broken: set<Tile>)
    ensures Reopened(c, broken).atOnce.shown == map[]
  {
  }

  lemma ReopenKeepsLinked(w: Viewing, broken: set<Tile>)
    requires Linked(w, broken)
    ensures Linked(Reopened(w.canvas, broken), broken)
  {
    ReopenedIsLinked(w.canvas, broken);
  }

  lemma SoundBehind(ts: uint16, a: seq<Message>, b: seq<Message>)
    requires AllSound(ts, a + b)
    ensures AllSound(ts, b)
  {
    hide Sound;
    assert forall i :: 0 <= i < |b| ==> b[i] == (a + b)[|a| + i];
  }

  lemma LeaveIs(s: Sys)
    ensures var t := s.(phase := Away, queue := []);
            Step(s, Leave) == Anew(t) && InFlight(t) == InFlight(s) && Ahead(t) == InFlight(s) && Ahead(s) == s.queue + InFlight(s)
  {
    var t := s.(phase := Away, queue := []);
    assert InFlight(t) == InFlight(s);
    hide InFlight, Anew;
    assert [] + InFlight(s) == InFlight(s);
  }

  lemma LeaveKeepsInv(ts: uint16, s: Sys)
    requires Inv(ts, s)
    ensures Inv(ts, Step(s, Leave))
  {
    var t := s.(phase := Away, queue := []);
    assert Core(ts, s);
    hide *;
    CoreParts(ts, s);
    LeaveIs(s);
    SoundBehind(ts, s.queue, InFlight(s));
    CoreIsKept(ts, s, t);
    AnewKeepsInv(ts, t);
  }

  lemma DrawKeepsInv(ts: uint16, s: Sys)
    requires Inv(ts, s)
    ensures Inv(ts, DrawnNext(s))
  {
    assert Core(ts, s);
    DrawKeepsLinked(s.watcher, s.broken);
    SameAhead(s, DrawnNext(s));
    hide *;
    CoreParts(ts, s);
    DrawnNextIs(s);
    HandOnKeepsInv(ts, s, DrawnNext(s));
  }

  lemma DrawnNextIs(s: Sys)
    ensures var t := DrawnNext(s);
            && t == s.(watcher := t.watcher) && t.watcher == s.watcher.(canvas := Viewer.Draw(s.watcher.canvas, s.broken))
            && Step(s, Draw) == t
  {
    hide Viewer.Draw;
  }

  lemma LogSplits(ts: uint16, log: seq<Message>, ms: seq<Message>) returns (before: seq<Message>)
    requires AllSound(ts, log) && EndsWith(log, ms) && AllSound(ts, ms)
    ensures log == before + ms && AllSound(ts, before)
    ensures FoldAll(BLANK, Deltas(ts, log)) == FoldAll(FoldAll(BLANK, Deltas(ts, before)), Deltas(ts, ms))
  {
    before := log[..|log| - |ms|];
    assert log == before + ms;
    DeltasAppend(ts, before, ms);
    FoldAppend(BLANK, Deltas(ts, before), Deltas(ts, ms));
  }

  lemma WholeIsSeen(payload: Blob)
    requires Octets(payload) && Decode(payload).Ok? && |payload| < 0x1_0000_0000
    ensures SeenIn(KeyMessage(payload)) == Some(Decode(payload).value)
  {
    hide Decode, Seen, Encode, Octets;
    DecodeAcceptsExactly(payload, Decode(payload).value);
    SeenIsDecoded(payload, |payload|);
    WholeSlice(payload);
  }

  lemma WholeSlice(payload: Blob)
    ensures payload[..|payload|] == payload
  {
  }

  /** What the keyframe puts on an empty screen agrees with the cache. */
  lemma KeyFrameAgrees(s: Screen, now: uint64, tiles: seq<Tile>, v: View)
    requires ScreenInv(s) && s.tiles != map[] && Lists(s.tiles, tiles) && |s.tiles| <= MAX_TILE_COUNT
    requires |Encode(KeyFrame(s, now, tiles))| < 0x1_0000_0000 && v.shown == map[]
    ensures var fd := SeenIn(KeyMessage(Encode(KeyFrame(s, now, tiles))));
            fd.Some? && Agree(s, Show(v, fd.value))
  {
    hide *;
    KeyFrameDecodes(s, now, tiles);
    var payload := Encode(KeyFrame(s, now, tiles));
    WholeIsSeen(payload);
    KeyFrameShown(s, Decode(payload).value, v);
  }

  lemma KeyFrameShown(s: Screen, fd: FrameDelta, v: View)
    requires Usable(fd) && SameGeometry(s, fd) && Fold(BLANK, fd).tiles == s.tiles && v.shown == map[]
    ensures Agree(s, Show(v, fd))
  {
    FoldOnBlank(fd);
    VisiblePaint(CacheGeometry(s), map[], fd.tiles);
    assert Visible(CacheGeometry(s), map[]) == map[];
  }

  /** The gap between registering and the keyframe is closed by what was queued meanwhile. */
  lemma SnapshotAgrees(ts: uint16, s: Sys, v: View)
    requires Core(ts, s) && Agree(s.fb, v)
    ensures Agree(s.fb, ShowAll(v, Deltas(ts, Ahead(s))))
  {
    var before := LogSplits(ts, s.log, Ahead(s));
    ReplayAgrees(ts, FoldAll(BLANK, Deltas(ts, before)), Deltas(ts, Ahead(s)), v);
  }

  lemma WatchKeepsLinked(w: Viewing, m: Message, broken: set<Tile>)
    requires Linked(w, broken)
    ensures Linked(Watch(w, m, broken), broken)
  {
    if SeenIn(m).Some? {
      SeeKeepsLinked(w, SeenIn(m).value, broken);
    }
  }

  /** What the keyframe, if there is one, makes of an empty screen. */
  lemma SnapshotShown(s: Sys, now: uint64, tiles: seq<Tile>)
    requires s.phase == Registered && ScreenInv(s.fb) && s.watcher.atOnce.shown == map[]
    ensures var t := Step(s, Snapshot(now, tiles));
            t.phase == Pumping && !t.cut ==> Agree(s.fb, t.watcher.atOnce)
  {
    if s.fb.tiles == map[] {
      assert Visible(CacheGeometry(s.fb), map[]) == map[];
    } else if Lists(s.fb.tiles, tiles) && !Step(s, Snapshot(now, tiles)).cut {
      hide Encode, KeyFrame, Lists, KeyMessage, ScreenInv, Agree;
      KeyFrameAgrees(s.fb, now, tiles, s.watcher.atOnce);
    }
  }

  lemma SnapshotKeepsLink(s: Sys, now: uint64, tiles: seq<Tile>)
    requires s.phase == Registered && Linked(s.watcher, s.broken)
    ensures Linked(Step(s, Snapshot(now, tiles)).watcher, s.broken)
  {
    hide Linked, Encode, KeyFrame, Lists, Watch, KeyMessage;
    if s.fb.tiles != map[] {
      WatchKeepsLinked(s.watcher, KeyMessage(Encode(KeyFrame(s.fb, now, tiles))), s.broken);
    }
  }

  lemma SnapshotKeepsInv(ts: uint16, s: Sys, now: uint64, tiles: seq<Tile>)
    requires Inv(ts, s) && s.phase == Registered
    ensures Inv(ts, Step(s, Snapshot(now, tiles)))
  {
    var t := Step(s, Snapshot(now, tiles));
    var u := s.(phase := Pumping, cut := t.cut, watcher := t.watcher);
    CoreParts(ts, s);
    SameAhead(s, u);
    if t != s {
      assert t == Anew(u);
      SnapshotShown(s, now, tiles);
      SnapshotKeepsLink(s, now, tiles);
      hide Core, InFlight, Ahead, AllSound, EndsWith, FoldAll, ShowAll, Agree, ScreenInv, Linked, Step, Anew;
      if Lossless(u) { SnapshotAgrees(ts, s, u.watcher.atOnce); }
      CoreIsKept(ts, s, u);
      AnewKeepsInv(ts, u);
    }
  }

  lemma DeltasOfOne(ts: uint16, m: Message)
    requires Sound(ts, m)
    ensures AllSound(ts, [m]) && Deltas(ts, [m]) == DeltaIn(ts, m)
  {
    hide Sound, Usable;
    assert [m][..0] == [];
    assert [] + DeltaIn(ts, m) == DeltaIn(ts, m);
  }

  lemma WatchOne(ts: uint16, w: Viewing, m: Message, broken: set<Tile>)
    requires Sound(ts, m)
    ensures Watch(w, m, broken).atOnce == ShowAll(w.atOnce, DeltaIn(ts, m))
  {
    SoundIsSeen(ts, m);
    hide Sound, SeenIn;
    if m.Frame? {
      var fd := Decode(m.payload).value;
      ShowSnoc(w.atOnce, [], fd);
      assert [] + [fd] == [fd];
    }
  }

  lemma WatchFirst(ts: uint16, w: Viewing, m: Message, rest: seq<Message>, broken: set<Tile>)
    requires Sound(ts, m) && AllSound(ts, rest)
    ensures AllSound(ts, [m] + rest)
    ensures ShowAll(w.atOnce, Deltas(ts, [m] + rest)) == ShowAll(Watch(w, m, broken).atOnce, Deltas(ts, rest))
  {
    hide *;
    DeltasOfOne(ts, m);
    DeltasAppend(ts, [m], rest);
    WatchOne(ts, w, m, broken);
    ShowAppend(w.atOnce, DeltaIn(ts, m), Deltas(ts, rest));
  }

  lemma AheadOfPump(s: Sys)
    requires s.phase == Pumping && s.queue != []
    ensures Ahead(s) == [s.queue[0]] + Ahead(Step(s, Pump))
  {
    assert s.queue == [s.queue[0]] + s.queue[1..];
    Assoc([s.queue[0]], s.queue[1..], InFlight(s));
  }

  lemma RestIsSound(ts: uint16, log: seq<Message>, m: Message, rest: seq<Message>)
    requires AllSound(ts, [m] + rest)
    ensures Sound(ts, m) && AllSound(ts, rest)
    ensures EndsWith(log, [m] + rest) ==> EndsWith(log, rest)
  {
    hide Sound, EndsWith;
    var all := [m] + rest;
    assert all[0] == m && all[1..] == rest;
    if EndsWith(log, all) { EndsWithLess(log, all); }
    assert forall i :: 0 <= i < |rest| ==> rest[i] == all[i + 1];
  }

  lemma PumpKeepsInv(ts: uint16, s: Sys)
    requires Inv(ts, s) && s.phase == Pumping && s.queue != []
    ensures Inv(ts, Step(s, Pump))
  {
    var t, m := Step(s, Pump), s.queue[0];
    CoreParts(ts, s);
    assert InFlight(t) == InFlight(s);
    AheadOfPump(s);
    hide Core, InFlight, Ahead, AllSound, EndsWith, FoldAll, ShowAll, Agree, ScreenInv, Linked, Watch;
    RestIsSound(ts, s.log, m, Ahead(t));
    WatchFirst(ts, s.watcher, m, Ahead(t), s.broken);
    WatchKeepsLinked(s.watcher, m, s.broken);
    CoreIsKept(ts, s, t);
  }

  lemma StepKeepsInv(ts: uint16, s: Sys, ev: Event)
    requires Inv(ts, s) && (ev.Publish? ==> Sound(ts, ev.m))
    ensures Inv(ts, Step(s, ev))
  {
    hide Inv, Sound, HandsOn;
    match ev
    case Publish(m) => if s.pending.None? { PublishKeepsInv(ts, s, m); }
    case Submit => SubmitHandsOn(s); HandingOnKeepsInv(ts, s, Step(s, Submit));
    case Take => TakeHandsOn(s); HandingOnKeepsInv(ts, s, Step(s, Take));
    case FanOut => if s.inHand.Some? { FanOutKeepsInv(ts, s); }
    case Register => if s.phase == Away { RegisterKeepsInv(ts, s); }
    case Snapshot(now, tiles) => if s.phase == Registered { SnapshotKeepsInv(ts, s, now, tiles); }
    case Pump => if s.phase == Pumping && s.queue != [] { PumpKeepsInv(ts, s); }
    case Draw => DrawnNextIs(s); DrawKeepsInv(ts, s);
    case Leave => LeaveKeepsInv(ts, s);
  }

  // ---------------------------------------------------------------- whole runs

  function Run(s: Sys, events: seq<Event>): Sys {
    if events == [] then s else Step(Run(s, events[..|events| - 1]), events[|events| - 1])
  }

  /** Every published frame is one the relay accepts, and the tile size never changes. */
  predicate Steady(ts: uint16, events: seq<Event>) {
    forall i :: 0 <= i < |events| && events[i].Publish? ==> Sound(ts, events[i].m)
  }

  lemma {:induction false} RunKeepsInv(ts: uint16, capacity: nat, broken: set<Tile>, events: seq<Event>)
    requires Steady(ts, events)
    ensures Inv(ts, Run(Initial(capacity, broken), events))
    decreases |events|
  {
    if events == [] {
      InitialInv(ts, capacity, broken);
    } else {
      var n := |events| - 1;
      RunKeepsInv(ts, capacity, broken, events[..n]);
      StepKeepsInv(ts, Run(Initial(capacity, broken), events[..n]), events[n]);
    }
  }

  lemma InitialInv(ts: uint16, capacity: nat, broken: set<Tile>)
    ensures Inv(ts, Initial(capacity, broken))
  {
    var s := Initial(capacity, broken);
    assert InFlight(s) == [] && Ahead(s) == [];
    ReopenedIsLinked(NO_CANVAS, broken);
  }

  /** The watcher is connected, and nothing was lost for it since its keyframe. */
  predicate Served(s: Sys) {
    s.phase == Pumping && Lossless(s)
  }

  /**
   Late join converges. However publishing, broadcasting, registering, the keyframe, the
   draining of the queue, the drawing, and leaving and registering again interleave, and
   whatever was lost before the keyframe: the relay's tiles are those painted since the
   resolution last changed, and a watcher that lost nothing since would show exactly the part of
   them that is on the screen, had it painted at once. As it is, once it has seen everything,
   its stains are exactly the positions at which it will differ from the relay when all is drawn.
   */
  lemma LateJoinConverges(ts: uint16, capacity: nat, broken: set<Tile>, events: seq<Event>)
    requires Steady(ts, events) && Served(Run(Initial(capacity, broken), events))
    ensures var s := Run(Initial(capacity, broken), events);
            var visible, drawn := Visible(CacheGeometry(s.fb), s.fb.tiles), Settled(s.watcher.canvas, s.broken);
            && AllSound(ts, s.log) && AllSound(ts, Ahead(s))
            && s.fb.tiles == Paint(map[], Segment(Deltas(ts, s.log)))
            && Agree(s.fb, ShowAll(s.watcher.atOnce, Deltas(ts, Ahead(s))))
            && (Ahead(s) == [] ==>
                  && (forall k: uint32 :: k in s.watcher.stains <==> Lookup(drawn, k) != Lookup(visible, k))
                  && (drawn == visible <==> s.watcher.stains == {})
                  && (s.watcher.canvas.chain == [] ==> s.watcher.canvas.shown == drawn))
  {
    RunKeepsInv(ts, capacity, broken, events);
    var s := Run(Initial(capacity, broken), events);
    var ds := Deltas(ts, s.log);
    if ds != [] {
      FoldClosed(ts, BLANK, ds);
    }
    if Ahead(s) == [] {
      DiffersAtStains(s.fb, s.watcher, s.broken);
    }
  }

  /**
   Whatever was lost, and whatever the keyframe left out: what the watcher will have painted
   agrees with the relay again exactly when the resolution changed between two deltas that came
   since, or those deltas painted over every position where something different was left. Then
   its stains are again all that it will differ in.
   */
  lemma RecoversExactlyWhen(ts: uint16, capacity: nat, broken: set<Tile>, events: seq<Event>) returns (before: seq<Message>)
    requires Steady(ts, events)
    ensures var s := Run(Initial(capacity, broken), events);
            && AllSound(ts, before) && AllSound(ts, s.since) && AllSound(ts, Ahead(s)) && s.log == before + s.since
            && (Agree(s.fb, ShowAll(s.watcher.atOnce, Deltas(ts, Ahead(s)))) <==>
                  Reunites(FoldAll(BLANK, Deltas(ts, before)), s.base, Deltas(ts, s.since)))
            && (Ahead(s) == [] && Reunites(FoldAll(BLANK, Deltas(ts, before)), s.base, Deltas(ts, s.since)) ==>
                  forall k: uint32 :: k in s.watcher.stains <==>
                    Lookup(Settled(s.watcher.canvas, s.broken), k) != Lookup(Visible(CacheGeometry(s.fb), s.fb.tiles), k))
  {
    RunKeepsInv(ts, capacity, broken, events);
    var s := Run(Initial(capacity, broken), events);
    before := LogSplits(ts, s.log, s.since);
    AgreesAgainIff(ts, FoldAll(BLANK, Deltas(ts, before)), s.base, Deltas(ts, s.since));
    hide Reunites, FoldAll;
    if Ahead(s) == [] && Agree(s.fb, s.watcher.atOnce) {
      DiffersAtStains(s.fb, s.watcher, s.broken);
    }
  }

  /** The delta that a step brings to the canvas. */
  function Arriving(s: Sys, ev: Event): Option<FrameDelta> {
    match ev
    case Pump => if s.phase != Pumping || s.queue == [] then None else SeenIn(s.queue[0])
    case Snapshot(now, tiles) =>
      if s.phase != Registered || s.fb.tiles == map[] || s.fb.width == 0 || !Lists(s.fb.tiles, tiles) then None
      else SeenIn(KeyMessage(Encode(KeyFrame(s.fb, now, tiles))))
    case _ => None
  }

  /**
   A change of resolution finds nothing undrawn that would still lie on the canvas, every tile
   that is the last for its position can be decoded, and registering finds the canvas empty.
   */
  predicate Patient(s: Sys, ev: Event) {
    var c, fd := s.watcher.canvas, Arriving(s, ev);
    && (fd.Some? ==>
          && Undrawn(OnScreenTiles(GeometryOf(fd.value), fd.value.tiles), s.broken) == {}
          && ((fd.value.width == c.width && fd.value.height == c.height) ||
              Waiting(fd.value.width, fd.value.height, c.chain, s.broken) == []))
    && (ev.Register? && s.phase == Away ==> Settled(c, s.broken) == map[])
  }

  ghost predicate PatientRun(capacity: nat, broken: set<Tile>, events: seq<Event>) {
    forall i :: 0 <= i < |events| ==> Patient(Run(Initial(capacity, broken), events[..i]), events[i])
  }

  lemma PatientStep(s: Sys, ev: Event)
    requires s.watcher.stains == {} && Patient(s, ev)
    ensures Step(s, ev).watcher.stains == {}
  {
    var fd := Arriving(s, ev);
    if fd.Some? {
      assert Step(s, ev).watcher == See(s.watcher, fd.value, s.broken);
    }
  }

  lemma PatientBefore(capacity: nat, broken: set<Tile>, events: seq<Event>)
    requires events != [] && PatientRun(capacity, broken, events)
    ensures PatientRun(capacity, broken, events[..|events| - 1])
  {
    hide Patient, Run;
    var front := events[..|events| - 1];
    forall i | 0 <= i < |front|
      ensures Patient(Run(Initial(capacity, broken), front[..i]), front[i])
    {
      assert front[i] == events[i] && front[..i] == events[..i];
    }
  }

  /** Where drawing keeps pace with the changes of resolution and all can be decoded, there are never any stains. */
  lemma {:induction false} PatientRunsHaveNoStains(capacity: nat, broken: set<Tile>, events: seq<Event>)
    requires PatientRun(capacity, broken, events)
    ensures Run(Initial(capacity, broken), events).watcher.stains == {}
    decreases |events|
  {
    if events == [] {
      assert Settled(NO_CANVAS, broken) == map[];
    } else {
      hide Patient, Step;
      var n := |events| - 1;
      PatientBefore(capacity, broken, events);
      PatientRunsHaveNoStains(capacity, broken, events[..n]);
      PatientStep(Run(Initial(capacity, broken), events[..n]), events[n]);
    }
  }

  /** Two watchers that joined at different times but saw the same history show the same, wherever neither has a stain. */
  lemma JoinTimeDoesNotMatter(ts: uint16, early: seq<Event>, late: seq<Event>, a0: Sys, b0: Sys, k: uint32)
    requires a0 == Initial(a0.capacity, a0.broken) && b0 == Initial(b0.capacity, b0.broken)
    requires Steady(ts, early) && Served(Run(a0, early)) && Ahead(Run(a0, early)) == []
    requires Steady(ts, late) && Served(Run(b0, late)) && Ahead(Run(b0, late)) == []
    requires Run(a0, early).log == Run(b0, late).log
    requires k !in Run(a0, early).watcher.stains && k !in Run(b0, late).watcher.stains
    ensures Lookup(Settled(Run(a0, early).watcher.canvas, Run(a0, early).broken), k) ==
            Lookup(Settled(Run(b0, late).watcher.canvas, Run(b0, late).broken), k)
  {
    LateJoinConverges(ts, a0.capacity, a0.broken, early);
    LateJoinConverges(ts, b0.capacity, b0.broken, late);
    RunKeepsInv(ts, a0.capacity, a0.broken, early);
    RunKeepsInv(ts, b0.capacity, b0.broken, late);
  }
}
