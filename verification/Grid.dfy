/**
 The two ends of the live-grid connection: the relay's writer, which multiplexes
 the channels of one connection under a credit window, and the dashboard's factory
 of virtual sockets. Each end is given as the effect of one event on its state.
 */
module Grid {
  import opened Bytes

  const MAX_SUBSCRIPTIONS := 16
  const MAX_INFLIGHT := 262144
  const LAST_SLOT := 65535
  const U64 := 0x1_0000_0000_0000_0000

  datatype Control = Sub(slot: nat, stream: string) | Unsub(slot: nat) | Ack(received: nat)

  /** A control as the connection carries it: the fields of its JSON, zero or empty where there are none. */
  datatype RawControl = RawControl(op: string, slot: nat, stream: string, received: nat)

  /** What the dashboard writes. */
  function Written(c: Control): RawControl {
    match c
    case Sub(slot, stream) => RawControl("sub", slot, stream, 0)
    case Unsub(slot) => RawControl("unsub", slot, "", 0)
    case Ack(received) => RawControl("ack", 0, "", received)
  }

  /** What the relay's control reader ends the connection for. */
  predicate Refused(flow: bool, validStream: string -> bool, m: RawControl) {
    && !(m.op == "ack" && flow && m.slot == 0)
    && !(m.op == "unsub" && m.slot != 0)
    && !(m.op == "sub" && m.slot != 0 && validStream(m.stream))
  }

  /** What the relay puts on the wire: the text that announces credit flow, or a binary packet. */
  datatype Wire = Hello | Data(bytes: Blob)

  function Packet(slot: nat, payload: Blob): Blob {
    [slot / 256 % 256, slot % 256] + payload
  }

  function SlotOf(bytes: Blob): int
    requires |bytes| >= 2
  {
    bytes[0] * 256 + bytes[1]
  }

  lemma PacketRoundTrip(slot: nat, payload: Blob)
    requires slot <= LAST_SLOT
    ensures SlotOf(Packet(slot, payload)) == slot && Packet(slot, payload)[2..] == payload
    ensures Packet(slot, payload)[0] * 256 + Packet(slot, payload)[1] == slot
  {
  }

  // ---------------------------------------------------------------- the relay's end

  /** The hub's queue for one subscription; `given` is everything the hub ever put into it. */
  datatype Feed = Feed(stream: string, queue: seq<Blob>, given: seq<Blob>, open: bool)

  datatype Subscription = Subscription(feed: nat, startup: nat)

  datatype Server = Server(flow: bool, sent: nat, acked: nat, subs: map<nat, Subscription>, feeds: seq<Feed>)

  function NewServer(flow: bool): Server { Server(flow, 0, 0, map[], []) }

  /** The subscriptions of a server refer to its feeds, each to its own. */
  predicate Linked(s: Server) {
    && (forall slot :: slot in s.subs ==> s.subs[slot].feed < |s.feeds|)
    && (forall a, b :: a in s.subs && b in s.subs && a != b ==> s.subs[a].feed != s.subs[b].feed)
  }

  /** The difference of two unsigned 64-bit counters, which wraps when the second is ahead. */
  function Ahead(a: nat, b: nat): int {
    if b <= a then a - b else a - b + U64
  }

  predicate CanSend(s: Server) {
    !s.flow || Ahead(s.sent, s.acked) < MAX_INFLIGHT
  }

  function Drop(s: Server, slot: nat): Server
    requires Linked(s)
  {
    if slot in s.subs then
      var f := s.subs[slot].feed;
      s.(subs := s.subs - {slot}, feeds := s.feeds[f := s.feeds[f].(open := false)])
    else s
  }

  /** One control; `hubs` are the channels that exist, `seed` what a new hub client starts with. */
  function Apply(s: Server, c: Control, hubs: set<string>, seed: seq<Blob>): Server
    requires Linked(s)
  {
    match c
    case Ack(received) => if s.acked < received <= s.sent then s.(acked := received) else s
    case Unsub(slot) => Drop(s, slot)
    case Sub(slot, stream) =>
      if slot !in s.subs && |s.subs| >= MAX_SUBSCRIPTIONS then s
      else
        var t := Drop(s, slot);
        if stream !in hubs then t
        else t.(subs := t.subs[slot := Subscription(|t.feeds|, 2)], feeds := t.feeds + [Feed(stream, seed, seed, true)])
  }

  /** The fragment at the head of a slot's queue is taken out and written. */
  function Send(s: Server, slot: nat): Server
    requires Linked(s) && slot in s.subs && s.feeds[s.subs[slot].feed].queue != []
  {
    var sub := s.subs[slot];
    var feed := s.feeds[sub.feed];
    s.(sent := s.sent + 2 + |feed.queue[0]|,
       subs := s.subs[slot := sub.(startup := if sub.startup > 0 then sub.startup - 1 else 0)],
       feeds := s.feeds[sub.feed := feed.(queue := feed.queue[1..])])
  }

  function HeadPacket(s: Server, slot: nat): Blob
    requires Linked(s) && slot in s.subs && s.feeds[s.subs[slot].feed].queue != []
  {
    Packet(slot, s.feeds[s.subs[slot].feed].queue[0])
  }

  // ---------------------------------------------------------------- the dashboard's end

  const CONNECTING := 0
  const OPEN := 1
  const CLOSED := 3

  /** One physical connection: its ready state, the variables of its handlers, and what was sent on it. */
  datatype Sock = Sock(ready: nat, up: bool, flow: bool, received: nat, out: seq<Control>)

  const NEW_SOCK := Sock(CONNECTING, false, false, 0, [])

  /** A virtual socket; `sock` is the connection it was made on, `delivered` what its handler got. */
  datatype Virtual = Virtual(slot: nat, stream: string, closed: bool, up: bool, sock: nat, delivered: seq<Blob>)

  datatype Client = Client(
    physical: Option<nat>, socks: seq<Sock>, nextSlot: nat,
    subscribers: map<nat, nat>, virtuals: seq<Virtual>,
    stopped: bool, legacy: bool, unhealthy: bool)

  const NEW_CLIENT := Client(None, [], 1, map[], [], false, false, false)

  predicate Indexed(c: Client) {
    && (c.physical.Some? ==> c.physical.value < |c.socks|)
    && forall slot :: slot in c.subscribers ==> c.subscribers[slot] < |c.virtuals|
  }

  function SendOn(c: Client, p: nat, control: Control): Client
    requires p < |c.socks|
  {
    c.(socks := c.socks[p := c.socks[p].(out := c.socks[p].out + [control])])
  }

  /** A control is sent only while the current connection is open. */
  function Command(c: Client, control: Control): Client
    requires Indexed(c)
  {
    if c.physical.Some? && c.socks[c.physical.value].ready == OPEN then SendOn(c, c.physical.value, control) else c
  }

  function OpenVirtual(c: Client, i: nat): Client
    requires Indexed(c) && i < |c.virtuals|
  {
    var v := c.virtuals[i];
    if v.closed || v.up then c
    else Command(c.(virtuals := c.virtuals[i := v.(up := true)]), Sub(v.slot, v.stream))
  }

  predicate Subscribed(c: Client, i: nat)
    requires i < |c.virtuals|
  {
    c.virtuals[i].slot in c.subscribers && c.subscribers[c.virtuals[i].slot] == i
  }

  /** The subscribers from the i-th virtual socket on are opened, oldest first. */
  function OpenAll(c: Client, i: nat): Client
    requires Indexed(c) && i <= |c.virtuals|
    decreases |c.virtuals| - i
  {
    if i == |c.virtuals| then c
    else OpenAll(if Subscribed(c, i) then OpenVirtual(c, i) else c, i + 1)
  }

  /** Every subscriber is closed and none is left. */
  function CloseSubscribers(c: Client): Client {
    c.(subscribers := map[],
       virtuals := seq(|c.virtuals|, i requires 0 <= i < |c.virtuals| =>
         if Subscribed(c, i) then c.virtuals[i].(closed := true) else c.virtuals[i]))
  }

  /** The current connection is given up; if it never opened, the old route is used from now on. */
  function Disconnect(c: Client, p: nat, up: bool): Client
    requires p < |c.socks|
  {
    if c.physical != Some(p) then c
    else
      CloseSubscribers(c.(physical := None, unhealthy := true, legacy := c.legacy || !up,
                          socks := c.socks[p := c.socks[p].(ready := CLOSED)]))
  }

  function Connect(c: Client): Client {
    if c.physical.Some? then c else c.(physical := Some(|c.socks|), socks := c.socks + [NEW_SOCK])
  }

  /** Before a slot number can come round again, the connection it was used on is given up. */
  function Recycle(c: Client): Client
    requires Indexed(c)
  {
    if c.nextSlot <= LAST_SLOT then c
    else
      var d := c.(nextSlot := 1);
      if d.physical.Some? then Disconnect(d, d.physical.value, true) else d
  }

  /** A new virtual socket on the next slot, once the slots have been recycled if need be. */
  function Allocate(c: Client, stream: string): Client
    requires Indexed(c) && c.nextSlot <= LAST_SLOT
  {
    var d := Connect(c);
    var i, p := |d.virtuals|, d.physical.value;
    var v := Virtual(d.nextSlot, stream, false, false, p, []);
    var e := d.(nextSlot := d.nextSlot + 1, virtuals := d.virtuals + [v], subscribers := d.subscribers[d.nextSlot := i]);
    if e.socks[p].ready == OPEN then OpenVirtual(e, i) else e
  }

  function CloseVirtual(c: Client, i: nat): Client
    requires Indexed(c) && i < |c.virtuals|
  {
    var v := c.virtuals[i];
    if v.closed then c
    else Command(c.(virtuals := c.virtuals[i := v.(closed := true)], subscribers := c.subscribers - {v.slot}), Unsub(v.slot))
  }

  /** The connection is established, if it is still the current one. */
  function OnOpen(c: Client, p: nat): Client
    requires Indexed(c) && p < |c.socks|
  {
    if c.physical != Some(p) then c
    else OpenAll(c.(socks := c.socks[p := c.socks[p].(ready := OPEN, up := true)], unhealthy := false), 0)
  }

  function Dispatch(c: Client, bytes: Blob): Client
    requires Indexed(c) && |bytes| >= 2
  {
    var slot := SlotOf(bytes);
    if slot in c.subscribers && !c.virtuals[c.subscribers[slot]].closed then
      var i := c.subscribers[slot];
      c.(virtuals := c.virtuals[i := c.virtuals[i].(delivered := c.virtuals[i].delivered + [bytes[2..]])])
    else c
  }

  /** A message arrives on connection p. */
  function OnMessage(c: Client, p: nat, m: Wire): Client
    requires Indexed(c) && p < |c.socks|
  {
    if c.physical != Some(p) then c
    else match m
      case Hello => c.(socks := c.socks[p := c.socks[p].(flow := true)])
      case Data(bytes) =>
        if |bytes| < 2 then c
        else if !c.socks[p].flow then Dispatch(c, bytes)
        else
          var received := c.socks[p].received + |bytes|;
          Dispatch(SendOn(c.(socks := c.socks[p := c.socks[p].(received := received)]), p, Ack(received)), bytes)
  }

  function IdleFires(c: Client): Client
    requires Indexed(c)
  {
    if c.subscribers != map[] || c.physical.None? then c
    else c.(physical := None, socks := c.socks[c.physical.value := c.socks[c.physical.value].(ready := CLOSED)])
  }

  function CloseFactory(c: Client): Client
    requires Indexed(c)
  {
    var d := if c.physical.None? then c
             else c.(socks := c.socks[c.physical.value := c.socks[c.physical.value].(ready := CLOSED)]);
    CloseSubscribers(d.(physical := None, stopped := true))
  }
}
