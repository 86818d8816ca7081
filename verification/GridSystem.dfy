/**
 The live grid as one transition system: the dashboard's factory, one relay writer
 per physical connection, and the two in-order pipes between them. What is proved
 holds in every run, whatever the order of the events.
 */
module GridSystem {
  import opened Bytes
  import opened Grid

  /**
   One connection seen from the relay: its writer, how many of the controls sent it
   has read, everything it wrote, and how much of that has arrived. So the controls
   in transit are `out[read..]` and the messages in transit `log[seen..]`. `owner`
   records which feed each slot was given.
   */
  datatype End = End(server: Server, read: nat, log: seq<Wire>, seen: nat, owner: map<nat, nat>)

  datatype Sys = Sys(flow: bool, hubs: set<string>, client: Client, ends: seq<End>)

  datatype Event =
    // the dashboard
    | Recycles | Opens(stream: string) | Closes(i: nat) | Disposes
    | SockOpens(p: nat) | SockBreaks(p: nat) | SockGone(p: nat) | IdleTimer | StartupTimer(p: nat)
    | Arrives(p: nat)
    // the relay
    | Reads(p: nat, seed: seq<Blob>) | Sends(p: nat, slot: nat) | SeesClosed(p: nat, slot: nat)
    | HubGives(p: nat, feed: nat, frag: Blob) | HubCloses(p: nat, feed: nat)

  function NewEnd(flow: bool): End {
    End(NewServer(flow), 0, if flow then [Hello] else [], 0, map[])
  }

  predicate WellFormed(s: Sys) {
    && Indexed(s.client)
    && |s.ends| == |s.client.socks|
    && (forall p :: 0 <= p < |s.ends| ==> Linked(s.ends[p].server))
    && (forall p :: 0 <= p < |s.ends| ==> s.ends[p].read <= |s.client.socks[p].out| && s.ends[p].seen <= |s.ends[p].log|)
  }

  // ---------------------------------------------------------------- one event

  function ReadOne(e: End, c: Control, hubs: set<string>, seed: seq<Blob>): End
    requires Linked(e.server)
  {
    var t := Apply(e.server, c, hubs, seed);
    End(t, e.read + 1, e.log, e.seen,
        if c.Sub? && |t.feeds| > |e.server.feeds| then e.owner[c.slot := |e.server.feeds|] else e.owner)
  }

  predicate HasHead(e: End, slot: nat)
    requires Linked(e.server)
  {
    slot in e.server.subs && e.server.feeds[e.server.subs[slot].feed].queue != []
  }

  function SendOne(e: End, slot: nat): End
    requires Linked(e.server) && HasHead(e, slot)
  {
    e.(server := Send(e.server, slot), log := e.log + [Data(HeadPacket(e.server, slot))])
  }

  function GiveOne(e: End, f: nat, frag: Blob): End
    requires f < |e.server.feeds|
  {
    var feed := e.server.feeds[f];
    e.(server := e.server.(feeds := e.server.feeds[f := feed.(queue := feed.queue + [frag], given := feed.given + [frag])]))
  }

  /**
   An event that is not possible in the state changes nothing. A connection that was given
   up may still open, and what was on its way may still arrive on it: that its handlers
   are called after `close()` is not ruled out, the guards in them are what matters.
   */
  function Step(s: Sys, ev: Event): Sys
    requires WellFormed(s)
  {
    var c := s.client;
    match ev
    case Recycles => s.(client := Recycle(c))
    case Opens(stream) =>
      if c.stopped || c.legacy || c.nextSlot > LAST_SLOT then s
      else
        var d := Allocate(c, stream);
        s.(client := d, ends := if |d.socks| > |s.ends| then s.ends + [NewEnd(s.flow)] else s.ends)
    case Closes(i) => if i < |c.virtuals| then s.(client := CloseVirtual(c, i)) else s
    case Disposes => s.(client := CloseFactory(c))
    case SockOpens(p) =>
      if p < |c.socks| && (c.socks[p].ready == CONNECTING || c.physical != Some(p)) then s.(client := OnOpen(c, p)) else s
    case SockBreaks(p) =>
      if p < |c.socks| then s.(client := c.(socks := c.socks[p := c.socks[p].(ready := CLOSED)])) else s
    case SockGone(p) =>
      if p < |c.socks| && c.socks[p].ready == CLOSED then s.(client := Disconnect(c, p, c.socks[p].up)) else s
    case StartupTimer(p) => if p < |c.socks| && !c.socks[p].up then s.(client := Disconnect(c, p, false)) else s
    case IdleTimer => s.(client := IdleFires(c))
    case Arrives(p) =>
      if p < |c.socks| && (c.socks[p].ready == OPEN || c.physical != Some(p)) && s.ends[p].seen < |s.ends[p].log| then
        var e := s.ends[p];
        s.(client := OnMessage(c, p, e.log[e.seen]), ends := s.ends[p := e.(seen := e.seen + 1)])
      else s
    case Reads(p, seed) =>
      if p < |c.socks| && s.ends[p].read < |c.socks[p].out| then
        s.(ends := s.ends[p := ReadOne(s.ends[p], c.socks[p].out[s.ends[p].read], s.hubs, seed)])
      else s
    case Sends(p, slot) =>
      if p < |s.ends| && HasHead(s.ends[p], slot) && CanSend(s.ends[p].server)
      then s.(ends := s.ends[p := SendOne(s.ends[p], slot)])
      else s
    case SeesClosed(p, slot) =>
      if p < |s.ends| && slot in s.ends[p].server.subs && !HasHead(s.ends[p], slot)
         && !s.ends[p].server.feeds[s.ends[p].server.subs[slot].feed].open
      then s.(ends := s.ends[p := s.ends[p].(server := Drop(s.ends[p].server, slot))])
      else s
    case HubGives(p, f, frag) =>
      if p < |s.ends| && f < |s.ends[p].server.feeds| && s.ends[p].server.feeds[f].open
      then s.(ends := s.ends[p := GiveOne(s.ends[p], f, frag)])
      else s
    case HubCloses(p, f) =>
      if p < |s.ends| && f < |s.ends[p].server.feeds|
      then
        var t := s.ends[p].server;
        s.(ends := s.ends[p := s.ends[p].(server := t.(feeds := t.feeds[f := t.feeds[f].(open := false)]))])
      else s
  }

  // ---------------------------------------------------------------- what is kept: the dashboard

  /** The factory's own bookkeeping. */
  ghost predicate ClientInv(c: Client) {
    && Indexed(c)
    && (c.physical.Some? ==> c.physical.value == |c.socks| - 1)
    && 1 <= c.nextSlot
    && (forall slot :: slot in c.subscribers ==>
          var v := c.virtuals[c.subscribers[slot]]; v.slot == slot && !v.closed && c.physical == Some(v.sock))
    && (forall i :: 0 <= i < |c.virtuals| ==>
          var v := c.virtuals[i];
          && 1 <= v.slot <= LAST_SLOT && v.sock < |c.socks|
          && (!v.closed ==> Subscribed(c, i))
          && (c.physical == Some(v.sock) ==> v.slot < c.nextSlot))
    && (forall i, j :: 0 <= i < j < |c.virtuals| && c.virtuals[i].sock == c.virtuals[j].sock ==>
          c.virtuals[i].slot != c.virtuals[j].slot)
  }

  /** Every subscription sent on a connection is that of a virtual socket made on it. */
  ghost predicate Announced(c: Client, p: nat, slot: nat, stream: string) {
    exists i :: 0 <= i < |c.virtuals| && c.virtuals[i].sock == p && c.virtuals[i].slot == slot
                && c.virtuals[i].stream == stream && c.virtuals[i].up
  }

  ghost predicate SubsAnnounced(c: Client, p: nat)
    requires p < |c.socks|
  {
    forall k :: 0 <= k < |c.socks[p].out| && c.socks[p].out[k].Sub? ==>
      Announced(c, p, c.socks[p].out[k].slot, c.socks[p].out[k].stream)
  }

  /** No slot is subscribed twice on one connection. */
  ghost predicate UniqueSubs(out: seq<Control>) {
    forall k, l :: 0 <= k < l < |out| && out[k].Sub? && out[l].Sub? ==> out[k].slot != out[l].slot
  }

  ghost predicate CInv(c: Client) {
    && ClientInv(c)
    && (forall p :: 0 <= p < |c.socks| ==> SubsAnnounced(c, p))
    && (forall p :: 0 <= p < |c.socks| ==> UniqueSubs(c.socks[p].out))
  }

  // ---------------------------------------------------------------- what is kept: the relay

  /** The payloads that were written for one slot, in order. */
  function ForSlot(log: seq<Wire>, slot: nat): seq<Blob> {
    if log == [] then []
    else
      var m := log[|log| - 1];
      ForSlot(log[..|log| - 1], slot) +
      if m.Data? && |m.bytes| >= 2 && SlotOf(m.bytes) == slot then [m.bytes[2..]] else []
  }

  function Volume(log: seq<Wire>): nat {
    if log == [] then 0
    else Volume(log[..|log| - 1]) + if log[|log| - 1].Data? then |log[|log| - 1].bytes| else 0
  }

  /** The last acknowledgement among the controls, 0 if there is none. */
  function LastAck(out: seq<Control>): nat {
    if out == [] then 0
    else if out[|out| - 1].Ack? then out[|out| - 1].received
    else LastAck(out[..|out| - 1])
  }

  ghost predicate AcksGrow(out: seq<Control>) {
    forall k {:trigger LastAck(out[..k])} :: 0 <= k < |out| && out[k].Ack? ==> LastAck(out[..k]) < out[k].received
  }

  /** A slot that was given a feed was subscribed to that stream, and was sent a prefix of the feed. */
  ghost predicate Owned(e: End, out: seq<Control>)
    requires e.read <= |out|
  {
    forall slot :: slot in e.owner ==>
      && e.owner[slot] < |e.server.feeds|
      && Sub(slot, e.server.feeds[e.owner[slot]].stream) in out[..e.read]
      && ForSlot(e.log, slot) <= e.server.feeds[e.owner[slot]].given
  }

  /** What was sent for the slot and what is queued make up the feed. */
  ghost predicate Whole(e: End, slot: nat, feed: nat)
    requires feed < |e.server.feeds|
  {
    ForSlot(e.log, slot) + e.server.feeds[feed].queue == e.server.feeds[feed].given
  }

  /** How many of its first two messages a channel has yet to send. */
  function Startup(sent: nat): nat {
    if sent >= 2 then 0 else 2 - sent
  }

  ghost predicate Live(e: End)
    requires Linked(e.server)
  {
    forall slot :: slot in e.server.subs ==>
      && slot in e.owner && e.owner[slot] == e.server.subs[slot].feed
      && e.server.subs[slot].startup == Startup(|ForSlot(e.log, slot)|)
      && Whole(e, slot, e.server.subs[slot].feed)
  }

  ghost predicate Routed(e: End, out: seq<Control>)
    requires Linked(e.server) && e.read <= |out|
  {
    && Owned(e, out)
    && Live(e)
    && (forall slot: nat :: slot !in e.owner ==> ForSlot(e.log, slot) == [])
    && (forall a, b :: a in e.owner && b in e.owner && a != b ==> e.owner[a] != e.owner[b])
  }

  ghost predicate WireInv(e: End) {
    && (forall k :: 0 <= k < |e.log| ==>
          if k == 0 && e.server.flow then e.log[k].Hello? else e.log[k].Data? && |e.log[k].bytes| >= 2)
    && (e.server.flow ==> e.log != [])
    && e.seen <= |e.log|
    && e.server.sent == Volume(e.log)
  }

  /** Credit: what the relay counts as acknowledged is what the dashboard has counted and reported. */
  ghost predicate CreditInv(e: End, sock: Sock, current: bool)
    requires e.read <= |sock.out| && e.seen <= |e.log|
  {
    && AcksGrow(sock.out)
    && LastAck(sock.out) <= Volume(e.log[..e.seen])
    && e.server.acked == LastAck(sock.out[..e.read])
    && (current && e.server.flow ==>
          && (sock.flow <==> e.seen > 0)
          && sock.received == Volume(e.log[..e.seen]) == LastAck(sock.out))
    && (!e.server.flow ==> !sock.flow)
  }

  /** Never more in flight than the window and the packet that filled it. */
  ghost predicate WindowInv(e: End) {
    e.server.flow && e.log != [] && e.log[|e.log| - 1].Data? ==>
      e.server.sent - e.server.acked < MAX_INFLIGHT + |e.log[|e.log| - 1].bytes|
  }

  /** A virtual socket has got what arrived for its slot: all of it while it is open. */
  ghost predicate DeliveredInv(v: Virtual, e: End)
    requires e.seen <= |e.log|
  {
    && v.delivered <= ForSlot(e.log[..e.seen], v.slot)
    && (!v.closed ==> v.delivered == ForSlot(e.log[..e.seen], v.slot))
  }

  ghost predicate EndInv(s: Sys, p: nat)
    requires WellFormed(s) && p < |s.ends|
  {
    var e, sock := s.ends[p], s.client.socks[p];
    && e.server.flow == s.flow
    && Routed(e, sock.out)
    && WireInv(e)
    && CreditInv(e, sock, s.client.physical == Some(p))
    && WindowInv(e)
  }

  ghost predicate Inv(s: Sys) {
    && WellFormed(s)
    && CInv(s.client)
    && (forall p :: 0 <= p < |s.ends| ==> EndInv(s, p))
    && (forall i :: 0 <= i < |s.client.virtuals| ==> DeliveredInv(s.client.virtuals[i], s.ends[s.client.virtuals[i].sock]))
  }

  // ---------------------------------------------------------------- the dashboard keeps its part

  /** Controls other than acknowledgements were appended, and nothing else was sent. */
  ghost predicate Appended(out: seq<Control>, more: seq<Control>) {
    && out <= more
    && forall k :: |out| <= k < |more| ==> !more[k].Ack?
  }

  /** No message handler ran: what the relay's side depends on is as before. */
  ghost predicate Quiet(c: Client, d: Client) {
    && |d.socks| == |c.socks| && |d.virtuals| == |c.virtuals|
    && (d.physical == c.physical || d.physical.None?)
    && (forall p :: 0 <= p < |c.socks| ==>
          && d.socks[p].flow == c.socks[p].flow && d.socks[p].received == c.socks[p].received
          && Appended(c.socks[p].out, d.socks[p].out))
    && (forall i :: 0 <= i < |c.virtuals| ==>
          var v, w := c.virtuals[i], d.virtuals[i];
          && w.slot == v.slot && w.stream == v.stream && w.sock == v.sock && w.delivered == v.delivered
          && (v.closed ==> w.closed) && (v.up ==> w.up))
  }

  lemma QuietIsTransitive(c: Client, d: Client, e: Client)
    requires Quiet(c, d) && Quiet(d, e)
    ensures Quiet(c, e)
  {
    forall p | 0 <= p < |c.socks|
      ensures Appended(c.socks[p].out, e.socks[p].out)
    {
      assert Appended(c.socks[p].out, d.socks[p].out) && Appended(d.socks[p].out, e.socks[p].out);
    }
  }

  lemma QuietKeepsAnnounced(c: Client, d: Client, p: nat, slot: nat, stream: string)
    requires Quiet(c, d) && Announced(c, p, slot, stream)
    ensures Announced(d, p, slot, stream)
  {
    var i :| 0 <= i < |c.virtuals| && c.virtuals[i].sock == p && c.virtuals[i].slot == slot
             && c.virtuals[i].stream == stream && c.virtuals[i].up;
    assert d.virtuals[i].up;
  }

  /** A quiet change that sends no subscription keeps all that is said about subscriptions. */
  lemma QuietKeepsCInv(c: Client, d: Client)
    requires CInv(c) && Quiet(c, d) && ClientInv(d)
    requires forall p, k :: 0 <= p < |c.socks| && |c.socks[p].out| <= k < |d.socks[p].out| ==> !d.socks[p].out[k].Sub?
    ensures CInv(d)
  {
    forall p | 0 <= p < |d.socks|
      ensures SubsAnnounced(d, p) && UniqueSubs(d.socks[p].out)
    {
      assert SubsAnnounced(c, p) && UniqueSubs(c.socks[p].out);
      assert Appended(c.socks[p].out, d.socks[p].out);
      forall k | 0 <= k < |d.socks[p].out| && d.socks[p].out[k].Sub?
        ensures Announced(d, p, d.socks[p].out[k].slot, d.socks[p].out[k].stream)
      {
        assert d.socks[p].out[k] == c.socks[p].out[k];
        QuietKeepsAnnounced(c, d, p, d.socks[p].out[k].slot, d.socks[p].out[k].stream);
      }
    }
  }

  lemma MarkUpKeeps(c: Client, i: nat)
    requires CInv(c) && i < |c.virtuals| && !c.virtuals[i].closed
    ensures var marked := c.(virtuals := c.virtuals[i := c.virtuals[i].(up := true)]);
            CInv(marked) && Quiet(c, marked)
  {
    var marked := c.(virtuals := c.virtuals[i := c.virtuals[i].(up := true)]);
    assert Quiet(c, marked);
    assert ClientInv(marked);
    QuietKeepsCInv(c, marked);
  }

  /** A virtual socket that was not announced yet has no subscription among the controls. */
  lemma NotAnnounced(c: Client, i: nat)
    requires CInv(c) && i < |c.virtuals| && !c.virtuals[i].up
    ensures var out := c.socks[c.virtuals[i].sock].out;
            forall k :: 0 <= k < |out| && out[k].Sub? ==> out[k].slot != c.virtuals[i].slot
  {
    var p := c.virtuals[i].sock;
    assert SubsAnnounced(c, p);
    forall k | 0 <= k < |c.socks[p].out| && c.socks[p].out[k].Sub?
      ensures c.socks[p].out[k].slot != c.virtuals[i].slot
    {
      assert Announced(c, p, c.socks[p].out[k].slot, c.socks[p].out[k].stream);
    }
  }

  /** A virtual socket is announced once, on its own connection. */
  lemma OpenVirtualKeeps(c: Client, i: nat)
    requires CInv(c) && i < |c.virtuals| && Subscribed(c, i)
    ensures CInv(OpenVirtual(c, i)) && Quiet(c, OpenVirtual(c, i))
  {
    var v, d := c.virtuals[i], OpenVirtual(c, i);
    if !v.up {
      MarkUpKeeps(c, i);
      var marked := c.(virtuals := c.virtuals[i := v.(up := true)]);
      if c.socks[v.sock].ready == OPEN {
        NotAnnounced(c, i);
        assert marked.virtuals[i].up;
        assert Announced(marked, v.sock, v.slot, v.stream);
        SendSubKeeps(marked, v.sock, v.slot, v.stream);
        QuietIsTransitive(c, marked, d);
      }
    }
  }

  lemma SendSubKeeps(c: Client, p: nat, slot: nat, stream: string)
    requires CInv(c) && p < |c.socks| && Announced(c, p, slot, stream)
    requires forall k :: 0 <= k < |c.socks[p].out| && c.socks[p].out[k].Sub? ==> c.socks[p].out[k].slot != slot
    ensures CInv(SendOn(c, p, Sub(slot, stream))) && Quiet(c, SendOn(c, p, Sub(slot, stream)))
  {
    var d := SendOn(c, p, Sub(slot, stream));
    assert UniqueSubs(c.socks[p].out);
    assert UniqueSubs(d.socks[p].out);
    assert ClientInv(d);
    forall q | 0 <= q < |d.socks|
      ensures SubsAnnounced(d, q)
    {
      assert SubsAnnounced(c, q);
      forall k | 0 <= k < |d.socks[q].out| && d.socks[q].out[k].Sub?
        ensures Announced(d, q, d.socks[q].out[k].slot, d.socks[q].out[k].stream)
      {
        if q != p || k < |c.socks[q].out| {
          assert d.socks[q].out[k] == c.socks[q].out[k];
          assert Announced(c, q, d.socks[q].out[k].slot, d.socks[q].out[k].stream);
        }
      }
    }
  }

  lemma {:induction false} OpenAllKeeps(c: Client, i: nat)
    requires CInv(c) && i <= |c.virtuals|
    ensures CInv(OpenAll(c, i)) && Quiet(c, OpenAll(c, i))
    decreases |c.virtuals| - i
  {
    if i < |c.virtuals| {
      if Subscribed(c, i) {
        OpenVirtualKeeps(c, i);
        var d := OpenVirtual(c, i);
        OpenAllKeeps(d, i + 1);
        QuietIsTransitive(c, d, OpenAll(d, i + 1));
      } else {
        OpenAllKeeps(c, i + 1);
      }
    }
  }

  function Unlisted(c: Client, i: nat): Client
    requires i < |c.virtuals|
  {
    c.(virtuals := c.virtuals[i := c.virtuals[i].(closed := true)], subscribers := c.subscribers - {c.virtuals[i].slot})
  }

  lemma UnlistKeeps(c: Client, i: nat)
    requires CInv(c) && i < |c.virtuals| && !c.virtuals[i].closed
    ensures CInv(Unlisted(c, i)) && Quiet(c, Unlisted(c, i))
  {
    assert Subscribed(c, i);
    assert Quiet(c, Unlisted(c, i));
    assert ClientInv(Unlisted(c, i));
    QuietKeepsCInv(c, Unlisted(c, i));
  }

  lemma CloseVirtualKeeps(c: Client, i: nat)
    requires CInv(c) && i < |c.virtuals|
    ensures CInv(CloseVirtual(c, i)) && Quiet(c, CloseVirtual(c, i))
  {
    if c.virtuals[i].closed {
      ReflagKeeps(c, c);
    } else {
      var e, unsub := Unlisted(c, i), Unsub(c.virtuals[i].slot);
      UnlistKeeps(c, i);
      CommandKeeps(e, unsub);
      QuietIsTransitive(c, e, Command(e, unsub));
    }
  }

  lemma CommandKeeps(c: Client, control: Control)
    requires CInv(c) && control.Unsub?
    ensures CInv(Command(c, control)) && Quiet(c, Command(c, control))
  {
    CommandKeepsClientInv(c, control);
    CommandIsQuiet(c, control);
    QuietKeepsCInv(c, Command(c, control));
  }

  lemma CommandIs(c: Client, control: Control)
    requires Indexed(c)
    ensures var d := Command(c, control); d == c.(socks := d.socks) && |d.socks| == |c.socks|
  {
  }

  lemma CommandKeepsClientInv(c: Client, control: Control)
    requires ClientInv(c) && control.Unsub?
    ensures ClientInv(Command(c, control))
  {
    CommandIs(c, control);
  }

  lemma CommandIsQuiet(c: Client, control: Control)
    requires Indexed(c) && control.Unsub?
    ensures Quiet(c, Command(c, control))
  {
  }

  /** Changes of flags and ready states, giving the connection up only when nobody uses it. */
  ghost predicate Reflagged(c: Client, d: Client) {
    && d.virtuals == c.virtuals && d.subscribers == c.subscribers && |d.socks| == |c.socks|
    && (forall p :: 0 <= p < |c.socks| ==>
          && d.socks[p].flow == c.socks[p].flow && d.socks[p].received == c.socks[p].received
          && d.socks[p].out == c.socks[p].out)
  }

  lemma ReflagKeeps(c: Client, d: Client)
    requires CInv(c) && Reflagged(c, d)
    requires (d.physical == c.physical && d.nextSlot == c.nextSlot) || (d.physical.None? && c.subscribers == map[] && d.nextSlot >= 1)
    ensures CInv(d) && Quiet(c, d)
  {
    assert ClientInv(d);
    assert Quiet(c, d);
    QuietKeepsCInv(c, d);
  }

  /** Giving the connection up closes everyone who used it. */
  lemma CloseSubscribersKeeps(c: Client, d: Client)
    requires CInv(c) && Reflagged(c, d) && d.physical.None? && d.nextSlot >= 1
    ensures CInv(CloseSubscribers(d)) && Quiet(c, CloseSubscribers(d))
  {
    var e := CloseSubscribers(d);
    forall i | 0 <= i < |e.virtuals|
      ensures e.virtuals[i].closed
    {
      assert !c.virtuals[i].closed ==> Subscribed(c, i);
    }
    assert ClientInv(e);
    assert Quiet(c, e);
    QuietKeepsCInv(c, e);
  }

  lemma DisconnectKeeps(c: Client, p: nat, up: bool)
    requires CInv(c) && p < |c.socks|
    ensures CInv(Disconnect(c, p, up)) && Quiet(c, Disconnect(c, p, up))
  {
    if c.physical == Some(p) {
      CloseSubscribersKeeps(c, c.(physical := None, unhealthy := true, legacy := c.legacy || !up,
                                  socks := c.socks[p := c.socks[p].(ready := CLOSED)]));
    } else {
      ReflagKeeps(c, c);
    }
  }

  lemma RecycleKeeps(c: Client)
    requires CInv(c)
    ensures CInv(Recycle(c)) && Quiet(c, Recycle(c))
  {
    if c.nextSlot <= LAST_SLOT {
      ReflagKeeps(c, c);
    } else if c.physical.Some? {
      var d := c.(nextSlot := 1);
      CloseSubscribersKeeps(c, d.(physical := None, unhealthy := true, legacy := d.legacy || !true,
                                  socks := d.socks[d.physical.value := d.socks[d.physical.value].(ready := CLOSED)]));
    } else {
      assert c.subscribers == map[];
      ReflagKeeps(c, c.(nextSlot := 1));
    }
  }

  lemma OnOpenKeeps(c: Client, p: nat)
    requires CInv(c) && p < |c.socks|
    ensures CInv(OnOpen(c, p)) && Quiet(c, OnOpen(c, p))
  {
    if c.physical == Some(p) {
      var d := c.(socks := c.socks[p := c.socks[p].(ready := OPEN, up := true)], unhealthy := false);
      ReflagKeeps(c, d);
      OpenAllKeeps(d, 0);
      QuietIsTransitive(c, d, OpenAll(d, 0));
    } else {
      ReflagKeeps(c, c);
    }
  }

  lemma IdleFiresKeeps(c: Client)
    requires CInv(c)
    ensures CInv(IdleFires(c)) && Quiet(c, IdleFires(c))
  {
    ReflagKeeps(c, IdleFires(c));
  }

  lemma CloseFactoryKeeps(c: Client)
    requires CInv(c)
    ensures CInv(CloseFactory(c)) && Quiet(c, CloseFactory(c))
  {
    var d := if c.physical.None? then c
             else c.(socks := c.socks[c.physical.value := c.socks[c.physical.value].(ready := CLOSED)]);
    CloseSubscribersKeeps(c, d.(physical := None, stopped := true));
  }

  // ---------------------------------------------------------------- the relay's part under a quiet change

  lemma {:induction false} LastAckAppended(out: seq<Control>, more: seq<Control>)
    requires Appended(out, more)
    ensures LastAck(more) == LastAck(out)
    decreases |more|
  {
    if |out| < |more| {
      assert Appended(out, more[..|more| - 1]);
      LastAckAppended(out, more[..|more| - 1]);
    } else {
      assert more == out;
    }
  }

  lemma AcksGrowAppended(out: seq<Control>, more: seq<Control>)
    requires Appended(out, more) && AcksGrow(out)
    ensures AcksGrow(more)
  {
    forall k | 0 <= k < |more| && more[k].Ack?
      ensures LastAck(more[..k]) < more[k].received
    {
      assert k < |out|;
      assert more[k] == out[k] && out[k].Ack?;
      assert LastAck(out[..k]) < out[k].received;
      assert more[..k] == out[..k];
    }
  }

  lemma QuietKeepsEnd(s: Sys, d: Client, p: nat)
    requires Inv(s) && Quiet(s.client, d) && WellFormed(s.(client := d)) && p < |s.ends|
    ensures EndInv(s.(client := d), p)
  {
    var e, sock, moved := s.ends[p], s.client.socks[p], d.socks[p];
    assert EndInv(s, p);
    assert Appended(sock.out, moved.out);
    LastAckAppended(sock.out, moved.out);
    AcksGrowAppended(sock.out, moved.out);
    assert moved.out[..e.read] == sock.out[..e.read];
  }

  lemma QuietKeepsInv(s: Sys, d: Client)
    requires Inv(s) && CInv(d) && Quiet(s.client, d)
    ensures Inv(s.(client := d))
  {
    var t := s.(client := d);
    forall p | 0 <= p < |s.ends|
      ensures t.ends[p].read <= |d.socks[p].out|
    {
      assert Appended(s.client.socks[p].out, d.socks[p].out);
    }
    assert WellFormed(t);
    forall p | 0 <= p < |s.ends|
      ensures EndInv(t, p)
    {
      QuietKeepsEnd(s, d, p);
    }
    forall i | 0 <= i < |d.virtuals|
      ensures DeliveredInv(d.virtuals[i], s.ends[d.virtuals[i].sock])
    {
      assert DeliveredInv(s.client.virtuals[i], s.ends[s.client.virtuals[i].sock]);
    }
  }

  // ---------------------------------------------------------------- the relay keeps its part

  /** What the relay's own events leave alone on connection p. */
  ghost predicate RelayMoves(e: End, f: End) {
    && Linked(f.server) && f.server.flow == e.server.flow && f.seen == e.seen && e.log <= f.log
  }

  lemma RelayKeepsInv(s: Sys, p: nat, f: End)
    requires Inv(s) && p < |s.ends| && RelayMoves(s.ends[p], f)
    requires f.read <= |s.client.socks[p].out|
    requires Routed(f, s.client.socks[p].out) && WireInv(f) && WindowInv(f)
    requires CreditInv(f, s.client.socks[p], s.client.physical == Some(p))
    ensures Inv(s.(ends := s.ends[p := f]))
  {
    var t := s.(ends := s.ends[p := f]);
    assert EndInv(s, p);
    forall q | 0 <= q < |t.ends|
      ensures EndInv(t, q)
    {
      assert EndInv(s, q);
    }
    forall i | 0 <= i < |t.client.virtuals|
      ensures DeliveredInv(t.client.virtuals[i], t.ends[t.client.virtuals[i].sock])
    {
      assert DeliveredInv(s.client.virtuals[i], s.ends[s.client.virtuals[i].sock]);
      assert f.log[..f.seen] == s.ends[p].log[..f.seen];
    }
  }

  lemma {:induction false} VolumeGrows(log: seq<Wire>, n: nat)
    requires n <= |log|
    ensures Volume(log[..n]) <= Volume(log)
    decreases |log|
  {
    if n < |log| {
      VolumeGrows(log[..|log| - 1], n);
      assert log[..|log| - 1][..n] == log[..n];
    } else {
      assert log[..n] == log;
    }
  }

  lemma {:induction false} LastAckGrows(out: seq<Control>, n: nat)
    requires n <= |out| && AcksGrow(out)
    ensures LastAck(out[..n]) <= LastAck(out)
    decreases |out|
  {
    if n < |out| {
      var shorter := out[..|out| - 1];
      assert AcksGrow(shorter) by {
        forall k | 0 <= k < |shorter| && shorter[k].Ack?
          ensures LastAck(shorter[..k]) < shorter[k].received
        {
          assert shorter[..k] == out[..k];
        }
      }
      LastAckGrows(shorter, n);
      assert shorter[..n] == out[..n];
    } else {
      assert out[..n] == out;
    }
  }

  /** The relay never counts more as acknowledged than it sent. */
  lemma AckedAtMostSent(e: End, sock: Sock, current: bool)
    requires e.read <= |sock.out| && e.seen <= |e.log|
    requires WireInv(e) && CreditInv(e, sock, current)
    ensures e.server.acked <= LastAck(sock.out) <= e.server.sent
  {
    LastAckGrows(sock.out, e.read);
    VolumeGrows(e.log, e.seen);
  }

  // Sending.

  lemma ForSlotSnoc(log: seq<Wire>, slot: nat, payload: Blob, other: nat)
    requires slot <= LAST_SLOT
    ensures ForSlot(log + [Data(Packet(slot, payload))], other) == ForSlot(log, other) + if other == slot then [payload] else []
  {
    PacketRoundTrip(slot, payload);
    assert (log + [Data(Packet(slot, payload))])[..|log|] == log;
  }

  /** What sending does to the log and to the feeds, slot by slot. */
  lemma SendEffect(e: End, slot: nat)
    requires Linked(e.server) && HasHead(e, slot) && slot <= LAST_SLOT
    ensures var f, own := SendOne(e, slot), e.server.subs[slot].feed;
            var head := e.server.feeds[own].queue[0];
            && (forall other: nat :: ForSlot(f.log, other) == ForSlot(e.log, other) + if other == slot then [head] else [])
            && f.server.feeds == e.server.feeds[own := e.server.feeds[own].(queue := e.server.feeds[own].queue[1..])]
  {
    var f, own := SendOne(e, slot), e.server.subs[slot].feed;
    var head := e.server.feeds[own].queue[0];
    forall other: nat
      ensures ForSlot(f.log, other) == ForSlot(e.log, other) + if other == slot then [head] else []
    {
      ForSlotSnoc(e.log, slot, head, other);
    }
  }

  lemma SendKeepsOwned(e: End, slot: nat, out: seq<Control>)
    requires Linked(e.server) && HasHead(e, slot) && e.read <= |out| && Routed(e, out) && slot <= LAST_SLOT
    ensures Owned(SendOne(e, slot), out)
  {
    var f, feed := SendOne(e, slot), e.server.feeds[e.server.subs[slot].feed];
    SendEffect(e, slot);
    HeadMoves(ForSlot(e.log, slot), feed.queue, feed.given);
    forall other | other in f.owner
      ensures ForSlot(f.log, other) <= f.server.feeds[f.owner[other]].given
    {
      if other != slot {
        assert ForSlot(f.log, other) == ForSlot(e.log, other) + [];
      }
    }
  }

  lemma SendKeepsWhole(e: End, slot: nat, other: nat, feed: nat)
    requires Linked(e.server) && HasHead(e, slot) && slot <= LAST_SLOT
    requires feed < |e.server.feeds| && Whole(e, other, feed)
    requires other == slot <==> feed == e.server.subs[slot].feed
    ensures Whole(SendOne(e, slot), other, feed)
  {
    SendEffect(e, slot);
    if other == slot {
      HeadMoves(ForSlot(e.log, slot), e.server.feeds[feed].queue, e.server.feeds[feed].given);
    } else {
      assert ForSlot(e.log, other) + [] == ForSlot(e.log, other);
    }
  }

  lemma SendKeepsLive(e: End, slot: nat)
    requires Linked(e.server) && HasHead(e, slot) && Live(e) && slot <= LAST_SLOT
    ensures Linked(SendOne(e, slot).server) && Live(SendOne(e, slot))
  {
    var f := SendOne(e, slot);
    forall other | other in f.server.subs
      ensures other in f.owner && f.owner[other] == f.server.subs[other].feed && Whole(f, other, f.server.subs[other].feed)
    {
      assert Whole(e, other, e.server.subs[other].feed);
      SendKeepsWhole(e, slot, other, e.server.subs[other].feed);
    }
  }

  lemma SendKeepsRouting(e: End, slot: nat, out: seq<Control>)
    requires Linked(e.server) && HasHead(e, slot) && e.read <= |out| && Routed(e, out)
    requires slot <= LAST_SLOT
    ensures Linked(SendOne(e, slot).server) && Routed(SendOne(e, slot), out)
  {
    SendKeepsOwned(e, slot, out);
    SendKeepsLive(e, slot);
    SendEffect(e, slot);
  }

  /** The head of a queue moves behind what was written; together they stay the same. */
  lemma HeadMoves(written: seq<Blob>, queue: seq<Blob>, given: seq<Blob>)
    requires queue != [] && written + queue == given
    ensures written + [queue[0]] + queue[1..] == given && written + [queue[0]] <= given
  {
    assert queue == [queue[0]] + queue[1..];
    Assoc(written, [queue[0]], queue[1..]);
  }

  lemma SendKeepsCredit(e: End, slot: nat, sock: Sock, current: bool)
    requires Linked(e.server) && HasHead(e, slot) && CanSend(e.server)
    requires e.read <= |sock.out| && WireInv(e) && CreditInv(e, sock, current)
    ensures var f := SendOne(e, slot);
            WireInv(f) && CreditInv(f, sock, current) && WindowInv(f)
  {
    var f := SendOne(e, slot);
    assert f.log[..|e.log|] == e.log;
    assert f.log[..f.seen] == e.log[..e.seen];
    AckedAtMostSent(e, sock, current);
  }

  // Reading a control.

  lemma DropKeepsRouting(e: End, slot: nat, out: seq<Control>)
    requires Linked(e.server) && e.read <= |out| && Routed(e, out)
    ensures var f := e.(server := Drop(e.server, slot));
            Linked(f.server) && Routed(f, out)
  {
    var f := e.(server := Drop(e.server, slot));
    assert |f.server.feeds| == |e.server.feeds|;
    assert forall g :: 0 <= g < |e.server.feeds| ==>
      f.server.feeds[g] == e.server.feeds[g].(open := f.server.feeds[g].open);
  }

  /** A slot that has no feed yet gets one, at the end of the table. */
  lemma SubscribeKeepsRouting(e: End, slot: nat, stream: string, seed: seq<Blob>, out: seq<Control>)
    requires Linked(e.server) && e.read < |out| && Routed(e, out)
    requires out[e.read] == Sub(slot, stream) && slot !in e.owner
    ensures var n := |e.server.feeds|;
            var t := e.server.(subs := e.server.subs[slot := Subscription(n, 2)], feeds := e.server.feeds + [Feed(stream, seed, seed, true)]);
            var f := End(t, e.read + 1, e.log, e.seen, e.owner[slot := n]);
            Linked(t) && Routed(f, out)
  {
    assert out[..e.read + 1] == out[..e.read] + [out[e.read]];
    assert [] + seed == seed;
  }

  lemma NotOwnedYet(e: End, out: seq<Control>, slot: nat)
    requires e.read < |out| && Owned(e, out) && UniqueSubs(out)
    requires out[e.read].Sub? && out[e.read].slot == slot
    ensures slot !in e.owner
  {
    assert forall k :: 0 <= k < e.read && out[k].Sub? ==> out[k].slot != slot;
  }

  lemma ReadKeepsRouting(e: End, hubs: set<string>, seed: seq<Blob>, out: seq<Control>)
    requires Linked(e.server) && e.read < |out| && Routed(e, out) && UniqueSubs(out)
    ensures var f := ReadOne(e, out[e.read], hubs, seed);
            Linked(f.server) && Routed(f, out)
  {
    var c := out[e.read];
    if c.Sub? && (c.slot in e.server.subs || |e.server.subs| < MAX_SUBSCRIPTIONS) && c.stream in hubs {
      NotOwnedYet(e, out, c.slot);
      SubscribeKeepsRouting(e, c.slot, c.stream, seed, out);
    } else {
      PassKeepsRouting(e, hubs, seed, out);
    }
  }

  /** Any other control at most drops a subscription. */
  lemma PassKeepsRouting(e: End, hubs: set<string>, seed: seq<Blob>, out: seq<Control>)
    requires Linked(e.server) && e.read < |out| && Routed(e, out)
    requires out[e.read].Sub? ==> out[e.read].stream !in hubs || (out[e.read].slot !in e.server.subs && |e.server.subs| >= MAX_SUBSCRIPTIONS)
    ensures var f := ReadOne(e, out[e.read], hubs, seed);
            Linked(f.server) && Routed(f, out)
  {
    hide Routed;
    var c := out[e.read];
    if c.Ack? || (c.Sub? && c.slot !in e.server.subs && |e.server.subs| >= MAX_SUBSCRIPTIONS) {
      SameRouting(e, ReadOne(e, c, hubs, seed), out);
    } else {
      DropKeepsRouting(e, c.slot, out);
      SameRouting(e.(server := Drop(e.server, c.slot)), ReadOne(e, c, hubs, seed), out);
    }
  }

  /** Routing is a matter of the subscriptions, the feeds, the log and the owners. */
  lemma SameRouting(e: End, f: End, out: seq<Control>)
    requires Linked(e.server) && e.read <= f.read <= |out| && Routed(e, out)
    requires f.server.subs == e.server.subs && f.server.feeds == e.server.feeds && f.log == e.log && f.owner == e.owner
    ensures Linked(f.server) && Routed(f, out)
  {
    forall slot | slot in f.server.subs
      ensures Whole(f, slot, f.server.subs[slot].feed)
    {
      assert Whole(e, slot, e.server.subs[slot].feed);
    }
    assert out[..e.read] == out[..f.read][..e.read];
  }

  lemma LastAckSnoc(out: seq<Control>, n: nat)
    requires n < |out|
    ensures LastAck(out[..n + 1]) == if out[n].Ack? then out[n].received else LastAck(out[..n])
  {
    assert out[..n + 1][..n] == out[..n];
  }

  lemma ReadKeepsCredit(e: End, hubs: set<string>, seed: seq<Blob>, sock: Sock, current: bool)
    requires Linked(e.server) && e.read < |sock.out|
    requires WireInv(e) && CreditInv(e, sock, current) && WindowInv(e)
    ensures var f := ReadOne(e, sock.out[e.read], hubs, seed);
            WireInv(f) && CreditInv(f, sock, current) && WindowInv(f)
  {
    LastAckSnoc(sock.out, e.read);
    LastAckGrows(sock.out, e.read + 1);
    VolumeGrows(e.log, e.seen);
    ReadMovesAcked(e, sock.out[e.read], hubs, seed);
  }

  /** Reading a control touches the counters only by what an acknowledgement in range says. */
  lemma ReadMovesAcked(e: End, c: Control, hubs: set<string>, seed: seq<Blob>)
    requires Linked(e.server)
    ensures var f := ReadOne(e, c, hubs, seed);
            && f.read == e.read + 1 && f.log == e.log && f.seen == e.seen
            && f.server.flow == e.server.flow && f.server.sent == e.server.sent
            && f.server.acked == if c.Ack? && e.server.acked < c.received <= e.server.sent then c.received else e.server.acked
  {
  }

  // The hub's side of a feed.

  lemma GiveKeepsRouting(e: End, feed: nat, frag: Blob, out: seq<Control>)
    requires Linked(e.server) && e.read <= |out| && Routed(e, out) && feed < |e.server.feeds|
    ensures var f := GiveOne(e, feed, frag);
            Linked(f.server) && Routed(f, out)
  {
    var f, before := GiveOne(e, feed, frag), e.server.feeds[feed];
    forall slot | slot in f.server.subs
      ensures Whole(f, slot, f.server.subs[slot].feed)
    {
      assert Whole(e, slot, e.server.subs[slot].feed);
      Assoc(ForSlot(e.log, slot), before.queue, [frag]);
    }
    assert before.given <= f.server.feeds[feed].given;
  }

  lemma CloseFeedKeepsRouting(e: End, feed: nat, out: seq<Control>)
    requires Linked(e.server) && e.read <= |out| && Routed(e, out) && feed < |e.server.feeds|
    ensures var f := e.(server := e.server.(feeds := e.server.feeds[feed := e.server.feeds[feed].(open := false)]));
            Linked(f.server) && Routed(f, out)
  {
    var f := e.(server := e.server.(feeds := e.server.feeds[feed := e.server.feeds[feed].(open := false)]));
    forall slot | slot in f.server.subs
      ensures Whole(f, slot, f.server.subs[slot].feed)
    {
      assert Whole(e, slot, e.server.subs[slot].feed);
    }
  }

  ghost predicate RelayEvent(ev: Event) {
    ev.Reads? || ev.Sends? || ev.SeesClosed? || ev.HubGives? || ev.HubCloses?
  }

  lemma ReadsKeepsInv(s: Sys, p: nat, seed: seq<Blob>)
    requires Inv(s) && p < |s.ends| && s.ends[p].read < |s.client.socks[p].out|
    ensures Inv(s.(ends := s.ends[p := ReadOne(s.ends[p], s.client.socks[p].out[s.ends[p].read], s.hubs, seed)]))
  {
    var e, sock := s.ends[p], s.client.socks[p];
    assert EndInv(s, p);
    ReadKeepsRouting(e, s.hubs, seed, sock.out);
    ReadKeepsCredit(e, s.hubs, seed, sock, s.client.physical == Some(p));
    ApplyKeepsFlow(e.server, sock.out[e.read], s.hubs, seed);
    RelayKeepsInv(s, p, ReadOne(e, sock.out[e.read], s.hubs, seed));
  }

  lemma ApplyKeepsFlow(t: Server, c: Control, hubs: set<string>, seed: seq<Blob>)
    requires Linked(t)
    ensures Apply(t, c, hubs, seed).flow == t.flow
  {
  }

  lemma SendsKeepsInv(s: Sys, p: nat, slot: nat)
    requires Inv(s) && p < |s.ends| && HasHead(s.ends[p], slot) && CanSend(s.ends[p].server)
    ensures Inv(s.(ends := s.ends[p := SendOne(s.ends[p], slot)]))
  {
    var e, sock := s.ends[p], s.client.socks[p];
    assert EndInv(s, p);
    SlotsAreSmall(s, p, slot);
    SendKeepsRouting(e, slot, sock.out);
    SendKeepsCredit(e, slot, sock, s.client.physical == Some(p));
    RelayKeepsInv(s, p, SendOne(e, slot));
  }

  /** A change of the relay's subscriptions or feeds that moves no counter. */
  lemma FeedsKeepInv(s: Sys, p: nat, t: Server)
    requires Inv(s) && p < |s.ends| && Linked(t)
    requires t == s.ends[p].server.(subs := t.subs, feeds := t.feeds)
    requires Routed(s.ends[p].(server := t), s.client.socks[p].out)
    ensures Inv(s.(ends := s.ends[p := s.ends[p].(server := t)]))
  {
    assert EndInv(s, p);
    RelayKeepsInv(s, p, s.ends[p].(server := t));
  }

  lemma SeesClosedKeepsInv(s: Sys, p: nat, slot: nat)
    requires Inv(s) && p < |s.ends|
    ensures Inv(s.(ends := s.ends[p := s.ends[p].(server := Drop(s.ends[p].server, slot))]))
  {
    assert EndInv(s, p);
    DropKeepsRouting(s.ends[p], slot, s.client.socks[p].out);
    FeedsKeepInv(s, p, Drop(s.ends[p].server, slot));
  }

  lemma HubKeepsInv(s: Sys, p: nat, feed: nat, frag: Blob)
    requires Inv(s) && p < |s.ends| && feed < |s.ends[p].server.feeds|
    ensures Inv(s.(ends := s.ends[p := GiveOne(s.ends[p], feed, frag)]))
    ensures var t := s.ends[p].server;
            Inv(s.(ends := s.ends[p := s.ends[p].(server := t.(feeds := t.feeds[feed := t.feeds[feed].(open := false)]))]))
  {
    var t, out := s.ends[p].server, s.client.socks[p].out;
    assert EndInv(s, p);
    GiveKeepsRouting(s.ends[p], feed, frag, out);
    FeedsKeepInv(s, p, GiveOne(s.ends[p], feed, frag).server);
    CloseFeedKeepsRouting(s.ends[p], feed, out);
    FeedsKeepInv(s, p, t.(feeds := t.feeds[feed := t.feeds[feed].(open := false)]));
  }

  lemma RelayStepKeepsInv(s: Sys, ev: Event)
    requires Inv(s) && RelayEvent(ev)
    ensures Inv(Step(s, ev))
  {
    if Step(s, ev) != s {
      match ev
      case Reads(p, seed) => ReadsKeepsInv(s, p, seed);
      case Sends(p, slot) => SendsKeepsInv(s, p, slot);
      case SeesClosed(p, slot) => SeesClosedKeepsInv(s, p, slot);
      case HubGives(p, feed, frag) => HubKeepsInv(s, p, feed, frag);
      case HubCloses(p, feed) => HubKeepsInv(s, p, feed, []);
    }
  }

  lemma SlotsAreSmall(s: Sys, p: nat, slot: nat)
    requires Inv(s) && p < |s.ends| && slot in s.ends[p].server.subs
    ensures slot <= LAST_SLOT
  {
    var e, out := s.ends[p], s.client.socks[p].out;
    assert EndInv(s, p);
    var k :| 0 <= k < e.read && out[k] == Sub(slot, e.server.feeds[e.owner[slot]].stream);
    assert SubsAnnounced(s.client, p);
    assert Announced(s.client, p, slot, out[k].stream);
  }

  // ---------------------------------------------------------------- a new virtual socket

  lemma ConnectKeeps(s: Sys)
    requires Inv(s) && s.client.physical.None?
    ensures Inv(s.(client := Connect(s.client), ends := s.ends + [NewEnd(s.flow)]))
  {
    var c, d := s.client, Connect(s.client);
    var t := s.(client := d, ends := s.ends + [NewEnd(s.flow)]);
    assert ClientInv(d);
    forall p | 0 <= p < |d.socks|
      ensures SubsAnnounced(d, p) && UniqueSubs(d.socks[p].out)
    {
      if p < |c.socks| {
        assert SubsAnnounced(c, p) && UniqueSubs(c.socks[p].out);
        forall k | 0 <= k < |d.socks[p].out| && d.socks[p].out[k].Sub?
          ensures Announced(d, p, d.socks[p].out[k].slot, d.socks[p].out[k].stream)
        {
          assert Announced(c, p, d.socks[p].out[k].slot, d.socks[p].out[k].stream);
        }
      }
    }
    forall p | 0 <= p < |t.ends|
      ensures EndInv(t, p)
    {
      if p < |s.ends| {
        assert EndInv(s, p);
      } else {
        NewEndInv(s.flow);
      }
    }
    forall i | 0 <= i < |d.virtuals|
      ensures DeliveredInv(d.virtuals[i], t.ends[d.virtuals[i].sock])
    {
      assert DeliveredInv(c.virtuals[i], s.ends[c.virtuals[i].sock]);
    }
  }

  lemma NewEndInv(flow: bool)
    ensures var e := NewEnd(flow);
            Routed(e, []) && WireInv(e) && CreditInv(e, NEW_SOCK, true) && WindowInv(e)
  {
    var e := NewEnd(flow);
    assert e.log[..0] == [];
    if flow {
      assert e.log[..|e.log| - 1] == [];
    }
  }

  /** A slot that no virtual socket has on a connection has carried nothing there. */
  lemma UnusedSlotIsSilent(s: Sys, p: nat, slot: nat)
    requires Inv(s) && p < |s.ends|
    requires forall i :: 0 <= i < |s.client.virtuals| && s.client.virtuals[i].sock == p ==> s.client.virtuals[i].slot != slot
    ensures ForSlot(s.ends[p].log[..s.ends[p].seen], slot) == []
  {
    var e, out := s.ends[p], s.client.socks[p].out;
    assert EndInv(s, p);
    assert SubsAnnounced(s.client, p);
    forall k | 0 <= k < e.read && out[k].Sub?
      ensures out[k].slot != slot
    {
      assert Announced(s.client, p, out[k].slot, out[k].stream);
    }
    ForSlotPrefix(e.log, e.seen, slot);
  }

  lemma {:induction false} ForSlotPrefix(log: seq<Wire>, n: nat, slot: nat)
    requires n <= |log|
    ensures ForSlot(log[..n], slot) <= ForSlot(log, slot)
    decreases |log|
  {
    if n < |log| {
      ForSlotPrefix(log[..|log| - 1], n, slot);
      assert log[..|log| - 1][..n] == log[..n];
    } else {
      assert log[..n] == log;
    }
  }

  /** The virtual socket that takes the next slot of the current connection. */
  function Listed(c: Client, stream: string): Client
    requires c.physical.Some?
  {
    c.(nextSlot := c.nextSlot + 1,
       virtuals := c.virtuals + [Virtual(c.nextSlot, stream, false, false, c.physical.value, [])],
       subscribers := c.subscribers[c.nextSlot := |c.virtuals|])
  }

  lemma ListKeepsCInv(c: Client, stream: string)
    requires CInv(c) && c.physical.Some? && c.nextSlot <= LAST_SLOT
    ensures CInv(Listed(c, stream))
  {
    var d := Listed(c, stream);
    forall p | 0 <= p < |d.socks|
      ensures SubsAnnounced(d, p) && UniqueSubs(d.socks[p].out)
    {
      assert SubsAnnounced(c, p) && UniqueSubs(c.socks[p].out);
      forall k | 0 <= k < |d.socks[p].out| && d.socks[p].out[k].Sub?
        ensures Announced(d, p, d.socks[p].out[k].slot, d.socks[p].out[k].stream)
      {
        StillAnnounced(c, d, p, d.socks[p].out[k].slot, d.socks[p].out[k].stream);
      }
    }
    ListKeepsClientInv(c, stream);
  }

  lemma ListKeepsClientInv(c: Client, stream: string)
    requires ClientInv(c) && c.physical.Some? && c.nextSlot <= LAST_SLOT
    ensures ClientInv(Listed(c, stream))
  {
    assert c.nextSlot !in c.subscribers;
    var d := Listed(c, stream);
    assert forall i :: 0 <= i < |c.virtuals| ==> d.virtuals[i] == c.virtuals[i];
    forall i | 0 <= i < |d.virtuals|
      ensures !d.virtuals[i].closed ==> Subscribed(d, i)
    {
      if i < |c.virtuals| && !c.virtuals[i].closed { assert Subscribed(c, i); }
    }
    forall i, j | 0 <= i < j < |d.virtuals| && d.virtuals[i].sock == d.virtuals[j].sock
      ensures d.virtuals[i].slot != d.virtuals[j].slot
    {
      assert j == |c.virtuals| ==> c.virtuals[i].slot < c.nextSlot;
    }
  }

  lemma StillAnnounced(c: Client, d: Client, p: nat, slot: nat, stream: string)
    requires Announced(c, p, slot, stream) && c.virtuals <= d.virtuals
    ensures Announced(d, p, slot, stream)
  {
    var i :| 0 <= i < |c.virtuals| && c.virtuals[i].sock == p && c.virtuals[i].slot == slot
             && c.virtuals[i].stream == stream && c.virtuals[i].up;
    assert d.virtuals[i] == c.virtuals[i];
  }

  lemma ListKeepsInv(s: Sys, stream: string)
    requires Inv(s) && s.client.physical.Some? && s.client.nextSlot <= LAST_SLOT
    ensures Inv(s.(client := Listed(s.client, stream)))
  {
    var c, d := s.client, Listed(s.client, stream);
    var t := s.(client := d);
    ListKeepsCInv(c, stream);
    forall p | 0 <= p < |t.ends|
      ensures EndInv(t, p)
    {
      assert EndInv(s, p);
    }
    forall i | 0 <= i < |d.virtuals|
      ensures DeliveredInv(d.virtuals[i], t.ends[d.virtuals[i].sock])
    {
      if i < |c.virtuals| {
        assert DeliveredInv(c.virtuals[i], s.ends[c.virtuals[i].sock]);
      } else {
        UnusedSlotIsSilent(s, c.physical.value, c.nextSlot);
      }
    }
  }

  lemma AllocateIs(c: Client, stream: string)
    requires Indexed(c) && c.physical.Some? && c.nextSlot <= LAST_SLOT
    ensures var d := Listed(c, stream);
            && Indexed(d) && |d.virtuals| == |c.virtuals| + 1
            && Allocate(c, stream) == if d.socks[d.physical.value].ready == OPEN then OpenVirtual(d, |c.virtuals|) else d
  {
  }

  lemma AllocateOnKeepsInv(s: Sys, stream: string)
    requires Inv(s) && s.client.physical.Some? && s.client.nextSlot <= LAST_SLOT
    ensures Inv(s.(client := Allocate(s.client, stream)))
  {
    ListKeepsInv(s, stream);
    AllocateIs(s.client, stream);
    OpenedKeepsInv(s.(client := Listed(s.client, stream)), |s.client.virtuals|);
  }

  lemma OpenedKeepsInv(s: Sys, i: nat)
    requires Inv(s) && i < |s.client.virtuals| && Subscribed(s.client, i)
    ensures Inv(s.(client := OpenVirtual(s.client, i)))
  {
    OpenVirtualKeeps(s.client, i);
    QuietKeepsInv(s, OpenVirtual(s.client, i));
  }

  lemma OpensKeepsInv(s: Sys, stream: string)
    requires Inv(s)
    ensures Inv(Step(s, Opens(stream)))
  {
    var c := s.client;
    if !c.stopped && !c.legacy && c.nextSlot <= LAST_SLOT {
      var s1 := s;
      if c.physical.None? {
        ConnectKeeps(s);
        s1 := s.(client := Connect(c), ends := s.ends + [NewEnd(s.flow)]);
      }
      AllocateOnKeepsInv(s1, stream);
      AllocateConnects(c, stream);
    }
  }

  lemma AllocateConnects(c: Client, stream: string)
    requires Indexed(c) && c.nextSlot <= LAST_SLOT
    ensures Allocate(c, stream) == Allocate(Connect(c), stream)
    ensures |Allocate(c, stream).socks| == |Connect(c).socks|
  {
  }

  // ---------------------------------------------------------------- a message arrives

  /** The factory after message m on connection p, before the payload is dispatched. */
  function Counted(c: Client, p: nat, m: Wire): Client
    requires p < |c.socks|
  {
    if m.Hello? then c.(socks := c.socks[p := c.socks[p].(flow := true)])
    else if c.socks[p].flow then
      var received := c.socks[p].received + |m.bytes|;
      SendOn(c.(socks := c.socks[p := c.socks[p].(received := received)]), p, Ack(received))
    else c
  }

  /** Counting a message changes one connection's variables and appends at most an acknowledgement. */
  lemma CountedOut(c: Client, p: nat, m: Wire, q: nat)
    requires p < |c.socks| && q < |c.socks|
    ensures var d := Counted(c, p, m);
            && d == c.(socks := d.socks) && |d.socks| == |c.socks|
            && c.socks[q].out <= d.socks[q].out
            && forall k :: |c.socks[q].out| <= k < |d.socks[q].out| ==> d.socks[q].out[k].Ack?
  {
  }

  lemma CountedKeepsSubs(c: Client, p: nat, m: Wire, q: nat)
    requires p < |c.socks| && q < |c.socks| && SubsAnnounced(c, q) && UniqueSubs(c.socks[q].out)
    ensures var d := Counted(c, p, m);
            q < |d.socks| && SubsAnnounced(d, q) && UniqueSubs(d.socks[q].out)
  {
    var d := Counted(c, p, m);
    CountedOut(c, p, m, q);
    forall k | 0 <= k < |d.socks[q].out| && d.socks[q].out[k].Sub?
      ensures Announced(d, q, d.socks[q].out[k].slot, d.socks[q].out[k].stream)
    {
      assert d.socks[q].out[k] == c.socks[q].out[k];
      StillAnnounced(c, d, q, d.socks[q].out[k].slot, d.socks[q].out[k].stream);
    }
  }

  lemma CountedKeepsCInv(c: Client, p: nat, m: Wire)
    requires CInv(c) && p < |c.socks|
    ensures CInv(Counted(c, p, m))
  {
    var d := Counted(c, p, m);
    CountedOut(c, p, m, p);
    assert ClientInv(d);
    forall q | 0 <= q < |d.socks|
      ensures SubsAnnounced(d, q) && UniqueSubs(d.socks[q].out)
    {
      CountedKeepsSubs(c, p, m, q);
    }
  }

  lemma DispatchKeepsCInv(c: Client, bytes: Blob)
    requires CInv(c) && |bytes| >= 2
    ensures CInv(Dispatch(c, bytes))
  {
    var d := Dispatch(c, bytes);
    assert |d.virtuals| == |c.virtuals|;
    assert forall i :: 0 <= i < |c.virtuals| ==> d.virtuals[i] == c.virtuals[i].(delivered := d.virtuals[i].delivered);
    assert ClientInv(d);
    forall q | 0 <= q < |d.socks|
      ensures SubsAnnounced(d, q) && UniqueSubs(d.socks[q].out)
    {
      assert SubsAnnounced(c, q) && UniqueSubs(c.socks[q].out);
      forall k | 0 <= k < |d.socks[q].out| && d.socks[q].out[k].Sub?
        ensures Announced(d, q, d.socks[q].out[k].slot, d.socks[q].out[k].stream)
      {
        var slot, stream := d.socks[q].out[k].slot, d.socks[q].out[k].stream;
        assert Announced(c, q, slot, stream);
        var i :| 0 <= i < |c.virtuals| && c.virtuals[i].sock == q && c.virtuals[i].slot == slot
                 && c.virtuals[i].stream == stream && c.virtuals[i].up;
        assert d.virtuals[i].up && d.virtuals[i].slot == slot;
      }
    }
  }

  lemma AckAppended(out: seq<Control>, received: nat)
    requires AcksGrow(out) && LastAck(out) < received
    ensures AcksGrow(out + [Ack(received)]) && LastAck(out + [Ack(received)]) == received
  {
    var more := out + [Ack(received)];
    assert more[..|out|] == out;
    forall k | 0 <= k < |more| && more[k].Ack?
      ensures LastAck(more[..k]) < more[k].received
    {
      assert more[..k] == out[..k];
    }
  }

  lemma VolumeNext(log: seq<Wire>, n: nat)
    requires n < |log|
    ensures Volume(log[..n + 1]) == Volume(log[..n]) + if log[n].Data? then |log[n].bytes| else 0
  {
    assert log[..n + 1][..n] == log[..n];
  }

  /** The counters and the controls of the connection that message m arrived on. */
  function CountedSock(sock: Sock, m: Wire): Sock {
    if m.Hello? then sock.(flow := true)
    else if sock.flow then
      sock.(received := sock.received + |m.bytes|, out := sock.out + [Ack(sock.received + |m.bytes|)])
    else sock
  }

  lemma CountedIsSock(c: Client, p: nat, m: Wire)
    requires p < |c.socks|
    ensures Counted(c, p, m).socks == c.socks[p := CountedSock(c.socks[p], m)]
  {
  }

  lemma HelloKeepsCredit(e: End, sock: Sock)
    requires e.read <= |sock.out| && e.seen < |e.log| && e.log[e.seen].Hello?
    requires WireInv(e) && CreditInv(e, sock, true)
    ensures CreditInv(e.(seen := e.seen + 1), sock.(flow := true), true)
  {
    VolumeNext(e.log, e.seen);
  }

  lemma DataKeepsCredit(e: End, sock: Sock)
    requires e.read <= |sock.out| && e.seen < |e.log| && e.log[e.seen].Data? && sock.flow
    requires WireInv(e) && CreditInv(e, sock, true)
    ensures CreditInv(e.(seen := e.seen + 1), CountedSock(sock, e.log[e.seen]), true)
  {
    var received := sock.received + |e.log[e.seen].bytes|;
    VolumeNext(e.log, e.seen);
    AckAppended(sock.out, received);
    PrefixKept(sock.out, Ack(received), e.read);
    CreditAdvances(e, sock, sock.out + [Ack(received)], received);
  }

  lemma CreditAdvances(e: End, sock: Sock, more: seq<Control>, received: nat)
    requires e.read <= |sock.out| && e.read <= |more| && e.seen < |e.log| && sock.flow && CreditInv(e, sock, true)
    requires AcksGrow(more) && LastAck(more) == received == Volume(e.log[..e.seen + 1])
    requires more[..e.read] == sock.out[..e.read]
    ensures CreditInv(e.(seen := e.seen + 1), sock.(received := received, out := more), true)
  {
  }

  lemma PrefixKept(out: seq<Control>, c: Control, n: nat)
    requires n <= |out|
    ensures (out + [c])[..n] == out[..n]
  {
  }

  lemma UncountedKeepsCredit(e: End, sock: Sock)
    requires e.read <= |sock.out| && e.seen < |e.log| && e.log[e.seen].Data? && !sock.flow
    requires WireInv(e) && CreditInv(e, sock, true)
    ensures CreditInv(e.(seen := e.seen + 1), sock, true)
  {
    VolumeNext(e.log, e.seen);
  }

  /** Whatever arrives on the current connection is counted and, with credit, acknowledged. */
  lemma ArrivalKeepsCredit(e: End, sock: Sock)
    requires e.read <= |sock.out| && e.seen < |e.log|
    requires WireInv(e) && CreditInv(e, sock, true)
    ensures CreditInv(e.(seen := e.seen + 1), CountedSock(sock, e.log[e.seen]), true)
  {
    if e.log[e.seen].Hello? {
      HelloKeepsCredit(e, sock);
    } else if sock.flow {
      DataKeepsCredit(e, sock);
    } else {
      UncountedKeepsCredit(e, sock);
    }
  }

  /** A message on a connection that was given up is dropped, uncounted. */
  lemma LateArrivalKeepsCredit(e: End, sock: Sock)
    requires e.read <= |sock.out| && e.seen < |e.log| && CreditInv(e, sock, false)
    ensures CreditInv(e.(seen := e.seen + 1), sock, false)
  {
    VolumeGrows(e.log[..e.seen + 1], e.seen);
    assert e.log[..e.seen + 1][..e.seen] == e.log[..e.seen];
  }

  lemma ForSlotNext(log: seq<Wire>, n: nat, slot: nat)
    requires n < |log|
    ensures ForSlot(log[..n + 1], slot) ==
              ForSlot(log[..n], slot) +
              if log[n].Data? && |log[n].bytes| >= 2 && SlotOf(log[n].bytes) == slot then [log[n].bytes[2..]] else []
  {
    assert log[..n + 1][..n] == log[..n];
  }

  /** Closed virtual sockets keep a prefix of what arrives for their slot. */
  lemma ClosedKeepsPrefix(v: Virtual, e: End)
    requires e.seen < |e.log| && DeliveredInv(v, e) && v.closed
    ensures DeliveredInv(v, e.(seen := e.seen + 1))
  {
    ForSlotNext(e.log, e.seen, v.slot);
  }

  ghost predicate Takes(v: Virtual, p: nat, m: Wire) {
    !v.closed && v.sock == p && m.Data? && |m.bytes| >= 2 && SlotOf(m.bytes) == v.slot
  }

  /** A message changes at most the virtual socket that is open on its slot. */
  lemma WhoTakesAMessage(c: Client, p: nat, m: Wire, i: nat)
    requires ClientInv(c) && p < |c.socks| && c.physical == Some(p) && i < |c.virtuals|
    ensures var v := c.virtuals[i];
            |OnMessage(c, p, m).virtuals| == |c.virtuals| &&
            OnMessage(c, p, m).virtuals[i] == if Takes(v, p, m) then v.(delivered := v.delivered + [m.bytes[2..]]) else v
  {
    assert !c.virtuals[i].closed ==> Subscribed(c, i);
    if m.Data? && |m.bytes| >= 2 {
      var slot := SlotOf(m.bytes);
      assert slot in c.subscribers ==> c.virtuals[c.subscribers[slot]].slot == slot;
    }
  }

  lemma ArrivalDelivers(v: Virtual, e: End, p: nat)
    requires e.seen < |e.log| && DeliveredInv(v, e) && v.sock == p
    ensures var w := if Takes(v, p, e.log[e.seen]) then v.(delivered := v.delivered + [e.log[e.seen].bytes[2..]]) else v;
            DeliveredInv(w, e.(seen := e.seen + 1))
  {
    ForSlotNext(e.log, e.seen, v.slot);
    assert v.delivered + [] == v.delivered;
  }

  lemma OnMessageIs(c: Client, p: nat, m: Wire)
    requires Indexed(c) && p < |c.socks| && c.physical == Some(p) && (m.Data? ==> |m.bytes| >= 2)
    ensures Indexed(Counted(c, p, m))
    ensures OnMessage(c, p, m) == if m.Hello? then Counted(c, p, m) else Dispatch(Counted(c, p, m), m.bytes)
  {
  }

  /** Only what is delivered changes, and only on the connection that the message arrived on. */
  lemma ArrivalLeavesOthers(c: Client, p: nat, m: Wire)
    requires ClientInv(c) && p < |c.socks| && c.physical == Some(p) && (m.Data? ==> |m.bytes| >= 2)
    ensures var d := OnMessage(c, p, m);
            && d.socks == Counted(c, p, m).socks && d.physical == c.physical
            && |d.virtuals| == |c.virtuals|
            && forall i :: 0 <= i < |c.virtuals| ==>
                 d.virtuals[i] == c.virtuals[i].(delivered := d.virtuals[i].delivered)
                 && (c.virtuals[i].sock != p ==> d.virtuals[i] == c.virtuals[i])
  {
    OnMessageIs(c, p, m);
    CountedOut(c, p, m, p);
  }

  lemma ArrivalKeepsCInv(c: Client, p: nat, m: Wire)
    requires CInv(c) && p < |c.socks| && c.physical == Some(p) && (m.Data? ==> |m.bytes| >= 2)
    ensures CInv(OnMessage(c, p, m))
  {
    OnMessageIs(c, p, m);
    CountedKeepsCInv(c, p, m);
    if m.Data? {
      DispatchKeepsCInv(Counted(c, p, m), m.bytes);
    }
  }

  lemma LateIsClosed(c: Client, i: nat)
    requires ClientInv(c) && i < |c.virtuals| && c.physical != Some(c.virtuals[i].sock)
    ensures c.virtuals[i].closed
  {
    var listed := Subscribed(c, i);
    assert !c.virtuals[i].closed ==> listed;
  }

  lemma LateArrivalKeepsEnd(s: Sys, t: Sys, p: nat, q: nat)
    requires WellFormed(s) && WellFormed(t) && p < |s.ends| && s.ends[p].seen < |s.ends[p].log|
    requires t == s.(ends := s.ends[p := s.ends[p].(seen := s.ends[p].seen + 1)]) && s.client.physical != Some(p)
    requires q < |s.ends| && EndInv(s, q)
    ensures EndInv(t, q)
  {
    if q == p {
      LateArrivalKeepsCredit(s.ends[p], s.client.socks[p]);
    }
  }

  lemma LateArrivalKeepsInv(s: Sys, p: nat)
    requires Inv(s) && p < |s.ends| && s.client.physical != Some(p) && s.ends[p].seen < |s.ends[p].log|
    ensures Inv(s.(ends := s.ends[p := s.ends[p].(seen := s.ends[p].seen + 1)]))
  {
    var t := s.(ends := s.ends[p := s.ends[p].(seen := s.ends[p].seen + 1)]);
    assert WellFormed(t);
    forall q | 0 <= q < |t.ends|
      ensures EndInv(t, q)
    {
      assert EndInv(s, q);
      LateArrivalKeepsEnd(s, t, p, q);
    }
    forall i | 0 <= i < |t.client.virtuals|
      ensures DeliveredInv(t.client.virtuals[i], t.ends[t.client.virtuals[i].sock])
    {
      var v := s.client.virtuals[i];
      assert DeliveredInv(v, s.ends[v.sock]);
      if v.sock == p {
        LateIsClosed(s.client, i);
        ClosedKeepsPrefix(v, s.ends[p]);
      }
    }
  }

  /** The end that a message arrived on, and all the others. */
  lemma ArrivalKeepsEnd(s: Sys, t: Sys, p: nat, q: nat)
    requires WellFormed(s) && WellFormed(t) && p < |s.ends| && s.ends[p].seen < |s.ends[p].log|
    requires t.flow == s.flow && t.ends == s.ends[p := s.ends[p].(seen := s.ends[p].seen + 1)]
    requires t.client.physical == s.client.physical == Some(p)
    requires t.client.socks == s.client.socks[p := CountedSock(s.client.socks[p], s.ends[p].log[s.ends[p].seen])]
    requires q < |s.ends| && EndInv(s, q)
    ensures EndInv(t, q)
  {
    if q == p {
      var e := s.ends[p];
      ArrivalKeepsCredit(e, s.client.socks[p]);
      assert t.client.socks[p].out[..e.read] == s.client.socks[p].out[..e.read];
    }
  }

  lemma ArrivalKeepsInv(s: Sys, p: nat)
    requires Inv(s) && p < |s.ends| && s.client.physical == Some(p) && s.ends[p].seen < |s.ends[p].log|
    ensures Inv(s.(client := OnMessage(s.client, p, s.ends[p].log[s.ends[p].seen]),
                   ends := s.ends[p := s.ends[p].(seen := s.ends[p].seen + 1)]))
  {
    var c, e, m := s.client, s.ends[p], s.ends[p].log[s.ends[p].seen];
    var d := OnMessage(c, p, m);
    var t := s.(client := d, ends := s.ends[p := e.(seen := e.seen + 1)]);
    assert EndInv(s, p);
    ArrivalKeepsCInv(c, p, m);
    ArrivalLeavesOthers(c, p, m);
    CountedIsSock(c, p, m);
    CountedOnlyAppends(c, p, m);
    assert WellFormed(t);
    hide EndInv, DeliveredInv, CInv, OnMessage;
    forall q | 0 <= q < |t.ends|
      ensures EndInv(t, q)
    {
      assert EndInv(s, q);
      ArrivalKeepsEnd(s, t, p, q);
    }
    forall i | 0 <= i < |d.virtuals|
      ensures DeliveredInv(d.virtuals[i], t.ends[d.virtuals[i].sock])
    {
      ArrivalIsDelivered(s, p, i);
    }
  }

  lemma ArrivalIsDelivered(s: Sys, p: nat, i: nat)
    requires Inv(s) && p < |s.ends| && s.client.physical == Some(p) && s.ends[p].seen < |s.ends[p].log|
    requires i < |s.client.virtuals|
    ensures var e, d := s.ends[p], OnMessage(s.client, p, s.ends[p].log[s.ends[p].seen]);
            && i < |d.virtuals| && d.virtuals[i].sock == s.client.virtuals[i].sock
            && DeliveredInv(d.virtuals[i], s.ends[p := e.(seen := e.seen + 1)][d.virtuals[i].sock])
  {
    var c, e := s.client, s.ends[p];
    assert DeliveredInv(c.virtuals[i], s.ends[c.virtuals[i].sock]);
    WhoTakesAMessage(c, p, e.log[e.seen], i);
    if c.virtuals[i].sock == p {
      ArrivalDelivers(c.virtuals[i], e, p);
    }
  }

  lemma CountedOnlyAppends(c: Client, p: nat, m: Wire)
    requires p < |c.socks|
    ensures var d := Counted(c, p, m);
            && |d.socks| == |c.socks| && c.socks[p].out <= d.socks[p].out
            && forall q :: 0 <= q < |c.socks| && q != p ==> d.socks[q] == c.socks[q]
  {
  }

  // ---------------------------------------------------------------- every run

  lemma StepKeepsInv(s: Sys, ev: Event)
    requires Inv(s)
    ensures Inv(Step(s, ev))
  {
    hide EndInv, DeliveredInv, CInv;
    var c := s.client;
    if RelayEvent(ev) {
      RelayStepKeepsInv(s, ev);
    } else if Step(s, ev) != s {
      match ev
      case Opens(stream) => OpensKeepsInv(s, stream);
      case Arrives(p) => if c.physical == Some(p) { ArrivalKeepsInv(s, p); } else { LateArrivalKeepsInv(s, p); }
      case _ => DashboardStepKeepsInv(s, ev);
    }
  }

  lemma DashboardStepKeepsInv(s: Sys, ev: Event)
    requires Inv(s) && !RelayEvent(ev) && !ev.Opens? && !ev.Arrives? && Step(s, ev) != s
    ensures Inv(Step(s, ev))
  {
    hide EndInv, DeliveredInv, CInv, Quiet, Recycle, CloseVirtual, CloseFactory, OnOpen, Disconnect, IdleFires;
    var c, d := s.client, Step(s, ev).client;
    match ev {
      case Recycles => RecycleKeeps(c); QuietKeepsInv(s, Recycle(c));
      case Closes(i) => CloseVirtualKeeps(c, i); QuietKeepsInv(s, CloseVirtual(c, i));
      case Disposes => CloseFactoryKeeps(c); QuietKeepsInv(s, CloseFactory(c));
      case SockOpens(p) => OnOpenKeeps(c, p); QuietKeepsInv(s, OnOpen(c, p));
      case SockBreaks(p) => ReflagKeeps(c, d); QuietKeepsInv(s, d);
      case SockGone(p) => DisconnectKeeps(c, p, c.socks[p].up); QuietKeepsInv(s, Disconnect(c, p, c.socks[p].up));
      case StartupTimer(p) => DisconnectKeeps(c, p, false); QuietKeepsInv(s, Disconnect(c, p, false));
      case IdleTimer => IdleFiresKeeps(c); QuietKeepsInv(s, IdleFires(c));
    }
  }

  function Start(flow: bool, hubs: set<string>): Sys { Sys(flow, hubs, NEW_CLIENT, []) }

  /** The state after a sequence of events, in whatever order they come. */
  ghost function Run(s: Sys, events: seq<Event>): (t: Sys)
    requires Inv(s)
    ensures Inv(t)
    decreases |events|
  {
    if events == [] then s
    else
      StepKeepsInv(s, events[0]);
      Run(Step(s, events[0]), events[1..])
  }

  ghost function After(flow: bool, hubs: set<string>, events: seq<Event>): (t: Sys)
    ensures Inv(t)
  {
    Run(Start(flow, hubs), events)
  }

  /**
   What a virtual socket receives is, from its beginning and without a gap, what the
   hub gave one client subscribed to that socket's own stream: nothing from another
   channel, from another connection, or from an earlier user of the slot number. As
   long as it is open it gets everything that arrives for it.
   */
  lemma ReceivesItsOwnStream(flow: bool, hubs: set<string>, events: seq<Event>, i: nat)
    requires i < |After(flow, hubs, events).client.virtuals|
    ensures var s := After(flow, hubs, events);
            var v := s.client.virtuals[i];
            && v.sock < |s.ends|
            && var e := s.ends[v.sock];
            && (v.delivered != [] ==>
                  && v.slot in e.owner && e.owner[v.slot] < |e.server.feeds|
                  && e.server.feeds[e.owner[v.slot]].stream == v.stream
                  && v.delivered <= e.server.feeds[e.owner[v.slot]].given)
            && e.seen <= |e.log|
            && (!v.closed ==> v.delivered == ForSlot(e.log[..e.seen], v.slot))
  {
    var s := After(flow, hubs, events);
    var v := s.client.virtuals[i];
    var e, out := s.ends[v.sock], s.client.socks[v.sock].out;
    assert EndInv(s, v.sock) && DeliveredInv(v, e);
    ForSlotPrefix(e.log, e.seen, v.slot);
    if v.slot in e.owner {
      var stream := e.server.feeds[e.owner[v.slot]].stream;
      assert Sub(v.slot, stream) in out[..e.read];
      assert SubsAnnounced(s.client, v.sock);
      var k :| 0 <= k < e.read && out[k] == Sub(v.slot, stream);
      AnnouncedIsUnique(s.client, i, stream);
    }
  }

  lemma AnnouncedIsUnique(c: Client, i: nat, stream: string)
    requires CInv(c) && i < |c.virtuals| && Announced(c, c.virtuals[i].sock, c.virtuals[i].slot, stream)
    ensures stream == c.virtuals[i].stream
  {
    var j :| 0 <= j < |c.virtuals| && c.virtuals[j].sock == c.virtuals[i].sock && c.virtuals[j].slot == c.virtuals[i].slot
             && c.virtuals[j].stream == stream && c.virtuals[j].up;
    assert !(i < j) && !(j < i);
  }

  /** No two virtual sockets share a slot of a connection, nor a hub client. */
  lemma SlotsAreNotReused(flow: bool, hubs: set<string>, events: seq<Event>, i: nat, j: nat)
    requires i < j < |After(flow, hubs, events).client.virtuals|
    requires var vs := After(flow, hubs, events).client.virtuals; vs[i].sock == vs[j].sock
    ensures var s := After(flow, hubs, events);
            var v, w := s.client.virtuals[i], s.client.virtuals[j];
            && v.slot != w.slot && v.slot <= LAST_SLOT && w.slot <= LAST_SLOT
            && v.sock < |s.ends|
            && var owner := s.ends[v.sock].owner;
            && (v.slot in owner && w.slot in owner ==> owner[v.slot] != owner[w.slot])
            && UniqueSubs(s.client.socks[v.sock].out)
  {
    var s := After(flow, hubs, events);
    assert EndInv(s, s.client.virtuals[i].sock);
  }

  /** The credit counters never cross, and never drift apart by more than the window and one packet. */
  lemma CreditIsBounded(flow: bool, hubs: set<string>, events: seq<Event>, p: nat)
    requires p < |After(flow, hubs, events).ends|
    ensures var e := After(flow, hubs, events).ends[p];
            && e.server.acked <= e.server.sent == Volume(e.log)
            && (flow && e.log != [] && e.log[|e.log| - 1].Data? ==>
                  e.server.sent - e.server.acked < MAX_INFLIGHT + |e.log[|e.log| - 1].bytes|)
            && (CanSend(e.server) <==> !flow || e.server.sent - e.server.acked < MAX_INFLIGHT)
  {
    var s := After(flow, hubs, events);
    assert EndInv(s, p);
    AckedAtMostSent(s.ends[p], s.client.socks[p], s.client.physical == Some(p));
    FlowIsFixed(Start(flow, hubs), events);
  }

  lemma {:induction false} FlowIsFixed(s: Sys, events: seq<Event>)
    requires Inv(s)
    ensures Run(s, events).flow == s.flow
    decreases |events|
  {
    hide EndInv, DeliveredInv, CInv;
    if events != [] {
      StepKeepsInv(s, events[0]);
      FlowIsFixed(Step(s, events[0]), events[1..]);
    }
  }

  /**
   Credit is conserved on the current connection: every byte written is in transit
   or counted by the dashboard, so with both pipes empty all of it is acknowledged,
   and a relay that may not send has a message or an acknowledgement on its way.
   */
  lemma CreditIsConserved(hubs: set<string>, events: seq<Event>, p: nat)
    requires p < |After(true, hubs, events).ends|
    requires After(true, hubs, events).client.physical == Some(p)
    ensures var s := After(true, hubs, events);
            var e, sock := s.ends[p], s.client.socks[p];
            && e.seen <= |e.log| && e.read <= |sock.out|
            && e.server.sent == sock.received + Volume(e.log[e.seen..])
            && (e.seen == |e.log| && (forall k :: e.read <= k < |sock.out| ==> !sock.out[k].Ack?) ==>
                  e.server.acked == e.server.sent)
            && (!CanSend(e.server) ==> e.seen < |e.log| || exists k :: e.read <= k < |sock.out| && sock.out[k].Ack?)
  {
    var s := After(true, hubs, events);
    var e, sock := s.ends[p], s.client.socks[p];
    assert EndInv(s, p);
    FlowIsFixed(Start(true, hubs), events);
    VolumeSplits(e.log, e.seen);
    AckedAtMostSent(e, sock, true);
    if e.seen == |e.log| && forall k :: e.read <= k < |sock.out| ==> !sock.out[k].Ack? {
      assert e.log[..e.seen] == e.log;
      assert Appended(sock.out[..e.read], sock.out);
      LastAckAppended(sock.out[..e.read], sock.out);
    }
  }

  lemma {:induction false} VolumeSplits(log: seq<Wire>, n: nat)
    requires n <= |log|
    ensures Volume(log) == Volume(log[..n]) + Volume(log[n..])
    decreases |log|
  {
    if n < |log| {
      var shorter := log[..|log| - 1];
      VolumeSplits(shorter, n);
      assert shorter[..n] == log[..n];
      assert log[n..][..|log| - n - 1] == shorter[n..];
    } else {
      assert log[..n] == log;
    }
  }

  /** Against any controls at all, the relay's acknowledged counter only grows and never passes the sent one. */
  lemma AnyControlKeepsCredit(t: Server, c: Control, hubs: set<string>, seed: seq<Blob>)
    requires Linked(t) && t.acked <= t.sent
    ensures var u := Apply(t, c, hubs, seed); t.acked <= u.acked <= u.sent == t.sent
  {
  }
}
