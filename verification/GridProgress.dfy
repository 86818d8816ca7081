/**
 What the relay makes of what it is told, and that the live grid never gets stuck: which slots it
 serves, and that what a hub gave one of them can always still reach its virtual socket.
 */
module GridProgress {
  import opened Bytes
  import opened Grid
  import opened GridSystem
  import opened GridAnnounced

  /** A slot that was given a feed is served until it is unsubscribed or the feed ends. */
  predicate Serves(e: End, out: seq<Control>, slot: nat)
    requires e.read <= |out|
  {
    && (slot in e.server.subs ==> Unsub(slot) !in out[..e.read])
    && (slot in e.owner && slot !in e.server.subs ==>
          Unsub(slot) in out[..e.read] || (e.owner[slot] < |e.server.feeds| && !e.server.feeds[e.owner[slot]].open))
  }

  ghost predicate Held(e: End, out: seq<Control>)
    requires e.read <= |out|
  {
    |e.server.subs| <= MAX_SUBSCRIPTIONS && forall slot :: Serves(e, out, slot)
  }

  ghost predicate HeldAt(s: Sys, p: nat)
    requires WellFormed(s) && p < |s.ends|
  {
    Held(s.ends[p], s.client.socks[p].out)
  }

  ghost predicate Sound(s: Sys) {
    Inv(s) && Telling(s.client) && forall p :: 0 <= p < |s.ends| ==> HeldAt(s, p)
  }

  // ---------------------------------------------------------------- one control

  lemma DropServes(e: End, slot: nat, out: seq<Control>, other: nat)
    requires Linked(e.server) && e.read <= |out| && Routed(e, out) && Serves(e, out, other)
    ensures var f := e.(server := Drop(e.server, slot)); Serves(f, out, other) && slot !in f.server.subs
  {
  }

  lemma FewerSubs(subs: map<nat, Subscription>, slot: nat)
    ensures |subs - {slot}| <= |subs|
  {
    if slot in subs {
      assert (subs - {slot}).Keys == subs.Keys - {slot};
      assert |(subs - {slot}).Keys| == |subs - {slot}| && |subs.Keys| == |subs|;
    } else {
      assert subs - {slot} == subs;
    }
  }

  lemma DropHolds(e: End, slot: nat, out: seq<Control>)
    requires Linked(e.server) && e.read <= |out| && Routed(e, out) && Held(e, out)
    ensures var f := e.(server := Drop(e.server, slot)); Held(f, out) && slot !in f.server.subs
  {
    FewerSubs(e.server.subs, slot);
    DropServes(e, slot, out, slot);
    var f := e.(server := Drop(e.server, slot));
    hide Serves, Routed;
    forall other: nat
      ensures Serves(f, out, other)
    {
      DropServes(e, slot, out, other);
    }
  }

  /** A subscription is taken exactly when there is room and the stream has a hub; the slot starts with what the hub seeds it with. */
  lemma SubscriptionIsTaken(s: Sys, p: nat, seed: seq<Blob>)
    requires Sound(s) && p < |s.ends| && s.ends[p].read < |s.client.socks[p].out|
    requires s.client.socks[p].out[s.ends[p].read].Sub?
    ensures var c, e, f := s.client.socks[p].out[s.ends[p].read], s.ends[p], Step(s, Reads(p, seed)).ends[p];
            && c.slot !in e.server.subs
            && (c.slot in f.server.subs <==> |e.server.subs| < MAX_SUBSCRIPTIONS && c.stream in s.hubs)
            && (c.slot in f.server.subs ==>
                  && f.server.subs[c.slot].startup == 2 && f.server.subs[c.slot].feed < |f.server.feeds|
                  && f.server.feeds[f.server.subs[c.slot].feed] == Feed(c.stream, seed, seed, true))
            && (forall slot :: slot != c.slot ==>
                  (slot in f.server.subs <==> slot in e.server.subs)
                  && (slot in f.server.subs ==> f.server.subs[slot] == e.server.subs[slot]))
  {
    var e, out := s.ends[p], s.client.socks[p].out;
    assert EndInv(s, p) && HeldAt(s, p) && UniqueSubs(out);
    NotOwnedYet(e, out, out[e.read].slot);
  }

  /** An unsubscription ends what its slot was given, and touches no other. */
  lemma UnsubscriptionIsTaken(s: Sys, p: nat, seed: seq<Blob>)
    requires Sound(s) && p < |s.ends| && s.ends[p].read < |s.client.socks[p].out|
    requires s.client.socks[p].out[s.ends[p].read].Unsub?
    ensures var c, e, f := s.client.socks[p].out[s.ends[p].read], s.ends[p], Step(s, Reads(p, seed)).ends[p];
            && c.slot !in f.server.subs && |f.server.feeds| == |e.server.feeds|
            && (c.slot in e.server.subs ==> !f.server.feeds[e.server.subs[c.slot].feed].open)
            && (forall slot :: slot != c.slot ==>
                  (slot in f.server.subs <==> slot in e.server.subs)
                  && (slot in f.server.subs ==>
                        && f.server.subs[slot] == e.server.subs[slot]
                        && f.server.feeds[f.server.subs[slot].feed] == e.server.feeds[f.server.subs[slot].feed]))
  {
    var e, slot := s.ends[p], s.client.socks[p].out[s.ends[p].read].slot;
    RelayFacts(s, p);
    assert Step(s, Reads(p, seed)).ends[p].server == Drop(e.server, slot);
    hide *;
    DropTouchesOne(e.server, slot);
  }

  lemma DropTouchesOne(s: Server, slot: nat)
    requires Linked(s)
    ensures var t := Drop(s, slot);
            && Linked(t) && slot !in t.subs && |t.feeds| == |s.feeds|
            && (slot in s.subs ==> !t.feeds[s.subs[slot].feed].open)
            && (forall other :: other != slot ==>
                  (other in t.subs <==> other in s.subs)
                  && (other in t.subs ==> t.subs[other] == s.subs[other] && t.feeds[t.subs[other].feed] == s.feeds[s.subs[other].feed]))
  {
  }

  lemma OneMoreRead(out: seq<Control>, n: nat)
    requires n < |out|
    ensures forall c :: c in out[..n + 1] <==> c in out[..n] || c == out[n]
  {
    assert out[..n + 1] == out[..n] + [out[n]];
  }

  /** Where nothing comes of a control. */
  lemma PassHolds(e: End, f: End, out: seq<Control>)
    requires e.read < |out| && f.read == e.read + 1 && Held(e, out)
    requires out[e.read].Unsub? ==> out[e.read].slot !in e.server.subs
    requires f.server.subs == e.server.subs && f.owner == e.owner && f.server.feeds == e.server.feeds
    ensures Held(f, out)
  {
    OneMoreRead(out, e.read);
    forall slot: nat
      ensures Serves(f, out, slot)
    {
      assert Serves(e, out, slot);
    }
  }

  lemma ReadUnsubHolds(e: End, out: seq<Control>, slot: nat)
    requires Linked(e.server) && e.read < |out| && Routed(e, out) && Held(e, out) && out[e.read] == Unsub(slot)
    ensures Held(End(Drop(e.server, slot), e.read + 1, e.log, e.seen, e.owner), out)
  {
    var f := e.(server := Drop(e.server, slot));
    DropHolds(e, slot, out);
    PassHolds(f, f.(read := e.read + 1), out);
  }

  lemma MoreSubs(subs: map<nat, Subscription>, slot: nat, sub: Subscription)
    requires slot !in subs
    ensures |subs[slot := sub]| == |subs| + 1
  {
    assert subs[slot := sub].Keys == subs.Keys + {slot};
    assert |subs[slot := sub].Keys| == |subs[slot := sub]| && |subs.Keys| == |subs|;
  }

  lemma ReadSubHolds(e: End, out: seq<Control>, slot: nat, stream: string, seed: seq<Blob>)
    requires Linked(e.server) && e.read < |out| && Owned(e, out) && Held(e, out) && out[e.read] == Sub(slot, stream)
    requires slot !in e.owner && slot !in e.server.subs && Unsub(slot) !in out[..e.read] && |e.server.subs| < MAX_SUBSCRIPTIONS
    ensures var n := |e.server.feeds|;
            var t := e.server.(subs := e.server.subs[slot := Subscription(n, 2)], feeds := e.server.feeds + [Feed(stream, seed, seed, true)]);
            Held(End(t, e.read + 1, e.log, e.seen, e.owner[slot := n]), out)
  {
    var n := |e.server.feeds|;
    var t := e.server.(subs := e.server.subs[slot := Subscription(n, 2)], feeds := e.server.feeds + [Feed(stream, seed, seed, true)]);
    var f := End(t, e.read + 1, e.log, e.seen, e.owner[slot := n]);
    OneMoreRead(out, e.read);
    MoreSubs(e.server.subs, slot, Subscription(n, 2));
    forall other: nat
      ensures Serves(f, out, other)
    {
      assert Serves(e, out, other);
    }
  }

  lemma NotServedYet(e: End, out: seq<Control>)
    requires Linked(e.server) && e.read < |out| && Routed(e, out) && UniqueSubs(out) && InTurn(out) && out[e.read].Sub?
    ensures var slot := out[e.read].slot; slot !in e.owner && slot !in e.server.subs && Unsub(slot) !in out[..e.read]
  {
    NotOwnedYet(e, out, out[e.read].slot);
  }

  lemma ReadHolds(e: End, out: seq<Control>, hubs: set<string>, seed: seq<Blob>)
    requires Linked(e.server) && e.read < |out| && Routed(e, out) && Held(e, out) && UniqueSubs(out) && InTurn(out)
    ensures Held(ReadOne(e, out[e.read], hubs, seed), out)
  {
    var c := out[e.read];
    if c.Unsub? {
      assert ReadOne(e, c, hubs, seed) == End(Drop(e.server, c.slot), e.read + 1, e.log, e.seen, e.owner);
      hide *;
      ReadUnsubHolds(e, out, c.slot);
    } else if c.Sub? {
      assert Owned(e, out);
      hide *;
      NotServedYet(e, out);
      ReadNewHolds(e, out, hubs, seed);
    } else {
      hide Held, Routed, UniqueSubs, InTurn, Linked;
      PassHolds(e, ReadOne(e, c, hubs, seed), out);
    }
  }

  lemma ReadNewHolds(e: End, out: seq<Control>, hubs: set<string>, seed: seq<Blob>)
    requires Linked(e.server) && e.read < |out| && Owned(e, out) && Held(e, out) && out[e.read].Sub?
    requires var slot := out[e.read].slot; slot !in e.owner && slot !in e.server.subs && Unsub(slot) !in out[..e.read]
    ensures Held(ReadOne(e, out[e.read], hubs, seed), out)
  {
    hide Held, Owned;
    var c := out[e.read];
    if |e.server.subs| < MAX_SUBSCRIPTIONS && c.stream in hubs {
      ReadSubHolds(e, out, c.slot, c.stream, seed);
    } else {
      PassHolds(e, ReadOne(e, c, hubs, seed), out);
    }
  }

  // ---------------------------------------------------------------- every run

  /** What the relay does besides reading leaves the subscriptions. */
  lemma MoveHolds(e: End, f: End, out: seq<Control>)
    requires e.read <= |out| && f.read == e.read && Held(e, out) && f.owner == e.owner && f.server.subs.Keys == e.server.subs.Keys
    requires |f.server.feeds| == |e.server.feeds|
    requires forall g :: 0 <= g < |e.server.feeds| ==> (f.server.feeds[g].open ==> e.server.feeds[g].open)
    ensures Held(f, out)
  {
    assert |f.server.subs| == |f.server.subs.Keys| && |e.server.subs| == |e.server.subs.Keys|;
    forall slot: nat
      ensures Serves(f, out, slot)
    {
      assert Serves(e, out, slot);
    }
  }

  lemma OutHolds(e: End, out: seq<Control>, more: seq<Control>)
    requires e.read <= |out| && Held(e, out) && out <= more
    ensures Held(e, more)
  {
    assert more[..e.read] == out[..e.read];
    forall slot: nat
      ensures Serves(e, more, slot)
    {
      assert Serves(e, out, slot);
    }
  }

  lemma RelayFacts(s: Sys, q: nat)
    requires Sound(s) && q < |s.ends|
    ensures var e, out := s.ends[q], s.client.socks[q].out;
            Linked(e.server) && e.read <= |out| && Routed(e, out) && Held(e, out) && UniqueSubs(out) && InTurn(out)
  {
    assert EndInv(s, q) && HeldAt(s, q) && UniqueSubs(s.client.socks[q].out) && InTurn(s.client.socks[q].out);
  }

  lemma RelayHolds(s: Sys, ev: Event, q: nat)
    requires Sound(s) && RelayEvent(ev) && q < |s.ends| && WellFormed(Step(s, ev)) && q < |Step(s, ev).ends|
    ensures HeldAt(Step(s, ev), q)
  {
    var t := Step(s, ev);
    assert WellFormed(s);
    RelayFacts(s, q);
    var e, f, out := s.ends[q], t.ends[q], s.client.socks[q].out;
    hide Sound, Inv, WellFormed, Linked, Routed, Held, UniqueSubs, InTurn, ReadOne, SendOne, GiveOne, Drop, HeldAt;
    if f == e {
      RelayLeavesClient(s, ev);
      HeldAtIs(t, q);
    } else {
      RelayChanges(s, ev, q);
      hide *;
      if ev.Reads? {
        ReadHolds(e, out, s.hubs, ev.seed);
      } else if ev.SeesClosed? {
        DropHolds(e, ev.slot, out);
      } else {
        MoveHolds(e, f, out);
      }
      HeldAtIs(t, q);
    }
  }

  lemma RelayLeavesClient(s: Sys, ev: Event)
    requires WellFormed(s) && RelayEvent(ev)
    ensures Step(s, ev).client == s.client
  {
  }

  lemma HeldAtIs(s: Sys, q: nat)
    requires WellFormed(s) && q < |s.ends|
    ensures HeldAt(s, q) <==> Held(s.ends[q], s.client.socks[q].out)
  {
  }

  /** What an event of the relay or the hub makes of the one connection it is about. */
  lemma RelayChanges(s: Sys, ev: Event, q: nat)
    requires WellFormed(s) && RelayEvent(ev) && q < |s.ends| && Step(s, ev).ends[q] != s.ends[q]
    ensures var e, f, out := s.ends[q], Step(s, ev).ends[q], s.client.socks[q].out;
            && Step(s, ev).client == s.client
            && (ev.Reads? ==> e.read < |out| && f == ReadOne(e, out[e.read], s.hubs, ev.seed))
            && (ev.SeesClosed? ==> f == e.(server := Drop(e.server, ev.slot)))
            && (!ev.Reads? && !ev.SeesClosed? ==>
                  && f.read == e.read && f.owner == e.owner && f.server.subs.Keys == e.server.subs.Keys
                  && |f.server.feeds| == |e.server.feeds|
                  && forall g :: 0 <= g < |e.server.feeds| ==> (f.server.feeds[g].open ==> e.server.feeds[g].open))
  {
    if ev.Sends? {
      hide SendOne;
      SendMoves(s.ends[ev.p], ev.slot);
    }
  }

  lemma SendMoves(e: End, slot: nat)
    requires Linked(e.server) && HasHead(e, slot)
    ensures var f := SendOne(e, slot);
            && f.read == e.read && f.owner == e.owner && f.server.subs.Keys == e.server.subs.Keys && |f.server.feeds| == |e.server.feeds|
            && forall g :: 0 <= g < |e.server.feeds| ==> f.server.feeds[g].open == e.server.feeds[g].open
  {
  }

  lemma StepIsSound(s: Sys, ev: Event)
    requires Sound(s)
    ensures Sound(Step(s, ev))
  {
    var t := Step(s, ev);
    StepKeepsInv(s, ev);
    StepTells(s, ev);
    assert WellFormed(s) && WellFormed(t);
    hide Inv, Telling, Held;
    forall q | 0 <= q < |t.ends|
      ensures HeldAt(t, q)
    {
      if RelayEvent(ev) {
        RelayHolds(s, ev, q);
      } else {
        DashboardHolds(s, ev, q);
      }
    }
  }

  /** Nothing that was sent is taken back. */
  ghost predicate Grown(c: Client, d: Client) {
    |c.socks| <= |d.socks| && forall q :: 0 <= q < |c.socks| ==> c.socks[q].out <= d.socks[q].out
  }

  lemma ListingGrows(c: Client, stream: string)
    requires ClientInv(c) && c.nextSlot <= LAST_SLOT
    ensures var d, i := Connect(c), |c.virtuals|;
            var e := Listed(d, stream);
            && Grown(c, d) && e.socks == d.socks && |d.virtuals| == i && Subscribed(e, i) && d.nextSlot == c.nextSlot && d.physical.Some?
  {
  }

  lemma AllocateGrows(s: Sys, stream: string)
    requires Inv(s) && s.client.nextSlot <= LAST_SLOT
    ensures Grown(s.client, Allocate(s.client, stream))
  {
    var c := s.client;
    var d, i := Connect(c), |c.virtuals|;
    var e := Listed(d, stream);
    assert CInv(c) && ClientInv(c);
    ConnectKeepsCInv(s);
    hide Inv, CInv, ClientInv, Allocate, OpenVirtual, Connect, Subscribed, Listed;
    ListingGrows(c, stream);
    AllocateConnects(c, stream);
    AllocateIs(d, stream);
    ListKeepsCInv(d, stream);
    OpenVirtualKeeps(e, i);
  }

  lemma SendingGrows(s: Sys, ev: Event)
    requires Inv(s) && GridAnnounced.Sends(ev)
    ensures Grown(s.client, Step(s, ev).client)
  {
    var c := s.client;
    assert WellFormed(s) && CInv(c);
    hide Inv, CInv, CloseVirtual, OnOpen, OnMessage, Allocate;
    match ev
    case Opens(stream) => if c.nextSlot <= LAST_SLOT { AllocateGrows(s, stream); }
    case Closes(i) => if i < |c.virtuals| { CloseVirtualKeeps(c, i); }
    case SockOpens(p) => if p < |c.socks| { OnOpenKeeps(c, p); }
    case Arrives(p) => if p < |c.socks| && s.ends[p].seen < |s.ends[p].log| { ArrivalGrows(s, p); }
  }

  lemma ArrivalGrows(s: Sys, p: nat)
    requires Inv(s) && p < |s.ends| && s.ends[p].seen < |s.ends[p].log|
    ensures Grown(s.client, OnMessage(s.client, p, s.ends[p].log[s.ends[p].seen]))
  {
    assert EndInv(s, p);
    var c, m := s.client, s.ends[p].log[s.ends[p].seen];
    if c.physical == Some(p) {
      OnMessageIs(c, p, m);
      CountedOnlyAppends(c, p, m);
      ArrivalLeavesOthers(c, p, m);
    }
  }

  lemma DashboardGrows(s: Sys, ev: Event)
    requires Inv(s) && !RelayEvent(ev)
    ensures Grown(s.client, Step(s, ev).client)
  {
    if GridAnnounced.Sends(ev) {
      SendingGrows(s, ev);
    } else if Step(s, ev).client != s.client {
      EventEnds(s, ev);
      hide Step, Inv;
    }
  }

  /** The relay's ends are as they were, but for what has arrived, or new. */
  lemma DashboardLeavesEnds(s: Sys, ev: Event, q: nat)
    requires WellFormed(s) && !RelayEvent(ev) && q < |Step(s, ev).ends|
    ensures q < |s.ends| ==> Step(s, ev).ends[q] == s.ends[q].(seen := Step(s, ev).ends[q].seen)
    ensures q >= |s.ends| ==> Step(s, ev).ends[q] == NewEnd(s.flow)
  {
    hide Allocate, OnMessage, CloseVirtual, OnOpen, Disconnect, Recycle, CloseFactory, IdleFires;
  }

  lemma DashboardHolds(s: Sys, ev: Event, q: nat)
    requires Sound(s) && !RelayEvent(ev) && WellFormed(Step(s, ev)) && q < |Step(s, ev).ends|
    ensures HeldAt(Step(s, ev), q)
  {
    var t := Step(s, ev);
    DashboardLeavesEnds(s, ev, q);
    if q < |s.ends| {
      DashboardGrows(s, ev);
      RelayFacts(s, q);
      hide Step, Inv, Telling, Held, WellFormed, Linked;
      OutHolds(s.ends[q], s.client.socks[q].out, t.client.socks[q].out);
      SeenHolds(s.ends[q], t.ends[q], t.client.socks[q].out);
    } else {
      NewEndHolds(s.flow, t.client.socks[q].out);
    }
  }

  lemma SeenHolds(e: End, f: End, out: seq<Control>)
    requires e.read <= |out| && Held(e, out) && f == e.(seen := f.seen)
    ensures Held(f, out)
  {
    MoveHolds(e, f, out);
  }

  lemma NewEndHolds(flow: bool, out: seq<Control>)
    ensures Held(NewEnd(flow), out)
  {
  }

  lemma {:induction false} RunIsSound(s: Sys, events: seq<Event>)
    requires Sound(s)
    ensures Sound(Run(s, events))
    decreases |events|
  {
    hide Telling, HeldAt, EndInv, DeliveredInv, CInv;
    if events != [] {
      StepKeepsInv(s, events[0]);
      StepIsSound(s, events[0]);
      RunIsSound(Step(s, events[0]), events[1..]);
    }
  }

  lemma StartIsSound(flow: bool, hubs: set<string>)
    ensures Sound(Start(flow, hubs))
  {
  }

  /**
   In every run a relay serves at most sixteen slots of a connection: each of them was subscribed
   to the stream it is served and has not been unsubscribed, and of those that were given a feed
   only such as were unsubscribed, or whose feed has ended, are not served any more.
   */
  lemma ServedExactlyWhenSubscribed(flow: bool, hubs: set<string>, events: seq<Event>, p: nat, slot: nat)
    requires p < |After(flow, hubs, events).ends|
    ensures var s := After(flow, hubs, events);
            var e := s.ends[p];
            && p < |s.client.socks| && e.read <= |s.client.socks[p].out| && |e.server.subs| <= 16
            && var said := s.client.socks[p].out[..e.read];
            && (slot in e.server.subs ==>
                  && e.server.subs[slot].feed < |e.server.feeds|
                  && Sub(slot, e.server.feeds[e.server.subs[slot].feed].stream) in said
                  && Unsub(slot) !in said)
            && (slot in e.owner && slot !in e.server.subs ==>
                  Unsub(slot) in said || (e.owner[slot] < |e.server.feeds| && !e.server.feeds[e.owner[slot]].open))
  {
    StartIsSound(flow, hubs);
    RunIsSound(Start(flow, hubs), events);
    RelayFacts(After(flow, hubs, events), p);
    var s := After(flow, hubs, events);
    assert Serves(s.ends[p], s.client.socks[p].out, slot);
  }

  // ---------------------------------------------------------------- nothing gets stuck

  /** An open virtual socket on the open current connection, whose slot the relay serves from feed f. */
  ghost predicate IsServed(s: Sys, i: nat, f: nat) {
    && Sound(s) && i < |s.client.virtuals|
    && var v := s.client.virtuals[i];
    && !v.closed && IsOpen(s.client, v.sock)
    && v.slot in s.ends[v.sock].server.subs && s.ends[v.sock].server.subs[v.slot].feed == f
  }

  /** What the hub gave feed f of the connection, and what of it waits there. */
  function FeedAt(s: Sys, p: nat, f: nat): Feed
    requires p < |s.ends| && f < |s.ends[p].server.feeds|
  {
    s.ends[p].server.feeds[f]
  }

  /** The virtual socket and its feed are served as before. */
  ghost predicate SameService(s: Sys, t: Sys, i: nat, f: nat)
    requires IsServed(s, i, f) && IsServed(t, i, f)
  {
    var p := s.client.virtuals[i].sock;
    && t.client.virtuals[i] == s.client.virtuals[i].(delivered := t.client.virtuals[i].delivered)
    && f < |s.ends[p].server.feeds| && f < |t.ends[p].server.feeds|
    && FeedAt(t, p, f).given == FeedAt(s, p, f).given
  }

  lemma ServedFacts(s: Sys, i: nat, f: nat)
    requires IsServed(s, i, f)
    ensures var v, e := s.client.virtuals[i], s.ends[s.client.virtuals[i].sock];
            var out := s.client.socks[v.sock].out;
            && f < |e.server.feeds| && Linked(e.server) && e.read <= |out| && e.seen <= |e.log|
            && Whole(e, v.slot, f) && v.delivered == ForSlot(e.log[..e.seen], v.slot)
            && Unsub(v.slot) !in out && v.slot <= LAST_SLOT
            && (forall k :: e.read <= k < |out| && out[k].Sub? ==> out[k].slot != v.slot)
  {
    var v := s.client.virtuals[i];
    RelayFacts(s, v.sock);
    assert EndInv(s, v.sock) && DeliveredInv(v, s.ends[v.sock]);
    assert Told(s.client, i);
    var e, out := s.ends[v.sock], s.client.socks[v.sock].out;
    assert v.slot in e.owner && Sub(v.slot, e.server.feeds[e.owner[v.slot]].stream) in out[..e.read];
  }

  /** What is on its way to the dashboard arrives. */
  lemma ArrivingServes(s: Sys, i: nat, f: nat)
    requires IsServed(s, i, f)
    requires var p := s.client.virtuals[i].sock; s.ends[p].seen < |s.ends[p].log|
    ensures var p := s.client.virtuals[i].sock;
            var t := Step(s, Arrives(p));
            && IsServed(t, i, f) && SameService(s, t, i, f)
            && t.ends[p] == s.ends[p].(seen := s.ends[p].seen + 1)
  {
    var p := s.client.virtuals[i].sock;
    IsServedIsInv(s, i, f);
    StepIsSound(s, Arrives(p));
    MessageFacts(s, p);
    var c, m := s.client, s.ends[p].log[s.ends[p].seen];
    ArrivingStep(s, p);
    hide Step, Sound, Inv, WellFormed, OnMessage, Counted, ClientInv;
    ArrivalLeavesOthers(c, p, m);
    CountedWords(c, p, m, p);
  }

  lemma ArrivingStep(s: Sys, p: nat)
    requires WellFormed(s) && p < |s.ends| && IsOpen(s.client, p) && s.ends[p].seen < |s.ends[p].log|
    ensures var e := s.ends[p];
            Step(s, Arrives(p)) == s.(client := OnMessage(s.client, p, e.log[e.seen]), ends := s.ends[p := e.(seen := e.seen + 1)])
  {
    hide OnMessage;
  }

  lemma MessageFacts(s: Sys, p: nat)
    requires Sound(s) && p < |s.ends| && s.ends[p].seen < |s.ends[p].log|
    ensures ClientInv(s.client) && p < |s.client.socks|
    ensures var m := s.ends[p].log[s.ends[p].seen]; m.Data? ==> |m.bytes| >= 2
  {
    assert EndInv(s, p);
  }

  /** A control that the relay reads is about another slot, or an acknowledgement. */
  lemma ReadingServes(s: Sys, i: nat, f: nat)
    requires IsServed(s, i, f)
    requires var p := s.client.virtuals[i].sock; s.ends[p].read < |s.client.socks[p].out|
    ensures var p := s.client.virtuals[i].sock;
            var t := Step(s, Reads(p, []));
            && IsServed(t, i, f) && SameService(s, t, i, f)
            && t.client == s.client && t.ends[p].read == s.ends[p].read + 1 && t.ends[p].log == s.ends[p].log && t.ends[p].seen == s.ends[p].seen
            && FeedAt(t, p, f).queue == FeedAt(s, p, f).queue
  {
    var p := s.client.virtuals[i].sock;
    IsServedIsInv(s, i, f);
    StepIsSound(s, Reads(p, []));
    ReadingStep(s, p);
    NextIsForOthers(s, i, f);
    ReadLeavesOthers(s.ends[p], s.client.socks[p].out[s.ends[p].read], s.hubs, s.client.virtuals[i].slot, f);
    hide Sound, ReadOne, Linked, Inv, WellFormed, Step;
  }

  lemma ReadingStep(s: Sys, p: nat)
    requires WellFormed(s) && p < |s.ends| && s.ends[p].read < |s.client.socks[p].out|
    ensures var e, c := s.ends[p], s.client.socks[p].out[s.ends[p].read];
            && Linked(e.server) && Step(s, Reads(p, [])) == s.(ends := s.ends[p := ReadOne(e, c, s.hubs, [])])
            && ReadOne(e, c, s.hubs, []) == e.(server := ReadOne(e, c, s.hubs, []).server, read := e.read + 1, owner := ReadOne(e, c, s.hubs, []).owner)
  {
    hide Apply;
  }

  lemma NextIsForOthers(s: Sys, i: nat, f: nat)
    requires IsServed(s, i, f)
    requires var p := s.client.virtuals[i].sock; s.ends[p].read < |s.client.socks[p].out|
    ensures var p := s.client.virtuals[i].sock;
            var c := s.client.socks[p].out[s.ends[p].read];
            c.Ack? || c.slot != s.client.virtuals[i].slot
  {
    ServedFacts(s, i, f);
    var out, n := s.client.socks[s.client.virtuals[i].sock].out, s.ends[s.client.virtuals[i].sock].read;
    hide *;
    assert out[n] in out;
  }

  lemma ReadLeavesOthers(e: End, c: Control, hubs: set<string>, slot: nat, f: nat)
    requires Linked(e.server) && slot in e.server.subs && e.server.subs[slot].feed == f
    requires c.Ack? || c.slot != slot
    ensures var g := ReadOne(e, c, hubs, []);
            && slot in g.server.subs && g.server.subs[slot].feed == f && f < |e.server.feeds| <= |g.server.feeds|
            && g.server.feeds[f].given == e.server.feeds[f].given && g.server.feeds[f].queue == e.server.feeds[f].queue
  {
  }

  lemma SendTakesTheHead(e: End, slot: nat, f: nat)
    requires Linked(e.server) && HasHead(e, slot) && e.server.subs[slot].feed == f
    ensures var g := SendOne(e, slot);
            && slot in g.server.subs && g.server.subs[slot].feed == f && f < |e.server.feeds| == |g.server.feeds|
            && g.server.feeds[f].given == e.server.feeds[f].given && |g.server.feeds[f].queue| == |e.server.feeds[f].queue| - 1
  {
  }

  lemma SendingStep(s: Sys, p: nat, slot: nat)
    requires WellFormed(s) && p < |s.ends| && HasHead(s.ends[p], slot) && CanSend(s.ends[p].server)
    ensures Linked(s.ends[p].server) && Step(s, Event.Sends(p, slot)) == s.(ends := s.ends[p := SendOne(s.ends[p], slot)])
  {
    hide SendOne, CanSend;
  }

  /** The head of the slot's queue is sent, if there is credit. */
  lemma SendingServes(s: Sys, i: nat, f: nat)
    requires IsServed(s, i, f)
    requires var e := s.ends[s.client.virtuals[i].sock]; CanSend(e.server) && f < |e.server.feeds| && e.server.feeds[f].queue != []
    ensures var v := s.client.virtuals[i];
            var t := Step(s, Event.Sends(v.sock, v.slot));
            && IsServed(t, i, f) && SameService(s, t, i, f)
            && t.client == s.client
            && |FeedAt(t, v.sock, f).queue| == |FeedAt(s, v.sock, f).queue| - 1
  {
    var v := s.client.virtuals[i];
    IsServedIsInv(s, i, f);
    StepIsSound(s, Event.Sends(v.sock, v.slot));
    SendingStep(s, v.sock, v.slot);
    SendTakesTheHead(s.ends[v.sock], v.slot, f);
    hide Sound, WellFormed, Linked, Inv, SendOne, CanSend, Step;
  }

  /** With both pipes empty there is credit. */
  lemma EmptyPipesGiveCredit(s: Sys, p: nat)
    requires Sound(s) && p < |s.ends| && s.client.physical == Some(p)
    requires s.ends[p].seen == |s.ends[p].log| && s.ends[p].read == |s.client.socks[p].out|
    ensures CanSend(s.ends[p].server)
  {
    assert EndInv(s, p);
    var e, out := s.ends[p], s.client.socks[p].out;
    assert e.log[..e.seen] == e.log && out[..e.read] == out;
  }

  /** Only the two pipes move, and the relay sends for one slot. */
  predicate OnlyMoves(events: seq<Event>, p: nat, slot: nat) {
    forall k :: 0 <= k < |events| ==> events[k] in [Arrives(p), Reads(p, []), Event.Sends(p, slot)]
  }

  lemma SameServiceTwice(s: Sys, t: Sys, u: Sys, i: nat, f: nat)
    requires IsServed(s, i, f) && IsServed(t, i, f) && IsServed(u, i, f) && SameService(s, t, i, f) && SameService(t, u, i, f)
    ensures SameService(s, u, i, f)
  {
    hide IsServed;
  }

  lemma FollowedBy(s: Sys, ev: Event, events: seq<Event>, p: nat, slot: nat)
    requires Inv(s) && OnlyMoves(events, p, slot) && ev in [Arrives(p), Reads(p, []), Event.Sends(p, slot)]
    ensures OnlyMoves([ev] + events, p, slot) && Inv(Step(s, ev)) && Run(s, [ev] + events) == Run(Step(s, ev), events)
  {
    StepKeepsInv(s, ev);
    assert ([ev] + events)[1..] == events;
    hide Inv, Step;
    forall k | 0 <= k < |[ev] + events|
      ensures ([ev] + events)[k] in [Arrives(p), Reads(p, []), Event.Sends(p, slot)]
    {
      if k > 0 { assert ([ev] + events)[k] == events[k - 1]; }
    }
  }

  /** With nothing waiting and nothing under way, everything has been delivered. */
  lemma AllIsDelivered(s: Sys, i: nat, f: nat)
    requires IsServed(s, i, f)
    requires var e := s.ends[s.client.virtuals[i].sock]; e.seen == |e.log| && f < |e.server.feeds| && e.server.feeds[f].queue == []
    ensures s.client.virtuals[i].delivered == FeedAt(s, s.client.virtuals[i].sock, f).given
  {
    ServedFacts(s, i, f);
    var e, slot := s.ends[s.client.virtuals[i].sock], s.client.virtuals[i].slot;
    assert e.log[..e.seen] == e.log && ForSlot(e.log, slot) + [] == ForSlot(e.log, slot);
  }

  lemma IsServedIsInv(s: Sys, i: nat, f: nat)
    requires IsServed(s, i, f)
    ensures Inv(s) && WellFormed(s) && s.client.virtuals[i].sock < |s.ends| && s.client.physical == Some(s.client.virtuals[i].sock)
  {
  }

  function Queued(s: Sys, p: nat, f: nat): int {
    if p < |s.ends| && f < |s.ends[p].server.feeds| then |s.ends[p].server.feeds[f].queue| else 0
  }

  function Unseen(s: Sys, p: nat): int {
    if p < |s.ends| then |s.ends[p].log| - s.ends[p].seen else 0
  }

  function Unread(s: Sys, p: nat): int {
    if p < |s.ends| && p < |s.client.socks| then |s.client.socks[p].out| - s.ends[p].read else 0
  }

  lemma {:induction false} Flush(s: Sys, i: nat, f: nat) returns (events: seq<Event>)
    requires IsServed(s, i, f)
    ensures var v := s.client.virtuals[i];
            && OnlyMoves(events, v.sock, v.slot) && Inv(s)
            && var t := Run(s, events);
            && IsServed(t, i, f) && SameService(s, t, i, f)
            && t.client.virtuals[i].delivered == FeedAt(t, v.sock, f).given
    decreases Queued(s, s.client.virtuals[i].sock, f), Unseen(s, s.client.virtuals[i].sock), Unread(s, s.client.virtuals[i].sock)
  {
    var v := s.client.virtuals[i];
    IsServedIsInv(s, i, f);
    ServedFacts(s, i, f);
    var e, out := s.ends[v.sock], s.client.socks[v.sock].out;
    if e.seen == |e.log| && e.server.feeds[f].queue == [] {
      AllIsDelivered(s, i, f);
      events := [];
    } else {
      var ev;
      if e.seen < |e.log| {
        ev := Arrives(v.sock);
        ArrivingServes(s, i, f);
      } else if e.read < |out| {
        ev := Reads(v.sock, []);
        ReadingServes(s, i, f);
      } else {
        ev := Event.Sends(v.sock, v.slot);
        EmptyPipesGiveCredit(s, v.sock);
        SendingServes(s, i, f);
      }
      var t := Step(s, ev);
      assert (Queued(t, v.sock, f) < Queued(s, v.sock, f)) || (Queued(t, v.sock, f) == Queued(s, v.sock, f) &&
             (Unseen(t, v.sock) < Unseen(s, v.sock) || (Unseen(t, v.sock) == Unseen(s, v.sock) && Unread(t, v.sock) < Unread(s, v.sock))));
      hide *;
      var rest := Flush(t, i, f);
      FollowedBy(s, ev, rest, v.sock, v.slot);
      SameServiceTwice(s, t, Run(t, rest), i, f);
      events := [ev] + rest;
    }
  }

  /**
   The live grid never gets stuck. From every state that a run can reach, for every virtual socket
   that is open on an open connection and whose slot the relay serves, it takes no more than the
   two pipes moving and the relay sending for the virtual socket to be handed everything that its
   hub has given it; credit always comes back in time.
   */
  lemma NothingIsStuck(flow: bool, hubs: set<string>, before: seq<Event>, i: nat) returns (events: seq<Event>)
    requires i < |After(flow, hubs, before).client.virtuals|
    requires var s := After(flow, hubs, before);
             var v := s.client.virtuals[i];
             && !v.closed && s.client.physical == Some(v.sock) && v.sock < |s.client.socks| && s.client.socks[v.sock].ready == OPEN
             && v.sock < |s.ends| && v.slot in s.ends[v.sock].server.subs
    ensures var s := After(flow, hubs, before);
            var v, t := s.client.virtuals[i], Run(s, events);
            && OnlyMoves(events, v.sock, v.slot)
            && i < |t.client.virtuals| && v.sock < |t.ends|
            && var f := s.ends[v.sock].server.subs[v.slot].feed;
            && f < |s.ends[v.sock].server.feeds|
            && t.client.virtuals[i] == v.(delivered := s.ends[v.sock].server.feeds[f].given)
  {
    StartIsSound(flow, hubs);
    RunIsSound(Start(flow, hubs), before);
    var s := After(flow, hubs, before);
    var v := s.client.virtuals[i];
    var f := s.ends[v.sock].server.subs[v.slot].feed;
    hide Sound, Telling, Run;
    assert IsServed(s, i, f);
    events := Flush(s, i, f);
    IsServedIsInv(Run(s, events), i, f);
  }

  // ---------------------------------------------------------------- giving up

  /** The idle timer ends the connection if nobody uses it, and does nothing otherwise. */
  lemma IdleTimerEnds(s: Sys)
    requires Inv(s) && s.client.physical.Some?
    ensures var c, d := s.client, Step(s, IdleTimer).client;
            if forall i :: 0 <= i < |c.virtuals| ==> c.virtuals[i].closed
            then d.physical == None && c.physical.value < |d.socks| && d.socks[c.physical.value].ready == CLOSED && d.virtuals == c.virtuals
            else d == c
  {
    var c := s.client;
    if i :| 0 <= i < |c.virtuals| && !c.virtuals[i].closed {
      assert Subscribed(c, i);
    }
    if slot :| slot in c.subscribers {
      assert !c.virtuals[c.subscribers[slot]].closed;
    }
  }

  lemma ClosesAll(c: Client)
    requires ClientInv(c)
    ensures |CloseSubscribers(c).virtuals| == |c.virtuals| && CloseSubscribers(c).subscribers == map[]
    ensures forall i :: 0 <= i < |c.virtuals| ==> CloseSubscribers(c).virtuals[i] == c.virtuals[i].(closed := true)
  {
    forall i | 0 <= i < |c.virtuals|
      ensures c.virtuals[i].closed || Subscribed(c, i)
    {
    }
  }

  /**
   A connection that broke, or took too long to open, is given up if it is the current one: every
   virtual socket is closed, and if it had never opened, the old route is used from then on.
   */
  lemma GivingUpClosesAll(s: Sys, p: nat, ev: Event)
    requires Inv(s) && s.client.physical == Some(p)
    requires (ev == SockGone(p) && s.client.socks[p].ready == CLOSED) || (ev == StartupTimer(p) && !s.client.socks[p].up)
    ensures var c, d := s.client, Step(s, ev).client;
            && d.physical == None && d.unhealthy && |d.virtuals| == |c.virtuals|
            && (forall i :: 0 <= i < |d.virtuals| ==> d.virtuals[i] == c.virtuals[i].(closed := true))
            && (d.legacy <==> c.legacy || !c.socks[p].up)
  {
    var up := ev.SockGone? && s.client.socks[p].up;
    assert ClientInv(s.client) && Step(s, ev).client == Disconnect(s.client, p, up);
    hide *;
    DisconnectClosesAll(s.client, p, up);
  }

  lemma DisconnectClosesAll(c: Client, p: nat, up: bool)
    requires ClientInv(c) && c.physical == Some(p)
    ensures p < |c.socks|
    ensures var d := Disconnect(c, p, up);
            && d.physical == None && d.unhealthy && |d.virtuals| == |c.virtuals|
            && (forall i :: 0 <= i < |d.virtuals| ==> d.virtuals[i] == c.virtuals[i].(closed := true))
            && (d.legacy <==> c.legacy || !up)
  {
    ClosesAll(c);
    var d := Disconnect(c, p, up);
    assert p < |c.socks| && d.virtuals == CloseSubscribers(c).virtuals;
  }

  /** A factory that is disposed of has closed every virtual socket, and makes no more. */
  lemma DisposingClosesAll(s: Sys, stream: string)
    requires Inv(s)
    ensures var c, t := s.client, Step(s, Disposes);
            && t.client.stopped && t.client.physical == None && |t.client.virtuals| == |c.virtuals|
            && (forall i :: 0 <= i < |c.virtuals| ==> t.client.virtuals[i] == c.virtuals[i].(closed := true))
            && WellFormed(t) && Step(t, Opens(stream)) == t
  {
    StepKeepsInv(s, Disposes);
    ClosesAll(s.client);
    assert forall i :: 0 <= i < |s.client.virtuals| ==>
      Step(s, Disposes).client.virtuals[i] == CloseSubscribers(s.client).virtuals[i];
  }

  // ---------------------------------------------------------------- asking for a stream

  /** Announcing a virtual socket marks it and sends; nothing is closed by it, and no connection opens or ends. */
  predicate OnlyAnnounced(c: Client, d: Client) {
    && |d.virtuals| == |c.virtuals| && |d.socks| == |c.socks| && d.physical == c.physical && d.unhealthy == c.unhealthy
    && (forall i :: 0 <= i < |c.virtuals| ==> d.virtuals[i] == c.virtuals[i].(up := d.virtuals[i].up))
    && (forall p :: 0 <= p < |c.socks| ==> d.socks[p].ready == c.socks[p].ready)
  }

  lemma OpenVirtualAnnounces(c: Client, i: nat)
    requires Indexed(c) && i < |c.virtuals|
    ensures OnlyAnnounced(c, OpenVirtual(c, i)) && OnlyAnnounced(c, c) && Indexed(OpenVirtual(c, i))
  {
  }

  lemma {:induction false} OpenAllAnnounces(c: Client, i: nat)
    requires Indexed(c) && i <= |c.virtuals|
    ensures OnlyAnnounced(c, OpenAll(c, i))
    decreases |c.virtuals| - i
  {
    if i < |c.virtuals| {
      var d := if Subscribed(c, i) then OpenVirtual(c, i) else c;
      OpenVirtualAnnounces(c, i);
      hide OpenVirtual, Subscribed;
      OpenAllAnnounces(d, i + 1);
    }
  }

  lemma OpeningOpens(c: Client, p: nat)
    requires Indexed(c) && c.physical == Some(p)
    ensures IsOpen(OnOpen(c, p), p) && !OnOpen(c, p).unhealthy && |OnOpen(c, p).virtuals| == |c.virtuals|
    ensures forall i :: 0 <= i < |c.virtuals| ==> OnOpen(c, p).virtuals[i] == c.virtuals[i].(up := OnOpen(c, p).virtuals[i].up)
  {
    var d := c.(socks := c.socks[p := c.socks[p].(ready := OPEN, up := true)], unhealthy := false);
    hide OpenAll;
    OpenAllAnnounces(d, 0);
  }

  lemma AskedIsListed(c: Client, stream: string)
    requires Indexed(c) && c.nextSlot <= LAST_SLOT
    ensures var d, i := Allocate(c, stream), |c.virtuals|;
            && |d.virtuals| == i + 1 && Indexed(d)
            && d.virtuals[i].stream == stream && !d.virtuals[i].closed && d.physical == Some(d.virtuals[i].sock)
  {
    AllocateConnects(c, stream);
    AllocateIs(Connect(c), stream);
  }

  lemma SubscribedIfOpen(c: Client, i: nat)
    requires Telling(c) && i < |c.virtuals| && !c.virtuals[i].closed && IsOpen(c, c.virtuals[i].sock)
    ensures Sub(c.virtuals[i].slot, c.virtuals[i].stream) in c.socks[c.virtuals[i].sock].out
  {
    assert Told(c, i) && !Waiting(c, i);
  }

  /** As long as slots are left, nothing is recycled; or else numbering begins anew, and the connection it was used on is given up. */
  lemma RecyclingMakesRoom(s: Sys)
    requires Inv(s)
    ensures var c, d := s.client, Step(s, Recycles).client;
            && d.nextSlot <= 65535 && d.stopped == c.stopped && d.legacy == c.legacy
            && (c.nextSlot <= 65535 ==> d == c)
            && (c.nextSlot > 65535 ==>
                  && d.nextSlot == 1 && d.physical == None && |d.virtuals| == |c.virtuals|
                  && forall i :: 0 <= i < |d.virtuals| ==> d.virtuals[i].closed)
  {
    RecycleKeeps(s.client);
    var d := Recycle(s.client);
    if s.client.nextSlot > LAST_SLOT {
      forall i | 0 <= i < |d.virtuals|
        ensures d.virtuals[i].closed
      {
        assert d.virtuals[i].closed || Subscribed(d, i);
      }
    }
  }

  /**
   A stream that is asked for is subscribed to, however many slots were used before: at once if the
   connection is open, or else as soon as it opens.
   */
  lemma AskedIsSubscribed(flow: bool, hubs: set<string>, before: seq<Event>, stream: string)
    requires var c := After(flow, hubs, before).client; !c.stopped && !c.legacy
    ensures WellFormed(After(flow, hubs, before))
    ensures var s := Step(After(flow, hubs, before), Recycles);
            && WellFormed(s)
            && var c := Step(s, Opens(stream)).client;
            var i := |s.client.virtuals|;
            && |c.virtuals| == i + 1
            && var v := c.virtuals[i];
            && v.stream == stream && !v.closed && c.physical == Some(v.sock) && v.sock < |c.socks|
            && (c.socks[v.sock].ready == OPEN ==> Sub(v.slot, stream) in c.socks[v.sock].out)
            && (c.socks[v.sock].ready == CONNECTING ==>
                  && WellFormed(Step(s, Opens(stream)))
                  && var d := Step(Step(s, Opens(stream)), SockOpens(v.sock)).client;
                  && v.sock < |d.socks| && d.socks[v.sock].ready == OPEN && !d.unhealthy && Sub(v.slot, stream) in d.socks[v.sock].out)
  {
    RunTells(Start(flow, hubs), before);
    var r := After(flow, hubs, before);
    StepKeepsInv(r, Recycles);
    StepTells(r, Recycles);
    RecyclingMakesRoom(r);
    var s := Step(r, Recycles);
    var t, i := Step(s, Opens(stream)), |s.client.virtuals|;
    AskedStep(s, stream);
    StepKeepsInv(s, Opens(stream));
    StepTells(s, Opens(stream));
    var p := t.client.virtuals[i].sock;
    hide Step, Telling, Run, EndInv, DeliveredInv, CInv;
    if t.client.socks[p].ready == OPEN {
      SubscribedIfOpen(t.client, i);
    } else if t.client.socks[p].ready == CONNECTING {
      StepTells(t, SockOpens(p));
      OpeningStep(t, p);
      SubscribedIfOpen(Step(t, SockOpens(p)).client, i);
    }
  }

  lemma AskedStep(s: Sys, stream: string)
    requires WellFormed(s) && !s.client.stopped && !s.client.legacy && s.client.nextSlot <= LAST_SLOT
    ensures var d, i := Step(s, Opens(stream)).client, |s.client.virtuals|;
            && |d.virtuals| == i + 1 && Indexed(d)
            && d.virtuals[i].stream == stream && !d.virtuals[i].closed && d.physical == Some(d.virtuals[i].sock)
  {
    hide Allocate;
    AskedIsListed(s.client, stream);
  }

  lemma OpeningStep(s: Sys, p: nat)
    requires WellFormed(s) && s.client.physical == Some(p) && s.client.socks[p].ready == CONNECTING
    ensures var c, d := s.client, Step(s, SockOpens(p)).client;
            && IsOpen(d, p) && !d.unhealthy && |d.virtuals| == |c.virtuals|
            && forall i :: 0 <= i < |c.virtuals| ==> d.virtuals[i] == c.virtuals[i].(up := d.virtuals[i].up)
  {
    hide OnOpen;
    OpeningOpens(s.client, p);
  }
}
