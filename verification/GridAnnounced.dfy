/**
 What the dashboard tells the relay: a virtual socket on an open connection has subscribed to its
 stream, once, and what is unsubscribed is what was closed.
 */
module GridAnnounced {
  import opened Bytes
  import opened Grid
  import opened GridSystem

  predicate IsOpen(c: Client, p: nat) {
    p < |c.socks| && c.physical == Some(p) && c.socks[p].ready == OPEN
  }

  /** What has been sent about one virtual socket on the connection that it was made on. */
  predicate Told(c: Client, i: nat)
    requires i < |c.virtuals| && c.virtuals[i].sock < |c.socks|
  {
    var v, out := c.virtuals[i], c.socks[c.virtuals[i].sock].out;
    && (v.up ==> Sub(v.slot, v.stream) in out && c.socks[v.sock].ready != CONNECTING)
    && (Unsub(v.slot) in out ==> v.closed)
    && (v.closed && v.up && IsOpen(c, v.sock) ==> Unsub(v.slot) in out)
  }

  predicate Waiting(c: Client, i: nat)
    requires i < |c.virtuals|
  {
    !c.virtuals[i].closed && !c.virtuals[i].up && IsOpen(c, c.virtuals[i].sock)
  }

  /** No slot is subscribed once it has been unsubscribed. */
  predicate InTurn(out: seq<Control>) {
    forall k, l :: 0 <= k < l < |out| && out[k].Unsub? && out[l].Sub? ==> out[k].slot != out[l].slot
  }

  /** Every unsubscription is that of a virtual socket made on the connection, which is closed. */
  ghost predicate UnsubsOwned(c: Client, p: nat)
    requires p < |c.socks|
  {
    forall slot :: Unsub(slot) in c.socks[p].out ==> Owns(c, p, slot)
  }

  ghost predicate Owns(c: Client, p: nat, slot: nat) {
    exists i :: 0 <= i < |c.virtuals| && c.virtuals[i].sock == p && c.virtuals[i].slot == slot && c.virtuals[i].closed
  }

  /** All that was to be told has been told, of the first n virtual sockets without exception. */
  ghost predicate ToldAll(c: Client, n: nat) {
    && ClientInv(c)
    && (forall i :: 0 <= i < |c.virtuals| ==> Told(c, i))
    && (forall i :: 0 <= i < |c.virtuals| && i < n ==> !Waiting(c, i))
    && (forall p :: 0 <= p < |c.socks| ==> InTurn(c.socks[p].out) && UnsubsOwned(c, p))
  }

  ghost predicate Telling(c: Client) {
    ToldAll(c, |c.virtuals|)
  }

  // ---------------------------------------------------------------- one operation

  /** Who owns a slot goes on owning it. */
  lemma StillOwned(c: Client, d: Client, p: nat, slot: nat)
    requires Owns(c, p, slot) && |c.virtuals| <= |d.virtuals|
    requires forall i :: 0 <= i < |c.virtuals| ==>
               var v, w := c.virtuals[i], d.virtuals[i]; w.slot == v.slot && w.sock == v.sock && (v.closed ==> w.closed)
    ensures Owns(d, p, slot)
  {
    var i :| 0 <= i < |c.virtuals| && c.virtuals[i].sock == p && c.virtuals[i].slot == slot && c.virtuals[i].closed;
    assert d.virtuals[i].closed;
  }

  lemma StillUnsubsOwned(c: Client, d: Client, p: nat)
    requires p < |c.socks| && p < |d.socks| && UnsubsOwned(c, p) && |c.virtuals| <= |d.virtuals|
    requires forall i :: 0 <= i < |c.virtuals| ==>
               var v, w := c.virtuals[i], d.virtuals[i]; w.slot == v.slot && w.sock == v.sock && (v.closed ==> w.closed)
    requires forall slot :: Unsub(slot) in d.socks[p].out ==> Unsub(slot) in c.socks[p].out
    ensures UnsubsOwned(d, p)
  {
    forall slot | Unsub(slot) in d.socks[p].out
      ensures Owns(d, p, slot)
    {
      StillOwned(c, d, p, slot);
    }
  }

  /** Nothing is sent; connections may end and virtual sockets close, all of them if the current connection is given up. */
  ghost predicate Ending(c: Client, d: Client) {
    && |d.socks| == |c.socks| && |d.virtuals| == |c.virtuals|
    && (d.physical.None? || (d.physical == c.physical && d.virtuals == c.virtuals))
    && (forall p :: 0 <= p < |c.socks| ==> d.socks[p].out == c.socks[p].out && (d.socks[p].ready == c.socks[p].ready || d.socks[p].ready == CLOSED))
    && (forall i :: 0 <= i < |c.virtuals| ==>
          var v, w := c.virtuals[i], d.virtuals[i];
          w.slot == v.slot && w.stream == v.stream && w.sock == v.sock && w.up == v.up && (v.closed ==> w.closed))
  }

  lemma EndingKeeps(c: Client, d: Client)
    requires Telling(c) && Ending(c, d) && ClientInv(d)
    ensures Telling(d)
  {
    forall i | 0 <= i < |d.virtuals|
      ensures Told(d, i) && !Waiting(d, i)
    {
      assert Told(c, i) && !Waiting(c, i);
    }
    forall p | 0 <= p < |d.socks|
      ensures UnsubsOwned(d, p)
    {
      StillUnsubsOwned(c, d, p);
    }
  }

  lemma SubscribeKeeps(c: Client, i: nat, n: nat)
    requires ToldAll(c, n) && CInv(c) && i < |c.virtuals| && Subscribed(c, i) && IsOpen(c, c.virtuals[i].sock)
    ensures ToldAll(OpenVirtual(c, i), n) && !Waiting(OpenVirtual(c, i), i)
    ensures |OpenVirtual(c, i).virtuals| == |c.virtuals| && OpenVirtual(c, i).physical == c.physical
  {
    var v, d := c.virtuals[i], OpenVirtual(c, i);
    OpenVirtualKeeps(c, i);
    assert !v.closed && Told(c, i);
    if !v.up {
      var out := c.socks[v.sock].out;
      assert d.socks[v.sock].out == out + [Sub(v.slot, v.stream)];
      assert Unsub(v.slot) !in out;
      forall j | 0 <= j < |d.virtuals|
        ensures Told(d, j) && (j < n ==> !Waiting(d, j))
      {
        assert Told(c, j) && (j < n ==> !Waiting(c, j));
      }
      forall p | 0 <= p < |d.socks|
        ensures UnsubsOwned(d, p)
      {
        StillUnsubsOwned(c, d, p);
      }
    }
  }

  lemma {:induction false} OpenAllTells(c: Client, i: nat)
    requires ToldAll(c, i) && CInv(c) && i <= |c.virtuals| && c.physical.Some? && IsOpen(c, c.physical.value)
    ensures Telling(OpenAll(c, i))
    decreases |c.virtuals| - i
  {
    if i < |c.virtuals| {
      if Subscribed(c, i) {
        OpenVirtualKeeps(c, i);
        SubscribeKeeps(c, i, i);
        OpenAllTells(OpenVirtual(c, i), i + 1);
      } else {
        OpenAllTells(c, i + 1);
      }
    }
  }

  lemma OnOpenTells(c: Client, p: nat)
    requires Telling(c) && CInv(c) && p < |c.socks| && (c.socks[p].ready == CONNECTING || c.physical != Some(p))
    ensures Telling(OnOpen(c, p))
  {
    if c.physical == Some(p) {
      var d := c.(socks := c.socks[p := c.socks[p].(ready := OPEN, up := true)], unhealthy := false);
      ReflagKeeps(c, d);
      forall i | 0 <= i < |d.virtuals|
        ensures Told(d, i)
      {
        assert Told(c, i);
      }
      forall q | 0 <= q < |d.socks|
        ensures UnsubsOwned(d, q)
      {
        StillUnsubsOwned(c, d, q);
      }
      OpenAllTells(d, 0);
    }
  }

  lemma ConnectTells(c: Client)
    requires Telling(c)
    ensures Telling(Connect(c))
  {
    var d := Connect(c);
    forall i | 0 <= i < |d.virtuals|
      ensures Told(d, i) && !Waiting(d, i)
    {
      assert Told(c, i) && !Waiting(c, i);
    }
    forall p | 0 <= p < |d.socks|
      ensures UnsubsOwned(d, p)
    {
      if p < |c.socks| { StillUnsubsOwned(c, d, p); }
    }
  }

  /** A new virtual socket has a slot of its own, about which nothing has been sent. */
  lemma ListTells(c: Client, stream: string)
    requires Telling(c) && CInv(c) && c.physical.Some? && c.nextSlot <= LAST_SLOT
    ensures ToldAll(Listed(c, stream), |c.virtuals|) && Subscribed(Listed(c, stream), |c.virtuals|)
  {
    var d, p := Listed(c, stream), c.physical.value;
    ListKeepsClientInv(c, stream);
    assert Unsub(c.nextSlot) !in c.socks[p].out by {
      assert UnsubsOwned(c, p) && !Owns(c, p, c.nextSlot);
    }
    forall q | 0 <= q < |d.socks|
      ensures UnsubsOwned(d, q)
    {
      StillUnsubsOwned(c, d, q);
    }
    forall i | 0 <= i < |d.virtuals|
      ensures Told(d, i) && (i < |c.virtuals| ==> !Waiting(d, i))
    {
      if i < |c.virtuals| { assert Told(c, i) && !Waiting(c, i); }
    }
  }

  lemma AllocateTells(c: Client, stream: string)
    requires Telling(c) && CInv(c) && CInv(Connect(c)) && c.nextSlot <= LAST_SLOT
    ensures Telling(Allocate(c, stream))
  {
    var d, i := Connect(c), |c.virtuals|;
    var e := Listed(d, stream);
    AllocateConnects(c, stream);
    AllocateIs(d, stream);
    assert e.virtuals[i].sock == d.physical.value && d.physical.Some?;
    hide Allocate, OpenVirtual, CInv, ClientInv, ToldAll, Connect, Subscribed;
    ConnectTells(c);
    ListTells(d, stream);
    ListKeepsCInv(d, stream);
    if IsOpen(e, d.physical.value) {
      SubscribeKeeps(e, i, i);
      AllAreTold(OpenVirtual(e, i), i);
    } else {
      AllAreTold(e, i);
    }
  }

  lemma AllAreTold(c: Client, i: nat)
    requires ToldAll(c, i) && |c.virtuals| == i + 1 && !Waiting(c, i)
    ensures Telling(c)
  {
    hide Told, Waiting, ClientInv;
  }

  lemma UnsubscribeKeeps(c: Client, i: nat, d: Client, j: nat)
    requires Telling(c) && i < |c.virtuals| && !c.virtuals[i].closed && d == CloseVirtual(c, i) && j < |c.virtuals|
    ensures j < |d.virtuals| && Told(d, j) && !Waiting(d, j)
  {
    assert Subscribed(c, i);
    assert Told(c, i) && !Waiting(c, i) && Told(c, j) && !Waiting(c, j);
  }

  lemma CloseVirtualTells(c: Client, i: nat)
    requires Telling(c) && CInv(c) && i < |c.virtuals|
    ensures Telling(CloseVirtual(c, i))
  {
    var v, d := c.virtuals[i], CloseVirtual(c, i);
    if !v.closed {
      CloseVirtualKeeps(c, i);
      assert Subscribed(c, i);
      assert d.virtuals == c.virtuals[i := v.(closed := true)] && |d.socks| == |c.socks|;
      forall j | 0 <= j < |d.virtuals|
        ensures Told(d, j) && !Waiting(d, j)
      {
        UnsubscribeKeeps(c, i, d, j);
      }
      hide Told, Waiting;
      forall p | 0 <= p < |d.socks|
        ensures UnsubsOwned(d, p) && InTurn(d.socks[p].out)
      {
        forall slot | Unsub(slot) in d.socks[p].out
          ensures Owns(d, p, slot)
        {
          if Unsub(slot) in c.socks[p].out { StillOwned(c, d, p, slot); } else { assert d.virtuals[i].closed; }
        }
      }
    }
  }

  /** Acknowledgements apart, the same has been sent. */
  ghost predicate SameWords(out: seq<Control>, more: seq<Control>) {
    out == more || (exists received :: more == out + [Ack(received)])
  }

  lemma SameWordsMeans(out: seq<Control>, more: seq<Control>)
    requires SameWords(out, more)
    ensures InTurn(out) ==> InTurn(more)
    ensures forall slot, stream :: Sub(slot, stream) in more <==> Sub(slot, stream) in out
    ensures forall slot :: Unsub(slot) in more <==> Unsub(slot) in out
  {
  }

  /** A message that is counted, acknowledged and delivered tells nothing else. */
  lemma DeliveryTells(c: Client, d: Client)
    requires Telling(c) && ClientInv(d) && |d.socks| == |c.socks| && |d.virtuals| == |c.virtuals| && d.physical == c.physical
    requires forall i :: 0 <= i < |c.virtuals| ==> d.virtuals[i] == c.virtuals[i].(delivered := d.virtuals[i].delivered)
    requires forall p :: 0 <= p < |c.socks| ==> d.socks[p].ready == c.socks[p].ready && SameWords(c.socks[p].out, d.socks[p].out)
    ensures Telling(d)
  {
    hide SameWords, ClientInv, InTurn;
    assert forall i :: 0 <= i < |c.virtuals| ==> c.virtuals[i].sock < |c.socks| by { SocksExist(c); }
    forall i | 0 <= i < |d.virtuals|
      ensures Told(d, i) && !Waiting(d, i)
    {
      assert Told(c, i) && !Waiting(c, i);
      SameWordsMeans(c.socks[c.virtuals[i].sock].out, d.socks[c.virtuals[i].sock].out);
    }
    forall q | 0 <= q < |d.socks|
      ensures UnsubsOwned(d, q) && InTurn(d.socks[q].out)
    {
      SameWordsMeans(c.socks[q].out, d.socks[q].out);
      StillUnsubsOwned(c, d, q);
    }
  }

  lemma SocksExist(c: Client)
    requires ClientInv(c)
    ensures forall i :: 0 <= i < |c.virtuals| ==> c.virtuals[i].sock < |c.socks|
  {
  }

  lemma CountedWords(c: Client, p: nat, m: Wire, q: nat)
    requires p < |c.socks| && q < |c.socks|
    ensures |Counted(c, p, m).socks| == |c.socks| && Counted(c, p, m).socks[q].ready == c.socks[q].ready
    ensures SameWords(c.socks[q].out, Counted(c, p, m).socks[q].out)
  {
  }

  lemma MessageTells(c: Client, p: nat, m: Wire)
    requires Telling(c) && CInv(c) && p < |c.socks| && (m.Data? ==> |m.bytes| >= 2)
    ensures Telling(OnMessage(c, p, m))
  {
    if c.physical == Some(p) {
      var d := OnMessage(c, p, m);
      ArrivalLeavesOthers(c, p, m);
      ArrivalKeepsCInv(c, p, m);
      hide OnMessage, Counted, ToldAll, SameWords;
      forall q | 0 <= q < |c.socks|
        ensures |d.socks| == |c.socks| && d.socks[q].ready == c.socks[q].ready && SameWords(c.socks[q].out, d.socks[q].out)
      {
        CountedWords(c, p, m, q);
      }
      DeliveryTells(c, d);
    }
  }

  lemma CloseSubscribersEnds(c: Client, d: Client)
    requires d.virtuals == c.virtuals && d.physical.None? && |d.socks| == |c.socks|
    requires forall p :: 0 <= p < |c.socks| ==> d.socks[p].out == c.socks[p].out && (d.socks[p].ready == c.socks[p].ready || d.socks[p].ready == CLOSED)
    ensures Ending(c, CloseSubscribers(d))
  {
  }

  lemma DisconnectEnds(c: Client, p: nat, up: bool)
    requires p < |c.socks|
    ensures Ending(c, Disconnect(c, p, up))
  {
    if c.physical == Some(p) {
      CloseSubscribersEnds(c, c.(physical := None, unhealthy := true, legacy := c.legacy || !up,
                                 socks := c.socks[p := c.socks[p].(ready := CLOSED)]));
    }
  }

  lemma RecycleEnds(c: Client)
    requires Indexed(c)
    ensures Ending(c, Recycle(c))
  {
    var d := c.(nextSlot := 1);
    if d.physical.Some? {
      hide Disconnect;
      DisconnectEnds(d, d.physical.value, true);
    }
  }

  lemma CloseFactoryEnds(c: Client)
    requires Indexed(c)
    ensures Ending(c, CloseFactory(c))
  {
    var d := if c.physical.None? then c
             else c.(socks := c.socks[c.physical.value := c.socks[c.physical.value].(ready := CLOSED)]);
    CloseSubscribersEnds(c, d.(physical := None, stopped := true));
  }

  lemma FlagsEnd(c: Client, p: nat)
    requires Indexed(c)
    ensures Ending(c, IdleFires(c))
    ensures p < |c.socks| ==> Ending(c, c.(socks := c.socks[p := c.socks[p].(ready := CLOSED)]))
  {
  }

  // ---------------------------------------------------------------- every run

  lemma ConnectKeepsCInv(s: Sys)
    requires Inv(s)
    ensures CInv(Connect(s.client))
  {
    if s.client.physical.None? {
      ConnectKeeps(s);
    }
  }

  lemma ArrivalTells(s: Sys, p: nat)
    requires Inv(s) && Telling(s.client) && p < |s.ends| && s.ends[p].seen < |s.ends[p].log|
    ensures Telling(OnMessage(s.client, p, s.ends[p].log[s.ends[p].seen]))
  {
    assert EndInv(s, p);
    MessageTells(s.client, p, s.ends[p].log[s.ends[p].seen]);
  }

  predicate Sends(ev: Event) {
    ev.Opens? || ev.Closes? || ev.SockOpens? || ev.Arrives?
  }

  lemma StepTells(s: Sys, ev: Event)
    requires Inv(s) && Telling(s.client)
    ensures Telling(Step(s, ev).client)
  {
    if Sends(ev) {
      SendingTells(s, ev);
    } else if Step(s, ev).client != s.client {
      StepKeepsInv(s, ev);
      EventEnds(s, ev);
      hide Telling, Step, Ending;
      EndingKeeps(s.client, Step(s, ev).client);
    }
  }

  /** What the dashboard's own part of such an event is. */
  lemma SendingStep(s: Sys, ev: Event)
    requires WellFormed(s) && Sends(ev)
    ensures var c, d := s.client, Step(s, ev).client;
            d == c || match ev
                      case Opens(stream) => c.nextSlot <= LAST_SLOT && d == Allocate(c, stream)
                      case Closes(i) => i < |c.virtuals| && d == CloseVirtual(c, i)
                      case SockOpens(p) => p < |c.socks| && (c.socks[p].ready == CONNECTING || c.physical != Some(p)) && d == OnOpen(c, p)
                      case Arrives(p) => p < |c.socks| && s.ends[p].seen < |s.ends[p].log| && d == OnMessage(c, p, s.ends[p].log[s.ends[p].seen])
  {
    hide CloseVirtual, OnOpen, OnMessage, Allocate;
  }

  lemma SendingTells(s: Sys, ev: Event)
    requires Inv(s) && Telling(s.client) && Sends(ev)
    ensures Telling(Step(s, ev).client)
  {
    var c := s.client;
    assert WellFormed(s) && CInv(c);
    ConnectKeepsCInv(s);
    SendingStep(s, ev);
    hide Inv, CInv, Telling, CloseVirtual, OnOpen, OnMessage, Allocate, Connect, Step;
    if Step(s, ev).client != c {
      match ev
      case Opens(stream) => AllocateTells(c, stream);
      case Closes(i) => CloseVirtualTells(c, i);
      case SockOpens(p) => OnOpenTells(c, p);
      case Arrives(p) => ArrivalTells(s, p);
    }
  }

  lemma EventEnds(s: Sys, ev: Event)
    requires WellFormed(s) && !Sends(ev) && Step(s, ev).client != s.client
    ensures Ending(s.client, Step(s, ev).client)
  {
    var c := s.client;
    hide Ending, Disconnect, Recycle, CloseFactory, IdleFires, ReadOne, SendOne, GiveOne, Drop;
    match ev
    case Recycles => RecycleEnds(c);
    case Disposes => CloseFactoryEnds(c);
    case SockGone(p) => DisconnectEnds(c, p, c.socks[p].up);
    case StartupTimer(p) => DisconnectEnds(c, p, false);
    case SockBreaks(p) => FlagsEnd(c, p);
    case IdleTimer => FlagsEnd(c, 0);
  }

  lemma {:induction false} RunTells(s: Sys, events: seq<Event>)
    requires Inv(s) && Telling(s.client)
    ensures Telling(Run(s, events).client)
    decreases |events|
  {
    hide EndInv, DeliveredInv, CInv, Telling;
    if events != [] {
      StepKeepsInv(s, events[0]);
      StepTells(s, events[0]);
      RunTells(Step(s, events[0]), events[1..]);
    }
  }

  /**
   In every run, a virtual socket counts as opened exactly when its subscription was sent on its
   connection; while the connection is the current one and open, every open virtual socket has
   been subscribed, and of those that were the closed ones are exactly those unsubscribed.
   */
  lemma SubscribedExactlyWhenOpen(flow: bool, hubs: set<string>, events: seq<Event>, i: nat)
    requires i < |After(flow, hubs, events).client.virtuals|
    ensures var c := After(flow, hubs, events).client;
            var v := c.virtuals[i];
            && v.sock < |c.socks|
            && var out := c.socks[v.sock].out;
            && (v.up <==> Sub(v.slot, v.stream) in out)
            && (Unsub(v.slot) in out ==> v.closed)
            && (c.physical == Some(v.sock) && c.socks[v.sock].ready == OPEN ==>
                  && (!v.closed ==> Sub(v.slot, v.stream) in out)
                  && (v.closed && Sub(v.slot, v.stream) in out <==> Unsub(v.slot) in out && v.up))
  {
    RunTells(Start(flow, hubs), events);
    var c := After(flow, hubs, events).client;
    var v := c.virtuals[i];
    assert Told(c, i) && !Waiting(c, i);
    if Sub(v.slot, v.stream) in c.socks[v.sock].out {
      assert SubsAnnounced(c, v.sock);
      assert Announced(c, v.sock, v.slot, v.stream);
      UpIsAnnounced(c, i);
    }
  }

  lemma UpIsAnnounced(c: Client, i: nat)
    requires ClientInv(c) && i < |c.virtuals| && Announced(c, c.virtuals[i].sock, c.virtuals[i].slot, c.virtuals[i].stream)
    ensures c.virtuals[i].up
  {
    var j :| 0 <= j < |c.virtuals| && c.virtuals[j].sock == c.virtuals[i].sock && c.virtuals[j].slot == c.virtuals[i].slot
             && c.virtuals[j].stream == c.virtuals[i].stream && c.virtuals[j].up;
    assert !(i < j) && !(j < i);
  }
}
