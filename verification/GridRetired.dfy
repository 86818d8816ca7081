/**
 Connections of the live grid that were given up: what still arrives on them, and the handlers
 that still run, have no effect on anything.
 */
module GridRetired {
  import opened Bytes
  import opened Grid
  import opened GridSystem

  /** The connection was made, and it is not the current one any more. */
  predicate Retired(s: Sys, p: nat) {
    p < |s.client.socks| && s.client.physical != Some(p)
  }

  /**
   Whatever its handlers are still called with, a connection that was given up is deaf: the
   factory is as it was before, and a message that was on its way is used up.
   */
  lemma RetiredIsDeaf(s: Sys, p: nat)
    requires Inv(s) && Retired(s, p)
    ensures Step(s, SockOpens(p)) == Step(s, SockGone(p)) == Step(s, StartupTimer(p)) == s
    ensures Step(s, Arrives(p)) ==
            if s.ends[p].seen < |s.ends[p].log| then s.(ends := s.ends[p := s.ends[p].(seen := s.ends[p].seen + 1)]) else s
  {
  }

  /** No virtual socket of the connection changes or is added, and nothing is counted or sent on it. */
  ghost predicate Frozen(c: Client, d: Client, p: nat)
    requires p < |c.socks|
  {
    && p < |d.socks| && d.physical != Some(p)
    && d.socks[p].(ready := c.socks[p].ready) == c.socks[p]
    && |c.virtuals| <= |d.virtuals|
    && (forall i :: 0 <= i < |d.virtuals| && d.virtuals[i].sock == p ==> i < |c.virtuals|)
    && (forall i :: 0 <= i < |c.virtuals| && (c.virtuals[i].sock == p || d.virtuals[i].sock == p) ==> d.virtuals[i] == c.virtuals[i])
  }

  lemma FrozenIsTransitive(c: Client, d: Client, e: Client, p: nat)
    requires p < |c.socks| && Frozen(c, d, p) && Frozen(d, e, p)
    ensures Frozen(c, e, p)
  {
  }

  /** Everyone who used the connection is closed. */
  ghost predicate Deserted(c: Client, p: nat) {
    && p < |c.socks| && c.physical != Some(p)
    && forall i :: 0 <= i < |c.virtuals| && c.virtuals[i].sock == p ==> c.virtuals[i].closed
  }

  lemma RetiredIsDeserted(c: Client, p: nat)
    requires ClientInv(c) && p < |c.socks| && c.physical != Some(p)
    ensures Deserted(c, p)
  {
    forall i | 0 <= i < |c.virtuals| && c.virtuals[i].sock == p
      ensures c.virtuals[i].closed
    {
      LateIsClosed(c, i);
    }
  }

  lemma OpenVirtualFreezes(c: Client, i: nat, p: nat)
    requires Indexed(c) && i < |c.virtuals| && Deserted(c, p)
    ensures forall d :: d == c || d == OpenVirtual(c, i) ==> Indexed(d) && |d.virtuals| == |c.virtuals| && Frozen(c, d, p) && Deserted(d, p)
  {
  }

  lemma {:induction false} OpenAllFreezes(c: Client, i: nat, p: nat)
    requires Indexed(c) && i <= |c.virtuals| && Deserted(c, p)
    ensures Frozen(c, OpenAll(c, i), p)
    decreases |c.virtuals| - i
  {
    if i < |c.virtuals| {
      var d := if Subscribed(c, i) then OpenVirtual(c, i) else c;
      OpenVirtualFreezes(c, i, p);
      hide OpenVirtual, Frozen, Deserted, Subscribed;
      OpenAllFreezes(d, i + 1, p);
      FrozenIsTransitive(c, d, OpenAll(d, i + 1), p);
    }
  }

  lemma AllocateFreezes(c: Client, stream: string, p: nat)
    requires ClientInv(c) && Deserted(c, p) && c.nextSlot <= LAST_SLOT
    ensures Frozen(c, Allocate(c, stream), p)
  {
    var d := Connect(c);
    AllocateConnects(c, stream);
    AllocateIs(d, stream);
    var e := Listed(d, stream);
    assert e.virtuals == c.virtuals + [Virtual(c.nextSlot, stream, false, false, d.physical.value, [])];
    assert Frozen(c, e, p) && Deserted(e, p);
    OpenVirtualFreezes(e, |c.virtuals|, p);
    hide OpenVirtual, Listed, Deserted;
    FrozenIsTransitive(c, e, Allocate(d, stream), p);
  }

  lemma DispatchFreezes(c: Client, bytes: Blob, p: nat)
    requires Indexed(c) && Deserted(c, p) && |bytes| >= 2
    ensures Frozen(c, Dispatch(c, bytes), p)
  {
    hide SlotOf;
  }

  lemma MessageFreezes(c: Client, q: nat, m: Wire, p: nat)
    requires ClientInv(c) && Deserted(c, p) && q < |c.socks| && (m.Data? ==> |m.bytes| >= 2)
    ensures Frozen(c, OnMessage(c, q, m), p)
  {
    if c.physical == Some(q) {
      OnMessageIs(c, q, m);
      CountedOnlyAppends(c, q, m);
      var d := Counted(c, q, m);
      assert d.virtuals == c.virtuals && d.physical == c.physical;
      hide Counted, OnMessage, ClientInv;
      assert Frozen(c, d, p) && Deserted(d, p);
      if m.Data? {
        DispatchFreezes(d, m.bytes, p);
        FrozenIsTransitive(c, d, Dispatch(d, m.bytes), p);
      }
    }
  }

  /** Closing the subscribers changes no virtual socket that is closed already. */
  lemma CloseSubscribersFreezes(c: Client, d: Client, p: nat)
    requires Deserted(c, p) && d.virtuals == c.virtuals && p < |d.socks| && d.physical != Some(p)
    requires d.socks[p].(ready := c.socks[p].ready) == c.socks[p]
    ensures Frozen(c, CloseSubscribers(d), p)
  {
  }

  lemma DisconnectFreezes(c: Client, q: nat, up: bool, p: nat)
    requires Deserted(c, p) && q < |c.socks|
    ensures Frozen(c, Disconnect(c, q, up), p)
  {
    if c.physical == Some(q) {
      var d := c.(physical := None, unhealthy := true, legacy := c.legacy || !up,
                  socks := c.socks[q := c.socks[q].(ready := CLOSED)]);
      CloseSubscribersFreezes(c, d, p);
    }
  }

  lemma RecycleFreezes(c: Client, p: nat)
    requires Indexed(c) && Deserted(c, p)
    ensures Frozen(c, Recycle(c), p)
  {
    if c.physical.Some? {
      hide Disconnect;
      DisconnectFreezes(c.(nextSlot := 1), c.physical.value, true, p);
    }
  }

  lemma CloseFactoryFreezes(c: Client, p: nat)
    requires Indexed(c) && Deserted(c, p)
    ensures Frozen(c, CloseFactory(c), p)
  {
    var d := if c.physical.None? then c
             else c.(socks := c.socks[c.physical.value := c.socks[c.physical.value].(ready := CLOSED)]);
    CloseSubscribersFreezes(c, d.(physical := None, stopped := true), p);
  }

  lemma ArrivalFreezes(s: Sys, q: nat, p: nat)
    requires Inv(s) && Deserted(s.client, p) && q < |s.ends| && s.ends[q].seen < |s.ends[q].log|
    ensures Frozen(s.client, OnMessage(s.client, q, s.ends[q].log[s.ends[q].seen]), p)
  {
    assert EndInv(s, q);
    MessageFreezes(s.client, q, s.ends[q].log[s.ends[q].seen], p);
  }

  lemma OpeningFreezes(c: Client, q: nat, p: nat)
    requires Indexed(c) && Deserted(c, p) && q < |c.socks|
    ensures Frozen(c, OnOpen(c, q), p)
  {
    if c.physical == Some(q) {
      var d := c.(socks := c.socks[q := c.socks[q].(ready := OPEN, up := true)], unhealthy := false);
      assert Frozen(c, d, p) && Deserted(d, p);
      OpenAllFreezes(d, 0, p);
      FrozenIsTransitive(c, d, OpenAll(d, 0), p);
    }
  }

  lemma ClosingFreezes(c: Client, i: nat, p: nat)
    requires Indexed(c) && Deserted(c, p) && i < |c.virtuals|
    ensures Frozen(c, CloseVirtual(c, i), p)
  {
  }

  /** Ready states, and the current connection given up. */
  lemma ReflagFreezes(c: Client, d: Client, p: nat)
    requires Deserted(c, p) && Reflagged(c, d) && d.physical != Some(p)
    requires d.socks[p].(ready := c.socks[p].ready) == c.socks[p]
    ensures Frozen(c, d, p)
  {
  }

  predicate AtTheDashboard(ev: Event) {
    ev.Recycles? || ev.Opens? || ev.Closes? || ev.Disposes?
  }

  lemma StepFreezes(s: Sys, ev: Event, p: nat)
    requires Inv(s) && Retired(s, p)
    ensures Frozen(s.client, Step(s, ev).client, p)
  {
    RetiredIsDeserted(s.client, p);
    if AtTheDashboard(ev) {
      DashboardFreezes(s, ev, p);
    } else if RelayEvent(ev) {
      ReflagFreezes(s.client, s.client, p);
    } else {
      SocketFreezes(s, ev, p);
    }
  }

  lemma DashboardFreezes(s: Sys, ev: Event, p: nat)
    requires WellFormed(s) && ClientInv(s.client) && Deserted(s.client, p) && AtTheDashboard(ev)
    ensures Frozen(s.client, Step(s, ev).client, p)
  {
    var c := s.client;
    ReflagFreezes(c, c, p);
    hide ClientInv, Frozen, Deserted, Recycle, CloseFactory, CloseVirtual, Allocate;
    match ev
    case Recycles => RecycleFreezes(c, p);
    case Opens(stream) => if c.nextSlot <= LAST_SLOT { AllocateFreezes(c, stream, p); }
    case Closes(i) => if i < |c.virtuals| { ClosingFreezes(c, i, p); }
    case Disposes => CloseFactoryFreezes(c, p);
  }

  lemma SocketFreezes(s: Sys, ev: Event, p: nat)
    requires Inv(s) && Deserted(s.client, p) && !AtTheDashboard(ev) && !RelayEvent(ev)
    ensures Frozen(s.client, Step(s, ev).client, p)
  {
    var c := s.client;
    if Step(s, ev) == s {
      ReflagFreezes(c, c, p);
    } else {
      assert WellFormed(s);
      hide Inv, CInv, Frozen, Deserted, Disconnect, OnOpen, OnMessage;
      match ev
      case SockOpens(q) => OpeningFreezes(c, q, p);
      case SockBreaks(q) => ReflagFreezes(c, Step(s, ev).client, p);
      case SockGone(q) => DisconnectFreezes(c, q, c.socks[q].up, p);
      case StartupTimer(q) => DisconnectFreezes(c, q, false, p);
      case IdleTimer => ReflagFreezes(c, IdleFires(c), p);
      case Arrives(q) => ArrivalFreezes(s, q, p);
    }
  }

  /**
   Once given up, a connection stays so: whatever still arrives on it and whichever of its
   handlers run, in every continuation nothing is handed to anyone on it or counted or
   acknowledged for it, and no new virtual socket is ever made on it.
   */
  lemma {:induction false} RetiredStaysSilent(s: Sys, events: seq<Event>, p: nat)
    requires Inv(s) && Retired(s, p)
    ensures Frozen(s.client, Run(s, events).client, p)
    decreases |events|
  {
    hide EndInv, DeliveredInv, CInv, Step;
    if events != [] {
      var t := Step(s, events[0]);
      StepKeepsInv(s, events[0]);
      StepFreezes(s, events[0], p);
      RetiredStaysSilent(t, events[1..], p);
      FrozenIsTransitive(s.client, t.client, Run(t, events[1..]).client, p);
    }
  }

  /**
   Such a run: the connection takes too long to open and is given up; the relay's offer of
   credit arrives on it all the same, and is not taken up.
   */
  lemma LateOfferIsIgnored(hubs: set<string>, stream: string)
    ensures After(true, hubs, [Opens(stream), StartupTimer(0), Arrives(0)]) ==
            Sys(true, hubs, Client(None, [NEW_SOCK.(ready := CLOSED)], 2, map[], [Virtual(1, stream, true, false, 0, [])], false, true, true),
                [NewEnd(true).(seen := 1)])
  {
    var s := Start(true, hubs);
    var s1 := Step(s, Opens(stream));
    var s2 := Step(s1, StartupTimer(0));
    assert Inv(s);
    FirstTimesOut(hubs, stream);
    hide Inv, Step;
    StepKeepsInv(s, Opens(stream));
    StepKeepsInv(s1, StartupTimer(0));
    StepKeepsInv(s2, Arrives(0));
    assert Run(s2, [Arrives(0)]) == Step(s2, Arrives(0));
    assert Run(s1, [StartupTimer(0), Arrives(0)]) == Run(s2, [Arrives(0)]);
  }

  lemma FirstTimesOut(hubs: set<string>, stream: string)
    ensures var late := Virtual(1, stream, true, false, 0, []);
            var s1 := Step(Start(true, hubs), Opens(stream));
            && s1 == Sys(true, hubs, Client(Some(0), [NEW_SOCK], 2, map[1 := 0], [late.(closed := false)], false, false, false), [NewEnd(true)])
            && var s2 := Step(s1, StartupTimer(0));
            && s2 == Sys(true, hubs, Client(None, [NEW_SOCK.(ready := CLOSED)], 2, map[], [late], false, true, true), [NewEnd(true)])
            && Step(s2, Arrives(0)) == s2.(ends := [NewEnd(true).(seen := 1)])
  {
    var s1 := Step(Start(true, hubs), Opens(stream));
    assert s1.client.virtuals == [Virtual(1, stream, false, false, 0, [])];
    assert Subscribed(s1.client, 0);
    assert Step(s1, StartupTimer(0)).client.virtuals == [Virtual(1, stream, true, false, 0, [])];
  }
}
