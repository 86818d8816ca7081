/** What the dashboard sends on a connection of the live grid is never what the relay ends it for. */
module GridControls {
  import opened Bytes
  import opened Grid
  import opened GridSystem

  predicate Welcome(flow: bool, validStream: string -> bool, c: Control) {
    !Refused(flow, validStream, Written(c))
  }

  /** A control that may be sent to a relay that offers credit or does not. */
  predicate Proper(flow: bool, validStream: string -> bool, c: Control) {
    match c
    case Ack(_) => flow
    case Unsub(slot) => slot != 0
    case Sub(slot, stream) => slot != 0 && validStream(stream)
  }

  /** The JSON is that of this control; fields that its operation does not have are not looked at, but for an acknowledgement's slot. */
  predicate Says(m: RawControl, c: Control) {
    && m.op == Written(c).op && m.slot == Written(c).slot
    && (c.Sub? ==> m.stream == c.stream) && (c.Ack? ==> m.received == c.received)
  }

  /** Accepted is exactly what says a proper control, and it says only one. */
  lemma AcceptedIsProper(flow: bool, validStream: string -> bool, m: RawControl)
    ensures !Refused(flow, validStream, m) <==> exists c :: Proper(flow, validStream, c) && Says(m, c)
    ensures forall c, d :: Says(m, c) && Says(m, d) ==> c == d
  {
    if !Refused(flow, validStream, m) {
      var c := if m.op == "ack" then Ack(m.received) else if m.op == "unsub" then Unsub(m.slot) else Sub(m.slot, m.stream);
      assert Proper(flow, validStream, c) && Says(m, c);
    }
  }

  /** Nothing was sent that the relay would refuse, and no virtual socket will send it. */
  ghost predicate Polite(flow: bool, validStream: string -> bool, c: Client) {
    && (forall i :: 0 <= i < |c.virtuals| ==> c.virtuals[i].slot != 0 && validStream(c.virtuals[i].stream))
    && (forall p, k :: 0 <= p < |c.socks| && 0 <= k < |c.socks[p].out| ==> Welcome(flow, validStream, c.socks[p].out[k]))
  }

  lemma SendOnIsPolite(flow: bool, validStream: string -> bool, c: Client, p: nat, control: Control)
    requires Polite(flow, validStream, c) && p < |c.socks| && Welcome(flow, validStream, control)
    ensures Polite(flow, validStream, SendOn(c, p, control))
  {
    hide Welcome;
  }

  lemma OpenVirtualIsPolite(flow: bool, validStream: string -> bool, c: Client, i: nat)
    requires Polite(flow, validStream, c) && Indexed(c) && i < |c.virtuals|
    ensures Polite(flow, validStream, OpenVirtual(c, i))
    ensures Indexed(OpenVirtual(c, i)) && |OpenVirtual(c, i).virtuals| == |c.virtuals|
  {
    var v := c.virtuals[i];
    var d := c.(virtuals := c.virtuals[i := v.(up := true)]);
    assert Welcome(flow, validStream, Sub(v.slot, v.stream));
    hide Welcome;
    assert Polite(flow, validStream, d);
    if d.physical.Some? { SendOnIsPolite(flow, validStream, d, d.physical.value, Sub(v.slot, v.stream)); }
  }

  lemma {:induction false} OpenAllIsPolite(flow: bool, validStream: string -> bool, c: Client, i: nat)
    requires Polite(flow, validStream, c) && Indexed(c) && i <= |c.virtuals|
    ensures Polite(flow, validStream, OpenAll(c, i))
    decreases |c.virtuals| - i
  {
    hide Polite, OpenVirtual;
    if i < |c.virtuals| {
      if Subscribed(c, i) { OpenVirtualIsPolite(flow, validStream, c, i); }
      OpenAllIsPolite(flow, validStream, if Subscribed(c, i) then OpenVirtual(c, i) else c, i + 1);
    }
  }

  lemma AllocateIsPolite(flow: bool, validStream: string -> bool, c: Client, stream: string)
    requires Polite(flow, validStream, c) && Indexed(c) && 1 <= c.nextSlot <= LAST_SLOT && validStream(stream)
    ensures Polite(flow, validStream, Allocate(c, stream))
  {
    hide Welcome;
    var d := Connect(c);
    assert Polite(flow, validStream, Listed(d, stream));
    AllocateConnects(c, stream);
    AllocateIs(d, stream);
    OpenVirtualIsPolite(flow, validStream, Listed(d, stream), |c.virtuals|);
  }

  lemma CloseVirtualIsPolite(flow: bool, validStream: string -> bool, c: Client, i: nat)
    requires Polite(flow, validStream, c) && Indexed(c) && i < |c.virtuals|
    ensures Polite(flow, validStream, CloseVirtual(c, i))
  {
    var v := c.virtuals[i];
    var d := Unlisted(c, i);
    assert Welcome(flow, validStream, Unsub(v.slot));
    hide Welcome;
    assert Polite(flow, validStream, d);
    if d.physical.Some? { SendOnIsPolite(flow, validStream, d, d.physical.value, Unsub(v.slot)); }
  }

  lemma CountedIsPolite(flow: bool, validStream: string -> bool, c: Client, p: nat, m: Wire)
    requires Polite(flow, validStream, c) && p < |c.socks| && (c.socks[p].flow ==> flow)
    ensures Polite(flow, validStream, Counted(c, p, m))
  {
    if m.Data? && c.socks[p].flow {
      var received := c.socks[p].received + |m.bytes|;
      assert Welcome(flow, validStream, Ack(received));
      hide Welcome;
      SendOnIsPolite(flow, validStream, c.(socks := c.socks[p := c.socks[p].(received := received)]), p, Ack(received));
    }
  }

  /** No flag, no list of subscribers and nothing that is delivered matters. */
  lemma SameIsPolite(flow: bool, validStream: string -> bool, c: Client, d: Client)
    requires Polite(flow, validStream, c) && |d.virtuals| == |c.virtuals| && |d.socks| == |c.socks|
    requires forall i :: 0 <= i < |c.virtuals| ==> d.virtuals[i].slot == c.virtuals[i].slot && d.virtuals[i].stream == c.virtuals[i].stream
    requires forall p :: 0 <= p < |c.socks| ==> d.socks[p].out == c.socks[p].out
    ensures Polite(flow, validStream, d)
  {
  }

  lemma MessageIsPolite(flow: bool, validStream: string -> bool, c: Client, p: nat, m: Wire)
    requires Polite(flow, validStream, c) && ClientInv(c) && p < |c.socks| && (m.Data? ==> |m.bytes| >= 2)
    requires c.socks[p].flow ==> flow
    ensures Polite(flow, validStream, OnMessage(c, p, m))
  {
    if c.physical == Some(p) {
      OnMessageIs(c, p, m);
      CountedIsPolite(flow, validStream, c, p, m);
      CountedOnlyAppends(c, p, m);
      assert Counted(c, p, m).virtuals == c.virtuals;
      hide Polite, Counted, OnMessage, SlotOf;
      if m.Data? { SameIsPolite(flow, validStream, Counted(c, p, m), Dispatch(Counted(c, p, m), m.bytes)); }
    }
  }

  lemma OnOpenIsPolite(flow: bool, validStream: string -> bool, c: Client, p: nat)
    requires Polite(flow, validStream, c) && Indexed(c) && p < |c.socks|
    ensures Polite(flow, validStream, OnOpen(c, p))
  {
    if c.physical == Some(p) {
      var d := c.(socks := c.socks[p := c.socks[p].(ready := OPEN, up := true)], unhealthy := false);
      SameIsPolite(flow, validStream, c, d);
      OpenAllIsPolite(flow, validStream, d, 0);
    }
  }

  lemma ArrivalIsPolite(s: Sys, validStream: string -> bool, p: nat)
    requires Inv(s) && Polite(s.flow, validStream, s.client) && p < |s.ends| && s.ends[p].seen < |s.ends[p].log|
    ensures Polite(s.flow, validStream, OnMessage(s.client, p, s.ends[p].log[s.ends[p].seen]))
  {
    assert EndInv(s, p);
    MessageIsPolite(s.flow, validStream, s.client, p, s.ends[p].log[s.ends[p].seen]);
  }

  lemma DisconnectIsPolite(flow: bool, validStream: string -> bool, c: Client, p: nat, up: bool)
    requires Polite(flow, validStream, c) && p < |c.socks|
    ensures Polite(flow, validStream, Disconnect(c, p, up))
  {
    SameIsPolite(flow, validStream, c, Disconnect(c, p, up));
  }

  lemma RecycleIsPolite(flow: bool, validStream: string -> bool, c: Client)
    requires Polite(flow, validStream, c) && Indexed(c)
    ensures Polite(flow, validStream, Recycle(c))
  {
    hide Welcome, Disconnect;
    var d := c.(nextSlot := 1);
    SameIsPolite(flow, validStream, c, d);
    if d.physical.Some? { DisconnectIsPolite(flow, validStream, d, d.physical.value, true); }
  }

  lemma CloseFactoryIsPolite(flow: bool, validStream: string -> bool, c: Client)
    requires Polite(flow, validStream, c) && Indexed(c)
    ensures Polite(flow, validStream, CloseFactory(c))
  {
    hide Polite;
    SameIsPolite(flow, validStream, c, CloseFactory(c));
  }

  lemma IdleFiresIsPolite(flow: bool, validStream: string -> bool, c: Client)
    requires Polite(flow, validStream, c) && Indexed(c)
    ensures Polite(flow, validStream, IdleFires(c))
  {
    hide Polite;
    SameIsPolite(flow, validStream, c, IdleFires(c));
  }

  lemma BreakIsPolite(flow: bool, validStream: string -> bool, c: Client, p: nat)
    requires Polite(flow, validStream, c) && p < |c.socks|
    ensures Polite(flow, validStream, c.(socks := c.socks[p := c.socks[p].(ready := CLOSED)]))
  {
    SameIsPolite(flow, validStream, c, c.(socks := c.socks[p := c.socks[p].(ready := CLOSED)]));
  }

  lemma StepIsPolite(s: Sys, validStream: string -> bool, ev: Event)
    requires Inv(s) && Polite(s.flow, validStream, s.client) && (ev.Opens? ==> validStream(ev.stream))
    ensures Polite(s.flow, validStream, Step(s, ev).client)
  {
    var c := s.client;
    assert WellFormed(s) && c.nextSlot >= 1;
    hide Inv, Polite, ReadOne, SendOne, GiveOne, Drop;
    hide Disconnect, Recycle, CloseFactory, CloseVirtual, IdleFires, OnOpen, OnMessage, Allocate;
    match ev {
      case Recycles => RecycleIsPolite(s.flow, validStream, c);
      case Disposes => CloseFactoryIsPolite(s.flow, validStream, c);
      case IdleTimer => IdleFiresIsPolite(s.flow, validStream, c);
      case SockBreaks(p) => if p < |c.socks| { BreakIsPolite(s.flow, validStream, c, p); }
      case Opens(stream) => if c.nextSlot <= LAST_SLOT { AllocateIsPolite(s.flow, validStream, c, stream); }
      case Closes(i) => if i < |c.virtuals| { CloseVirtualIsPolite(s.flow, validStream, c, i); }
      case SockOpens(p) => if p < |c.socks| { OnOpenIsPolite(s.flow, validStream, c, p); }
      case SockGone(p) => if p < |c.socks| { DisconnectIsPolite(s.flow, validStream, c, p, c.socks[p].up); }
      case StartupTimer(p) => if p < |c.socks| { DisconnectIsPolite(s.flow, validStream, c, p, false); }
      case Arrives(p) => if p < |c.socks| && s.ends[p].seen < |s.ends[p].log| { ArrivalIsPolite(s, validStream, p); }
      case _ =>
    }
  }

  lemma {:induction false} RunIsPolite(s: Sys, events: seq<Event>, validStream: string -> bool)
    requires Inv(s) && Polite(s.flow, validStream, s.client)
    requires forall i :: 0 <= i < |events| && events[i].Opens? ==> validStream(events[i].stream)
    ensures Run(s, events).flow == s.flow && Polite(s.flow, validStream, Run(s, events).client)
    decreases |events|
  {
    hide EndInv, DeliveredInv, CInv, Polite;
    if events != [] {
      StepKeepsInv(s, events[0]);
      StepIsPolite(s, validStream, events[0]);
      RunIsPolite(Step(s, events[0]), events[1..], validStream);
    }
  }

  /**
   If it is asked for valid streams only, in every run the relay ends no connection because of
   what the dashboard sent on it: it accepts every subscription and unsubscription, and
   acknowledgements only reach a relay that has offered credit.
   */
  lemma NothingIsRefused(flow: bool, hubs: set<string>, events: seq<Event>, validStream: string -> bool, p: nat, k: nat)
    requires forall i :: 0 <= i < |events| && events[i].Opens? ==> validStream(events[i].stream)
    requires p < |After(flow, hubs, events).client.socks| && k < |After(flow, hubs, events).client.socks[p].out|
    ensures !Refused(flow, validStream, Written(After(flow, hubs, events).client.socks[p].out[k]))
  {
    RunIsPolite(Start(flow, hubs), events, validStream);
    assert Welcome(flow, validStream, After(flow, hubs, events).client.socks[p].out[k]);
  }
}
