/**
 The two ends of the live grid as the objects they are: the writer loop of one
 relay connection and the dashboard's factory. Each method is held to the event
 it implements.
 */
module GridObjects {
  import opened Bytes
  import opened Grid

  // ---------------------------------------------------------------- what one pass of the writer does

  datatype Action = Sent(slot: nat) | Dropped(slot: nat)

  predicate Ready(s: Server, slot: nat)
    requires Linked(s)
  {
    slot in s.subs && s.feeds[s.subs[slot].feed].queue != []
  }

  predicate Ended(s: Server, slot: nat)
    requires Linked(s)
  {
    slot in s.subs && s.feeds[s.subs[slot].feed].queue == [] && !s.feeds[s.subs[slot].feed].open
  }

  predicate Enabled(s: Server, a: Action)
    requires Linked(s)
  {
    match a
    case Sent(slot) => Ready(s, slot) && CanSend(s)
    case Dropped(slot) => Ended(s, slot)
  }

  function Act(s: Server, a: Action): (t: Server)
    requires Linked(s) && Enabled(s, a)
    ensures Linked(t)
  {
    match a
    case Sent(slot) => Send(s, slot)
    case Dropped(slot) => Drop(s, slot)
  }

  function Output(s: Server, a: Action): seq<Wire>
    requires Linked(s) && Enabled(s, a)
  {
    if a.Sent? then [Data(HeadPacket(s, a.slot))] else []
  }

  /** Actions that are possible one after the other. */
  predicate AllEnabled(s: Server, acts: seq<Action>)
    requires Linked(s)
    decreases |acts|
  {
    acts == [] || (Enabled(s, acts[0]) && AllEnabled(Act(s, acts[0]), acts[1..]))
  }

  function ActAll(s: Server, acts: seq<Action>): (t: Server)
    requires Linked(s) && AllEnabled(s, acts)
    ensures Linked(t)
    decreases |acts|
  {
    if acts == [] then s else ActAll(Act(s, acts[0]), acts[1..])
  }

  function OutputAll(s: Server, acts: seq<Action>): seq<Wire>
    requires Linked(s) && AllEnabled(s, acts)
    decreases |acts|
  {
    if acts == [] then [] else Output(s, acts[0]) + OutputAll(Act(s, acts[0]), acts[1..])
  }

  /** A slot and its queue are as they were. */
  predicate Untouched(s: Server, t: Server, slot: nat)
    requires Linked(s) && Linked(t)
  {
    && (slot in s.subs <==> slot in t.subs)
    && (slot in s.subs ==> t.subs[slot] == s.subs[slot] && t.feeds[t.subs[slot].feed] == s.feeds[s.subs[slot].feed])
  }

  lemma ActTouchesOne(s: Server, a: Action, other: nat)
    requires Linked(s) && Enabled(s, a) && other != a.slot
    ensures Untouched(s, Act(s, a), other)
  {
  }

  /** The slots whose next packet is the one that startup phase k waits for. */
  predicate InPhase(s: Server, slot: nat, k: nat) {
    slot in s.subs && s.subs[slot].startup == k
  }

  class LiveGridServer {
    const flow: bool
    var sent: nat
    var acknowledged: nat
    var subs: map<nat, Subscription>
    var feeds: seq<Feed>
    /** What has been written to the connection. */
    var wire: seq<Wire>

    function Abs(): Server
      reads this
    {
      Server(flow, sent, acknowledged, subs, feeds)
    }

    ghost predicate Valid()
      reads this
    {
      Linked(Abs()) && acknowledged <= sent
    }

    constructor (flow: bool)
      ensures Valid() && Abs() == NewServer(flow) && wire == if flow then [Hello] else []
    {
      this.flow := flow;
      sent, acknowledged, subs, feeds := 0, 0, map[], [];
      wire := if flow then [Hello] else [];
    }

    /** The control reader: what it refuses ends the connection. */
    method Accepts(m: RawControl, validStream: string -> bool) returns (c: Option<Control>)
      ensures c.None? <==> Refused(flow, validStream, m)
      ensures c.Some? ==> c.value == if m.op == "ack" then Ack(m.received) else if m.op == "unsub" then Unsub(m.slot) else Sub(m.slot, m.stream)
    {
      if m.op == "ack" {
        if !flow || m.slot != 0 {
          return None;
        }
        return Some(Ack(m.received));
      }
      if m.slot == 0 || (m.op != "sub" && m.op != "unsub") {
        return None;
      }
      if m.op == "sub" {
        if !validStream(m.stream) {
          return None;
        }
        return Some(Sub(m.slot, m.stream));
      }
      return Some(Unsub(m.slot));
    }

    method Remove(slot: nat)
      requires Linked(Abs())
      modifies this`subs, this`feeds
      ensures Linked(Abs()) && Abs() == Drop(old(Abs()), slot)
    {
      if slot in subs {
        var f := subs[slot].feed;
        feeds := feeds[f := feeds[f].(open := false)];
        subs := subs - {slot};
      }
    }

    method Handle(c: Control, hubs: set<string>, seed: seq<Blob>)
      requires Linked(Abs())
      modifies this`subs, this`feeds, this`acknowledged
      ensures Linked(Abs()) && Abs() == Apply(old(Abs()), c, hubs, seed)
    {
      if c.Ack? {
        if c.received > acknowledged && c.received <= sent {
          acknowledged := c.received;
        }
        return;
      }
      if c.Unsub? {
        Remove(c.slot);
        return;
      }
      if c.slot !in subs && |subs| >= MAX_SUBSCRIPTIONS {
        return;
      }
      Remove(c.slot);
      if c.stream in hubs {
        subs := subs[c.slot := Subscription(|feeds|, 2)];
        feeds := feeds + [Feed(c.stream, seed, seed, true)];
      }
    }

    /** Takes the head of a slot's queue, counts the startup down and writes the packet. */
    method SendHead(slot: nat)
      requires Linked(Abs()) && Ready(Abs(), slot)
      modifies this`subs, this`feeds, this`sent, this`wire
      ensures Linked(Abs()) && Abs() == Send(old(Abs()), slot)
      ensures wire == old(wire) + [Data(old(HeadPacket(Abs(), slot)))]
    {
      var sub := subs[slot];
      var fragment := feeds[sub.feed].queue[0];
      feeds := feeds[sub.feed := feeds[sub.feed].(queue := feeds[sub.feed].queue[1..])];
      if sub.startup > 0 {
        subs := subs[slot := sub.(startup := sub.startup - 1)];
      }
      var packet := [slot / 256 % 256, slot % 256] + fragment;
      wire := wire + [Data(packet)];
      sent := sent + |packet|;
    }

    /** One slot looked at in a startup phase. */
    method TryStartup(slot: nat, phase: nat) returns (ok: bool)
      requires Linked(Abs())
      modifies this`subs, this`feeds, this`sent, this`wire
      ensures var acts := Attempt(old(Abs()), slot, phase);
              && (ok <==> AnySent(acts))
              && Linked(Abs()) && Abs() == ActAll(old(Abs()), acts)
              && wire == old(wire) + OutputAll(old(Abs()), acts)
    {
      ok := false;
      ghost var acts := Attempt(Abs(), slot, phase);
      AttemptIsEnabled(Abs(), slot, phase);
      if slot !in subs || subs[slot].startup != phase || !(!flow || Ahead(sent, acknowledged) < MAX_INFLIGHT) {
        return;
      }
      var feed := feeds[subs[slot].feed];
      if |feed.queue| > 0 {
        assert acts[0].Sent?;
        SendHead(slot);
        ok := true;
      } else if !feed.open {
        Remove(slot);
      }
    }

    /** One startup phase over all slots, in no particular order. */
    method RunPhase(phase: nat) returns (prioritized: bool, ghost order: seq<nat>)
      requires Linked(Abs())
      modifies this`subs, this`feeds, this`sent, this`wire
      ensures Distinct(order) && forall slot :: slot in order <==> slot in old(subs)
      ensures Linked(Abs()) && Abs() == ActAll(old(Abs()), PassActs(old(Abs()), order, phase))
      ensures wire == old(wire) + OutputAll(old(Abs()), PassActs(old(Abs()), order, phase))
      ensures prioritized <==> AnySent(PassActs(old(Abs()), order, phase))
    {
      prioritized, order := false, [];
      ghost var before, was := Abs(), wire;
      assert was + [] == was;
      var todo := subs.Keys;
      while todo != {}
        invariant Linked(Abs())
        invariant Distinct(order) && forall slot :: slot in order <==> slot in before.subs && slot !in todo
        invariant todo <= before.subs.Keys
        invariant Progress(before, was, order, phase, Abs(), wire, prioritized)
        decreases todo
      {
        var slot :| slot in todo;
        todo := todo - {slot};
        ProgressNext(before, was, order, phase, Abs(), wire, prioritized, slot);
        var ok := TryStartup(slot, phase);
        prioritized := prioritized || ok;
        order := order + [slot];
      }
    }

    /**
     The part of the writer's pass that serves channels that are starting. Init segments
     go out before first keyframes; and if nothing was sent although credit was left, no
     starting channel had anything to send.
     */
    method SendStartup() returns (prioritized: bool, ghost acts: seq<Action>)
      requires Valid()
      modifies this`subs, this`feeds, this`sent, this`wire
      ensures Linked(Abs()) && AllEnabled(old(Abs()), acts) && Abs() == ActAll(old(Abs()), acts)
      ensures wire == old(wire) + OutputAll(old(Abs()), acts)
      ensures prioritized <==> AnySent(acts)
      ensures forall k :: 0 <= k < |acts| && acts[k].Sent? ==>
                InPhase(old(Abs()), acts[k].slot, 2) || (InPhase(old(Abs()), acts[k].slot, 1) && !Waiting(old(Abs()), 2))
      ensures !prioritized ==> !Waiting(old(Abs()), 2) && !Waiting(old(Abs()), 1)
    {
      ghost var start, first, second := Abs(), [], [];
      prioritized, first := RunPhase(2);
      acts := PassActs(start, first, 2);
      PassMeaning(start, first, 2);
      if !prioritized {
        ghost var middle := Abs();
        SecondPhase(start, first);
        prioritized, second := RunPhase(1);
        ghost var more := PassActs(middle, second, 1);
        BothPhases(start, middle, acts, second);
        Assoc(old(wire), OutputAll(start, acts), OutputAll(middle, more));
        acts := acts + more;
      }
    }

    /** What the writer does when one of the established channels was selected. */
    method SendSelected(slot: nat) returns (ghost act: Action)
      requires Linked(Abs()) && slot in subs && CanSend(Abs())
      requires Ready(Abs(), slot) || Ended(Abs(), slot)
      modifies this`subs, this`feeds, this`sent, this`wire
      ensures act == if Ready(old(Abs()), slot) then Sent(slot) else Dropped(slot)
      ensures Linked(Abs()) && Abs() == Act(old(Abs()), act) && wire == old(wire) + Output(old(Abs()), act)
    {
      if |feeds[subs[slot].feed].queue| > 0 {
        SendHead(slot);
        act := Sent(slot);
      } else {
        Remove(slot);
        act := Dropped(slot);
      }
    }
  }

  predicate AnySent(acts: seq<Action>) {
    exists k :: 0 <= k < |acts| && acts[k].Sent?
  }

  /** How far a startup phase has come. */
  ghost predicate Progress(before: Server, was: seq<Wire>, order: seq<nat>, phase: nat, now: Server, wire: seq<Wire>, any: bool) {
    && Linked(before)
    && now == ActAll(before, PassActs(before, order, phase))
    && wire == was + OutputAll(before, PassActs(before, order, phase))
    && (any <==> AnySent(PassActs(before, order, phase)))
  }

  lemma ProgressNext(
    before: Server, was: seq<Wire>, order: seq<nat>, phase: nat, now: Server, wire: seq<Wire>, any: bool, slot: nat)
    requires Linked(now) && Progress(before, was, order, phase, now, wire, any)
    ensures var acts := Attempt(now, slot, phase);
            Progress(before, was, order + [slot], phase, ActAll(now, acts), wire + OutputAll(now, acts), any || AnySent(acts))
  {
    PassSnoc(before, order, phase, slot);
    Assoc(was, OutputAll(before, PassActs(before, order, phase)), OutputAll(now, Attempt(now, slot, phase)));
  }

  /** A channel in the given phase could send. */
  ghost predicate Waiting(s: Server, phase: nat)
    requires Linked(s)
  {
    CanSend(s) && exists slot :: InPhase(s, slot, phase) && Ready(s, slot)
  }

  /** What a startup phase does about one slot. */
  function Attempt(t: Server, slot: nat, phase: nat): (acts: seq<Action>)
    requires Linked(t)
    ensures AllEnabled(t, acts)
  {
    if !InPhase(t, slot, phase) || !CanSend(t) then []
    else if Ready(t, slot) then [Sent(slot)]
    else if Ended(t, slot) then [Dropped(slot)]
    else []
  }

  lemma AttemptIsEnabled(t: Server, slot: nat, phase: nat)
    requires Linked(t)
    ensures var more := Attempt(t, slot, phase);
            && AllEnabled(t, more)
            && ActAll(t, more) == (if more == [] then t else Act(t, more[0]))
            && OutputAll(t, more) == (if more == [] then [] else Output(t, more[0]))
  {
    var more := Attempt(t, slot, phase);
    if more != [] {
      assert more[1..] == [];
    }
  }

  lemma {:induction false} ActAppend(s: Server, a: seq<Action>, b: seq<Action>)
    requires Linked(s) && AllEnabled(s, a) && AllEnabled(ActAll(s, a), b)
    ensures AllEnabled(s, a + b)
    ensures ActAll(s, a + b) == ActAll(ActAll(s, a), b)
    ensures OutputAll(s, a + b) == OutputAll(s, a) + OutputAll(ActAll(s, a), b)
    decreases |a|
  {
    hide Act, Enabled, Linked, Output;
    if a == [] {
      assert a + b == b;
    } else {
      var t, all := Act(s, a[0]), a + b;
      assert all[0] == a[0] && all[1..] == a[1..] + b;
      ActAppend(t, a[1..], b);
      Assoc(Output(s, a[0]), OutputAll(t, a[1..]), OutputAll(ActAll(t, a[1..]), b));
    }
  }

  predicate Distinct(order: seq<nat>) {
    forall i, j :: 0 <= i < j < |order| ==> order[i] != order[j]
  }

  /** What a startup phase does when it comes upon the slots in the given order. */
  function PassActs(s: Server, order: seq<nat>, phase: nat): (acts: seq<Action>)
    requires Linked(s)
    ensures AllEnabled(s, acts)
    decreases |order|
  {
    if order == [] then []
    else
      var before := PassActs(s, order[..|order| - 1], phase);
      var more := Attempt(ActAll(s, before), order[|order| - 1], phase);
      ActAppend(s, before, more);
      before + more
  }

  lemma PassSnoc(s: Server, order: seq<nat>, phase: nat, slot: nat)
    requires Linked(s)
    ensures var acts := PassActs(s, order, phase);
            var more := Attempt(ActAll(s, acts), slot, phase);
            && PassActs(s, order + [slot], phase) == acts + more
            && ActAll(s, acts + more) == ActAll(ActAll(s, acts), more)
            && OutputAll(s, acts + more) == OutputAll(s, acts) + OutputAll(ActAll(s, acts), more)
            && (AnySent(acts + more) <==> AnySent(acts) || AnySent(more))
  {
    var acts := PassActs(s, order, phase);
    var more := Attempt(ActAll(s, acts), slot, phase);
    assert (order + [slot])[..|order|] == order;
    ActAppend(s, acts, more);
    AnySentAppend(acts, more);
  }

  lemma AnySentAppend(a: seq<Action>, b: seq<Action>)
    ensures AnySent(a + b) <==> AnySent(a) || AnySent(b)
  {
    if AnySent(a) {
      var k :| 0 <= k < |a| && a[k].Sent?;
      assert (a + b)[k].Sent?;
    }
    if AnySent(b) {
      var k :| 0 <= k < |b| && b[k].Sent?;
      assert (a + b)[|a| + k].Sent?;
    }
  }

  lemma UntouchedTwice(s: Server, t: Server, u: Server, slot: nat)
    requires Linked(s) && Linked(t) && Linked(u) && Untouched(s, t, slot) && Untouched(t, u, slot)
    ensures Untouched(s, u, slot)
  {
  }

  lemma AttemptUntouched(t: Server, last: nat, phase: nat, slot: nat)
    requires Linked(t) && (slot != last || !InPhase(t, slot, phase))
    ensures Untouched(t, ActAll(t, Attempt(t, last, phase)), slot)
  {
    AttemptIsEnabled(t, last, phase);
    var more := Attempt(t, last, phase);
    if more != [] {
      ActTouchesOne(t, more[0], slot);
    }
  }

  lemma {:induction false} PassUntouched(s: Server, order: seq<nat>, phase: nat, slot: nat)
    requires Linked(s) && (slot !in order || !InPhase(s, slot, phase))
    ensures Untouched(s, ActAll(s, PassActs(s, order, phase)), slot)
    decreases |order|
  {
    if order != [] {
      var before, last := order[..|order| - 1], order[|order| - 1];
      assert before + [last] == order;
      PassUntouched(s, before, phase, slot);
      PassSnoc(s, before, phase, last);
      var t := ActAll(s, PassActs(s, before, phase));
      AttemptUntouched(t, last, phase, slot);
      UntouchedTwice(s, t, ActAll(t, Attempt(t, last, phase)), slot);
    }
  }

  /** The counters only move when something is sent. */
  lemma {:induction false} PassCounts(s: Server, order: seq<nat>, phase: nat)
    requires Linked(s)
    ensures var acts := PassActs(s, order, phase);
            var t := ActAll(s, acts);
            t.flow == s.flow && t.acked == s.acked && s.sent <= t.sent && (!AnySent(acts) ==> t.sent == s.sent)
    decreases |order|
  {
    if order != [] {
      var before, last := order[..|order| - 1], order[|order| - 1];
      assert before + [last] == order;
      PassCounts(s, before, phase);
      PassSnoc(s, before, phase, last);
      var t := ActAll(s, PassActs(s, before, phase));
      AttemptIsEnabled(t, last, phase);
      var more := Attempt(t, last, phase);
      assert more != [] && more[0].Sent? ==> AnySent(more);
    }
  }

  /** What has credit after an attempt had it before. */
  lemma CreditBefore(t: Server, slot: nat, phase: nat)
    requires Linked(t) && t.acked <= t.sent && CanSend(ActAll(t, Attempt(t, slot, phase)))
    ensures CanSend(t)
    ensures InPhase(t, slot, phase) && Ready(t, slot) ==> Attempt(t, slot, phase) == [Sent(slot)]
  {
    AttemptIsEnabled(t, slot, phase);
  }

  lemma {:induction false} PassServes(s: Server, order: seq<nat>, phase: nat, slot: nat)
    requires Linked(s) && Distinct(order) && slot in order && InPhase(s, slot, phase) && Ready(s, slot)
    requires s.acked <= s.sent && CanSend(ActAll(s, PassActs(s, order, phase)))
    ensures Sent(slot) in PassActs(s, order, phase)
    decreases |order|
  {
    hide PassActs, ActAll, OutputAll;
    var before, last := order[..|order| - 1], order[|order| - 1];
    assert before + [last] == order;
    PassSnoc(s, before, phase, last);
    PassCounts(s, before, phase);
    CreditBefore(ActAll(s, PassActs(s, before, phase)), last, phase);
    if slot == last {
      PassUntouched(s, before, phase, slot);
    } else {
      PassServes(s, before, phase, slot);
    }
  }

  lemma {:induction false} PassInPhase(s: Server, order: seq<nat>, phase: nat)
    requires Linked(s) && Distinct(order)
    ensures forall k :: 0 <= k < |PassActs(s, order, phase)| ==> InPhase(s, PassActs(s, order, phase)[k].slot, phase)
    decreases |order|
  {
    if order != [] {
      var before, last := order[..|order| - 1], order[|order| - 1];
      assert before + [last] == order;
      PassInPhase(s, before, phase);
      PassUntouched(s, before, phase, last);
      PassSnoc(s, before, phase, last);
    }
  }

  lemma PassMeaning(s: Server, order: seq<nat>, phase: nat)
    requires Linked(s) && Distinct(order) && forall slot :: slot in order <==> slot in s.subs
    requires s.acked <= s.sent
    ensures var acts := PassActs(s, order, phase);
            && (forall k :: 0 <= k < |acts| ==> InPhase(s, acts[k].slot, phase))
            && (!AnySent(acts) ==> !Waiting(s, phase))
  {
    PassInPhase(s, order, phase);
    PassCounts(s, order, phase);
    if !AnySent(PassActs(s, order, phase)) && Waiting(s, phase) {
      var slot :| InPhase(s, slot, phase) && Ready(s, slot);
      PassServes(s, order, phase, slot);
      assert false;
    }
  }

  lemma BothPhases(s: Server, t: Server, acts: seq<Action>, second: seq<nat>)
    requires Linked(s) && AllEnabled(s, acts) && !AnySent(acts) && t == ActAll(s, acts)
    requires forall k :: 0 <= k < |acts| ==> InPhase(s, acts[k].slot, 2)
    requires !Waiting(s, 2) && t.acked <= t.sent
    requires forall slot :: InPhase(t, slot, 1) ==> InPhase(s, slot, 1)
    requires Waiting(s, 1) ==> Waiting(t, 1)
    requires Distinct(second) && forall slot :: slot in second <==> slot in t.subs
    ensures var more := PassActs(t, second, 1);
            && AllEnabled(s, acts + more) && ActAll(s, acts + more) == ActAll(t, more)
            && OutputAll(s, acts + more) == OutputAll(s, acts) + OutputAll(t, more)
            && (AnySent(acts + more) <==> AnySent(more))
            && (forall k :: 0 <= k < |acts + more| && (acts + more)[k].Sent? ==> InPhase(s, (acts + more)[k].slot, 1))
            && (!AnySent(more) ==> !Waiting(s, 1))
  {
    var more := PassActs(t, second, 1);
    ActAppend(s, acts, more);
    AnySentAppend(acts, more);
    PassMeaning(t, second, 1);
  }

  /** The second phase finds the later-starting channels as the first one found them. */
  lemma SecondPhase(s: Server, first: seq<nat>)
    requires Linked(s) && s.acked <= s.sent && !AnySent(PassActs(s, first, 2))
    ensures var t := ActAll(s, PassActs(s, first, 2));
            && t.acked <= t.sent && (CanSend(t) <==> CanSend(s))
            && (forall slot :: InPhase(t, slot, 1) ==> InPhase(s, slot, 1))
            && (Waiting(s, 1) ==> Waiting(t, 1))
  {
    PassCounts(s, first, 2);
    var t := ActAll(s, PassActs(s, first, 2));
    forall slot
      ensures InPhase(t, slot, 1) <==> InPhase(s, slot, 1)
      ensures InPhase(s, slot, 1) ==> Untouched(s, t, slot)
    {
      if !InPhase(s, slot, 2) {
        PassUntouched(s, first, 2, slot);
      } else {
        PassDropsOnly(s, first, 2);
      }
    }
  }

  /** Subscriptions change by being sent to or by being dropped. */
  lemma {:induction false} PassDropsOnly(s: Server, order: seq<nat>, phase: nat)
    requires Linked(s) && !AnySent(PassActs(s, order, phase))
    ensures var t := ActAll(s, PassActs(s, order, phase));
            forall slot :: slot in t.subs ==> slot in s.subs && t.subs[slot] == s.subs[slot]
    decreases |order|
  {
    if order != [] {
      var before, last := order[..|order| - 1], order[|order| - 1];
      assert before + [last] == order;
      PassSnoc(s, before, phase, last);
      PassDropsOnly(s, before, phase);
      var t := ActAll(s, PassActs(s, before, phase));
      AttemptIsEnabled(t, last, phase);
      var more := Attempt(t, last, phase);
      assert more != [] && more[0].Sent? ==> AnySent(more);
    }
  }

  // ---------------------------------------------------------------- the dashboard's factory

  class GridFactory {
    var physical: Option<nat>
    var socks: seq<Sock>
    var nextSlot: nat
    var subscribers: map<nat, nat>
    var virtuals: seq<Virtual>
    var stopped: bool
    var legacy: bool
    var unhealthy: bool
    /** The connection that a pending timer will close unless it is used again. */
    var idle: Option<nat>

    function Abs(): Client
      reads this
    {
      Client(physical, socks, nextSlot, subscribers, virtuals, stopped, legacy, unhealthy)
    }

    constructor ()
      ensures Abs() == NEW_CLIENT && idle == None
    {
      physical, socks, nextSlot, subscribers, virtuals, idle := None, [], 1, map[], [], None;
      stopped, legacy, unhealthy := false, false, false;
    }

    method SendCommand(c: Control)
      requires Indexed(Abs())
      modifies this`socks
      ensures Abs() == Command(old(Abs()), c)
    {
      if physical.Some? && socks[physical.value].ready == OPEN {
        var p := physical.value;
        socks := socks[p := socks[p].(out := socks[p].out + [c])];
      }
    }

    method Announce(i: nat)
      requires Indexed(Abs()) && i < |virtuals|
      modifies this`socks, this`virtuals
      ensures Indexed(Abs()) && Abs() == OpenVirtual(old(Abs()), i)
      ensures |virtuals| == |old(virtuals)| && forall k :: 0 <= k < |virtuals| ==> virtuals[k].slot == old(virtuals)[k].slot
    {
      var v := virtuals[i];
      if v.closed || v.up {
        return;
      }
      virtuals := virtuals[i := v.(up := true)];
      SendCommand(Sub(v.slot, v.stream));
    }

    /** Every subscriber that is still listed is closed; the list is emptied first. */
    method CloseAllSubscribers()
      requires Indexed(Abs())
      requires forall slot :: slot in subscribers ==> virtuals[subscribers[slot]].slot == slot
      modifies this`subscribers, this`virtuals
      ensures Abs() == CloseSubscribers(old(Abs()))
    {
      var closing := subscribers;
      var todo := closing.Keys;
      subscribers := map[];
      while todo != {}
        invariant subscribers == map[] && todo <= closing.Keys && |virtuals| == |old(virtuals)|
        invariant forall i :: 0 <= i < |virtuals| ==>
          virtuals[i] == if Subscribed(old(Abs()), i) && virtuals[i].slot !in todo then old(virtuals)[i].(closed := true) else old(virtuals)[i]
        decreases todo
      {
        var slot :| slot in todo;
        todo := todo - {slot};
        var i := closing[slot];
        virtuals := virtuals[i := virtuals[i].(closed := true)];
      }
      assert virtuals == CloseSubscribers(old(Abs())).virtuals;
    }

    ghost predicate Valid()
      reads this
    {
      Indexed(Abs()) && forall slot :: slot in subscribers ==> virtuals[subscribers[slot]].slot == slot
    }

    method GiveUp(p: nat, up: bool)
      requires Valid() && p < |socks|
      modifies this
      ensures Valid() && Abs() == Disconnect(old(Abs()), p, up) && idle == old(idle)
    {
      if physical != Some(p) {
        return;
      }
      physical, unhealthy := None, true;
      socks := socks[p := socks[p].(ready := CLOSED)];
      if !up {
        legacy := true;
      }
      CloseAllSubscribers();
    }

    method MakeConnection()
      requires Valid()
      modifies this`physical, this`socks
      ensures Valid() && Abs() == Connect(old(Abs())) && physical.Some?
    {
      if physical.Some? {
        return;
      }
      physical := Some(|socks|);
      socks := socks + [NEW_SOCK];
    }

    method RecycleSlots()
      requires Valid()
      modifies this
      ensures Valid() && Abs() == Recycle(old(Abs())) && idle == old(idle)
    {
      if nextSlot > LAST_SLOT {
        nextSlot := 1;
        if physical.Some? {
          GiveUp(physical.value, true);
        }
      }
    }

    method AllocateSocket(stream: string) returns (i: nat)
      requires Valid() && nextSlot <= LAST_SLOT
      modifies this`physical, this`socks, this`nextSlot, this`virtuals, this`subscribers
      ensures Valid() && Abs() == Allocate(old(Abs()), stream) && i == |old(virtuals)|
    {
      MakeConnection();
      i := |virtuals|;
      var slot := nextSlot;
      nextSlot := nextSlot + 1;
      virtuals := virtuals + [Virtual(slot, stream, false, false, physical.value, [])];
      subscribers := subscribers[slot := i];
      if socks[physical.value].ready == OPEN {
        Announce(i);
      }
    }

    /** A virtual socket for a channel, or none if the factory is closed or the old route is in use. */
    method NewSocket(stream: string) returns (i: Option<nat>)
      requires Valid()
      modifies this
      ensures Valid()
      ensures if old(stopped) || old(legacy) then i == None && Abs() == old(Abs()) && idle == old(idle)
              else Abs() == Allocate(Recycle(old(Abs())), stream) && i == Some(|old(virtuals)|) && idle == None
    {
      if stopped || legacy {
        return None;
      }
      idle := None;
      RecycleSlots();
      var made := AllocateSocket(stream);
      return Some(made);
    }

    method Unlist(i: nat)
      requires Valid() && i < |virtuals| && !virtuals[i].closed
      modifies this`socks, this`virtuals, this`subscribers
      ensures Valid() && Abs() == CloseVirtual(old(Abs()), i)
    {
      var v := virtuals[i];
      virtuals := virtuals[i := v.(closed := true)];
      subscribers := subscribers - {v.slot};
      SendCommand(Unsub(v.slot));
    }

    /** Closing the last subscriber sets the timer that will close an unused connection. */
    method CloseSocket(i: nat)
      requires Valid() && i < |virtuals|
      modifies this`socks, this`virtuals, this`subscribers, this`idle
      ensures Valid() && Abs() == CloseVirtual(old(Abs()), i)
      ensures idle == if !old(virtuals)[i].closed && subscribers == map[] then physical else old(idle)
    {
      if virtuals[i].closed {
        return;
      }
      Unlist(i);
      if |subscribers| == 0 {
        idle := physical;
      }
    }

    /** The timer has run out: it closes the connection it was set for, if that is the current one and still unused. */
    method FireIdle()
      requires Valid() && idle.Some?
      modifies this
      ensures Valid() && idle == None
      ensures Abs() == if old(physical) == old(idle) then IdleFires(old(Abs())) else old(Abs())
    {
      var socket := idle;
      idle := None;
      if |subscribers| > 0 || physical != socket {
        return;
      }
      var p := socket.value;
      physical := None;
      socks := socks[p := socks[p].(ready := CLOSED)];
    }

    method OpenSubscribers()
      requires Valid()
      modifies this`socks, this`virtuals
      ensures Valid() && Abs() == OpenAll(old(Abs()), 0)
    {
      hide OpenVirtual;
      var i := 0;
      while i < |virtuals|
        invariant Valid() && i <= |virtuals| && OpenAll(Abs(), i) == OpenAll(old(Abs()), 0)
      {
        if virtuals[i].slot in subscribers && subscribers[virtuals[i].slot] == i {
          Announce(i);
        }
        i := i + 1;
      }
    }

    method HandleOpen(p: nat)
      requires Valid() && p < |socks|
      modifies this`socks, this`virtuals, this`unhealthy
      ensures Valid() && Abs() == OnOpen(old(Abs()), p)
    {
      hide OpenAll;
      if physical != Some(p) {
        return;
      }
      socks := socks[p := socks[p].(ready := OPEN, up := true)];
      unhealthy := false;
      OpenSubscribers();
    }

    method HandleMessage(p: nat, m: Wire)
      requires Valid() && p < |socks|
      modifies this`socks, this`virtuals
      ensures Valid() && Abs() == OnMessage(old(Abs()), p, m)
    {
      if physical != Some(p) {
        return;
      }
      if m.Hello? {
        socks := socks[p := socks[p].(flow := true)];
        return;
      }
      var bytes := m.bytes;
      if |bytes| < 2 {
        return;
      }
      if socks[p].flow {
        var received := socks[p].received + |bytes|;
        socks := socks[p := socks[p].(received := received)];
        socks := socks[p := socks[p].(out := socks[p].out + [Ack(received)])];
      }
      var slot := bytes[0] * 256 + bytes[1];
      if slot in subscribers {
        var i := subscribers[slot];
        if !virtuals[i].closed {
          virtuals := virtuals[i := virtuals[i].(delivered := virtuals[i].delivered + [bytes[2..]])];
        }
      }
    }

    method Dispose()
      requires Valid()
      modifies this
      ensures Valid() && Abs() == CloseFactory(old(Abs())) && idle == None
    {
      stopped := true;
      idle := None;
      var current := physical;
      physical := None;
      if current.Some? {
        socks := socks[current.value := socks[current.value].(ready := CLOSED)];
      }
      CloseAllSubscribers();
    }
  }
}
