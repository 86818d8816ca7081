/**
 The gate that bounds simultaneous WebSocket handshakes. Starting an entry runs its
 callback, which may queue or release entries at once and so pump again, inside the
 pump that is still running.
 */
module ConnectGate {

  const LIMIT := 4

  /** `starts` counts how often the entry's callback was run. */
  datatype Entry = Entry(active: bool, done: bool, starts: nat)

  /** `frames` is how many pump loops are running, one inside the other. */
  datatype Gate = Gate(active: int, queue: seq<nat>, entries: seq<Entry>, frames: nat)

  const NEW_GATE := Gate(0, [], [], 0)

  /** What can happen next: a call from outside or from a callback, or a turn of the innermost pump. */
  datatype Event = Queue | Release(id: nat) | Turn

  function Without(queue: seq<nat>, id: nat): seq<nat> {
    if queue == [] then []
    else if queue[0] == id then queue[1..]
    else [queue[0]] + Without(queue[1..], id)
  }

  lemma WithoutNext(queue: seq<nat>, i: nat, id: nat)
    requires i < |queue|
    ensures queue[i] == id ==> Without(queue[i..], id) == queue[i + 1..]
    ensures queue[i] != id ==> queue[..i] + Without(queue[i..], id) == queue[..i + 1] + Without(queue[i + 1..], id)
  {
    assert queue[i..][1..] == queue[i + 1..];
    assert queue[..i + 1] == queue[..i] + [queue[i]];
  }

  predicate Listed(g: Gate) {
    forall k :: 0 <= k < |g.queue| ==> g.queue[k] < |g.entries|
  }

  function Step(g: Gate, ev: Event): Gate
    requires Listed(g)
  {
    match ev
    case Queue => Gate(g.active, g.queue + [|g.entries|], g.entries + [Entry(false, false, 0)], g.frames + 1)
    case Release(id) =>
      if id >= |g.entries| || g.entries[id].done then g
      else if g.entries[id].active
      then Gate(g.active - 1, g.queue, g.entries[id := g.entries[id].(active := false, done := true)], g.frames + 1)
      else Gate(g.active, Without(g.queue, id), g.entries[id := g.entries[id].(done := true)], g.frames + 1)
    case Turn =>
      if g.frames == 0 then g
      else if !(g.active < LIMIT && |g.queue| > 0) then g.(frames := g.frames - 1)
      else
        var id := g.queue[0];
        if g.entries[id].done then g.(queue := g.queue[1..])
        else Gate(g.active + 1, g.queue[1..], g.entries[id := Entry(true, false, g.entries[id].starts + 1)], g.frames)
  }

  // ---------------------------------------------------------------- what is kept

  function CountActive(entries: seq<Entry>): nat {
    if entries == [] then 0
    else CountActive(entries[..|entries| - 1]) + if entries[|entries| - 1].active then 1 else 0
  }

  predicate EntryInv(g: Gate, id: nat)
    requires id < |g.entries|
  {
    var e := g.entries[id];
    && e.starts <= 1
    && (e.active <==> e.starts == 1 && !e.done)
    && (id in g.queue <==> e.starts == 0 && !e.done)
  }

  predicate Inv(g: Gate) {
    && Listed(g)
    && (forall i, j :: 0 <= i < j < |g.queue| ==> g.queue[i] < g.queue[j])
    && (forall id :: 0 <= id < |g.entries| ==> EntryInv(g, id))
    && g.active == CountActive(g.entries)
    && g.active <= LIMIT
    && (g.frames == 0 ==> g.active == LIMIT || g.queue == [])
  }

  lemma {:induction false} CountUpdate(entries: seq<Entry>, id: nat, e: Entry)
    requires id < |entries|
    ensures CountActive(entries[id := e]) ==
              CountActive(entries) + (if e.active then 1 else 0) - (if entries[id].active then 1 else 0)
    decreases |entries|
  {
    var n := |entries| - 1;
    if id < n {
      CountUpdate(entries[..n], id, e);
      assert entries[id := e][..n] == entries[..n][id := e];
    } else {
      assert entries[id := e][..n] == entries[..n];
    }
  }

  predicate Rising(queue: seq<nat>) {
    forall i, j :: 0 <= i < j < |queue| ==> queue[i] < queue[j]
  }

  lemma RestRises(queue: seq<nat>)
    requires Rising(queue) && queue != []
    ensures Rising(queue[1..]) && queue[0] !in queue[1..] && forall x :: x in queue[1..] ==> queue[0] < x
  {
  }

  lemma FirstRises(first: nat, rest: seq<nat>)
    requires Rising(rest) && forall x :: x in rest ==> first < x
    ensures Rising([first] + rest)
  {
    assert forall i :: 0 <= i < |rest| ==> rest[i] in rest;
  }

  lemma {:induction false} WithoutMeaning(queue: seq<nat>, id: nat)
    requires Rising(queue)
    ensures Rising(Without(queue, id)) && forall x :: x in Without(queue, id) <==> x in queue && x != id
  {
    hide Rising;
    if queue != [] {
      var rest := queue[1..];
      assert queue == [queue[0]] + rest;
      RestRises(queue);
      if queue[0] != id {
        WithoutMeaning(rest, id);
        FirstRises(queue[0], Without(rest, id));
      }
    }
  }

  lemma ReleaseKeepsInv(g: Gate, id: nat)
    requires Inv(g) && id < |g.entries| && !g.entries[id].done
    ensures Inv(Step(g, Release(id)))
  {
    var h := Step(g, Release(id));
    assert EntryInv(g, id);
    CountUpdate(g.entries, id, h.entries[id]);
    WithoutMeaning(g.queue, id);
    forall x | 0 <= x < |h.entries|
      ensures EntryInv(h, x)
    {
      assert EntryInv(g, x);
    }
    forall k | 0 <= k < |h.queue|
      ensures h.queue[k] < |h.entries|
    {
      assert h.queue[k] in h.queue;
    }
  }

  lemma TurnKeepsInv(g: Gate)
    requires Inv(g) && g.frames > 0 && g.active < LIMIT && g.queue != []
    ensures !g.entries[g.queue[0]].done
    ensures Inv(Step(g, Turn))
  {
    var id, h := g.queue[0], Step(g, Turn);
    assert g.queue[0] in g.queue;
    assert EntryInv(g, id);
    CountUpdate(g.entries, id, h.entries[id]);
    assert g.queue == [id] + g.queue[1..];
    forall x | 0 <= x < |h.entries|
      ensures EntryInv(h, x)
    {
      assert EntryInv(g, x);
    }
  }

  lemma QueueKeepsInv(g: Gate)
    requires Inv(g)
    ensures Inv(Step(g, Queue))
  {
    var h := Step(g, Queue);
    assert h.entries[..|g.entries|] == g.entries;
    forall x | 0 <= x < |h.entries|
      ensures EntryInv(h, x)
    {
      if x < |g.entries| { assert EntryInv(g, x); }
    }
  }

  lemma StepKeepsInv(g: Gate, ev: Event)
    requires Inv(g)
    ensures Inv(Step(g, ev))
  {
    match ev
    case Queue => QueueKeepsInv(g);
    case Release(id) => if id < |g.entries| && !g.entries[id].done { ReleaseKeepsInv(g, id); }
    case Turn =>
      if g.frames > 0 && g.active < LIMIT && g.queue != [] {
        TurnKeepsInv(g);
      } else {
        forall x | 0 <= x < |g.entries|
          ensures EntryInv(Step(g, Turn), x)
        {
          assert EntryInv(g, x);
        }
      }
  }

  ghost function Next(g: Gate, ev: Event): (h: Gate)
    requires Inv(g)
    ensures Inv(h)
  {
    StepKeepsInv(g, ev);
    Step(g, ev)
  }

  ghost function Run(g: Gate, events: seq<Event>): (h: Gate)
    requires Inv(g)
    ensures Inv(h)
    decreases |events|
  {
    if events == [] then g else Run(Next(g, events[0]), events[1..])
  }

  ghost function After(events: seq<Event>): (g: Gate)
    ensures Inv(g)
  {
    Run(NEW_GATE, events)
  }

  /**
   However the callbacks nest: the active count is the number of entries started and
   not yet released, never above the limit; no entry is started twice; nothing that
   was released is left in the queue; and once no pump is running, either the limit is
   reached or the queue is empty.
   */
  lemma GateIsSafe(events: seq<Event>)
    ensures var g := After(events);
            && g.active == CountActive(g.entries) <= LIMIT
            && (forall id :: 0 <= id < |g.entries| ==>
                  && g.entries[id].starts <= 1
                  && (g.entries[id].active <==> g.entries[id].starts == 1 && !g.entries[id].done)
                  && (id in g.queue <==> g.entries[id].starts == 0 && !g.entries[id].done))
            && (g.frames == 0 ==> g.active == LIMIT || g.queue == [])
  {
    var g := After(events);
    forall id | 0 <= id < |g.entries|
      ensures && g.entries[id].starts <= 1
              && (g.entries[id].active <==> g.entries[id].starts == 1 && !g.entries[id].done)
              && (id in g.queue <==> g.entries[id].starts == 0 && !g.entries[id].done)
    {
      assert EntryInv(g, id);
    }
  }

  /** Releasing an entry a second time changes nothing, whatever happened in between. */
  lemma ReleaseIsIdempotent(events: seq<Event>, id: nat, more: seq<Event>)
    requires id < |After(events).entries|
    ensures var g := Run(Next(After(events), Release(id)), more);
            Step(g, Release(id)) == g
  {
    DoneStaysDone(Next(After(events), Release(id)), more, id);
  }

  lemma {:induction false} DoneStaysDone(g: Gate, more: seq<Event>, id: nat)
    requires Inv(g) && id < |g.entries| && g.entries[id].done
    ensures id < |Run(g, more).entries| && Run(g, more).entries[id].done
    decreases |more|
  {
    if more != [] {
      if more[0] == Turn && g.frames > 0 && g.active < LIMIT && g.queue != [] {
        TurnKeepsInv(g);
      }
      DoneStaysDone(Next(g, more[0]), more[1..], id);
    }
  }

  lemma FirstComes(g: Gate, early: nat, late: nat)
    requires Inv(g) && early < late < |g.entries|
    requires g.entries[late].starts == 0 && Step(g, Turn).entries[late].starts == 1
    ensures g.entries[early].starts == 1 || g.entries[early].done
  {
    assert EntryInv(g, early);
    assert g.queue != [] && g.queue[0] == late;
    if k :| 0 <= k < |g.queue| && g.queue[k] == early {
      assert false;
    }
  }

  /** The entry is started between the one state and the other. */
  predicate StartsIn(g: Gate, h: Gate, id: nat) {
    id < |g.entries| && id < |h.entries| && g.entries[id].starts == 0 && h.entries[id].starts == 1
  }

  /** Entries start in the order in which they were queued. */
  lemma FirstComeFirstStarted(events: seq<Event>, early: nat, late: nat)
    requires early < late && StartsIn(After(events), Step(After(events), Turn), late)
    ensures var g := After(events);
            early < |g.entries| && (g.entries[early].starts == 1 || g.entries[early].done)
  {
    FirstComes(After(events), early, late);
  }

  // ---------------------------------------------------------------- the object

  class WSConnectGate {
    var active: int
    var queue: seq<nat>
    var entries: seq<Entry>
    ghost var frames: nat

    ghost function Abs(): Gate
      reads this
    {
      Gate(active, queue, entries, frames)
    }

    constructor ()
      ensures Abs() == NEW_GATE
    {
      active, queue, entries, frames := 0, [], [], 0;
    }

    /** Queues an entry; its pump begins. */
    method QueueConnect() returns (id: nat)
      requires Inv(Abs())
      modifies this
      ensures Inv(Abs()) && Abs() == Step(old(Abs()), Queue) && id == |old(entries)|
    {
      QueueKeepsInv(Abs());
      id := |entries|;
      entries := entries + [Entry(false, false, 0)];
      queue := queue + [id];
      frames := frames + 1;
    }

    method Splice(id: nat) returns (rest: seq<nat>)
      ensures rest == Without(queue, id)
    {
      var i := 0;
      while i < |queue| && queue[i] != id
        invariant i <= |queue|
        invariant Without(queue, id) == queue[..i] + Without(queue[i..], id)
      {
        WithoutNext(queue, i, id);
        i := i + 1;
      }
      if i < |queue| {
        WithoutNext(queue, i, id);
        rest := queue[..i] + queue[i + 1..];
      } else {
        rest := queue;
      }
    }

    method ReleaseEntry(id: nat)
      requires Inv(Abs()) && id < |entries|
      modifies this
      ensures Inv(Abs()) && Abs() == Step(old(Abs()), Release(id))
    {
      StepKeepsInv(Abs(), Release(id));
      if entries[id].done {
        return;
      }
      if entries[id].active {
        entries := entries[id := entries[id].(active := false, done := true)];
        active := active - 1;
      } else {
        entries := entries[id := entries[id].(done := true)];
        queue := Splice(id);
      }
      frames := frames + 1;
    }

    /** One turn of the pump loop: which entry's callback is to be run next, if any. */
    method PumpTurn() returns (start: bool, id: nat)
      requires Inv(Abs()) && frames > 0
      modifies this
      ensures Inv(Abs()) && Abs() == Step(old(Abs()), Turn)
      ensures start <==> old(active) < LIMIT && old(queue) != []
      ensures start ==> id == old(queue)[0] && entries[id].active && old(entries[id].starts) == 0
    {
      StepKeepsInv(Abs(), Turn);
      start, id := false, 0;
      if !(active < LIMIT && |queue| > 0) {
        frames := frames - 1;
        return;
      }
      TurnKeepsInv(Abs());
      id := queue[0];
      assert EntryInv(Abs(), id) && id in queue;
      queue := queue[1..];
      if entries[id].done {
        return;
      }
      entries := entries[id := Entry(true, false, entries[id].starts + 1)];
      active := active + 1;
      start := true;
    }
  }
}
