/**
 The per-channel fan-out of fMP4 fragments to WebSocket clients: bounded queues,
 joining at a keyframe, and the cache of the current group of pictures that
 fast-starts a late joiner.
 */
module WsHub {
  import opened Bytes

  const GOP_MAX_FRAGS := 256
  const SEND_BUF := 512

  /** One fragment that was broadcast. */
  datatype Cast = Cast(frag: Blob, key: bool)

  /**
   A client as the hub and its receiver see it. What follows `started` is history:
   everything ever put into the queue, the init segments and the indices of the
   broadcasts it consists of, and how many fragments did not fit.
   */
  datatype Client = Client(queue: seq<Blob>, started: bool, lead: seq<Blob>, picks: seq<nat>, missed: nat)

  const NEWCOMER := Client([], false, [], [], 0)

  /** `hist` is every broadcast since the hub was made. */
  datatype Hub<K> = Hub(clients: map<K, Client>, init: Option<Blob>, gop: seq<Blob>, hist: seq<Cast>)

  // ---------------------------------------------------------------- the steps

  /** The cache after one more fragment. */
  function NextGop(gop: seq<Blob>, c: Cast): seq<Blob> {
    if c.key then [c.frag]
    else if gop == [] || |gop| >= GOP_MAX_FRAGS then []
    else gop + [c.frag]
  }

  /** Offering broadcast number n to a client that has started. */
  function Offer(client: Client, frag: Blob, n: nat): Client {
    if |client.queue| < SEND_BUF
    then client.(queue := client.queue + [frag], picks := client.picks + [n])
    else client.(missed := client.missed + 1)
  }

  /** What one broadcast does to one client. */
  function Deliver(client: Client, init: Option<Blob>, c: Cast, n: nat): Client {
    if client.started then Offer(client, c.frag, n)
    else if !c.key then client
    else if init.None? then Offer(client.(started := true), c.frag, n)
    else if |client.queue| < SEND_BUF
    then Offer(client.(started := true, queue := client.queue + [init.value], lead := [init.value]), c.frag, n)
    else client
  }

  function Upto(from: nat, end: nat): seq<nat>
    requires from <= end
    decreases end - from
  {
    if from == end then [] else [from] + Upto(from + 1, end)
  }

  /** A client that has just joined, with the cache copied into its queue if that is possible. */
  function Join(init: Option<Blob>, gop: seq<Blob>, n: nat): Client {
    if init.Some? && |gop| > 0 && 1 + |gop| <= SEND_BUF && |gop| <= n
    then Client([init.value] + gop, true, [init.value], Upto(n - |gop|, n), 0)
    else NEWCOMER
  }

  datatype Op<K> = SetInit(seg: Blob) | Broadcast(c: Cast) | Add(k: K) | Remove(k: K) | Receive(k: K)

  function Step<K(==)>(h: Hub<K>, op: Op<K>): Hub<K> {
    match op
    case SetInit(seg) => h.(init := Some(seg))
    case Broadcast(c) =>
      Hub(map k | k in h.clients :: Deliver(h.clients[k], h.init, c, |h.hist|), h.init, NextGop(h.gop, c), h.hist + [c])
    case Add(k) => h.(clients := h.clients[k := Join(h.init, h.gop, |h.hist|)])
    case Remove(k) => h.(clients := h.clients - {k})
    case Receive(k) =>
      if k in h.clients && h.clients[k].queue != []
      then h.(clients := h.clients[k := h.clients[k].(queue := h.clients[k].queue[1..])])
      else h
  }

  function Run<K(==)>(h: Hub<K>, ops: seq<Op<K>>): Hub<K>
    decreases |ops|
  {
    if ops == [] then h else Run(Step(h, ops[0]), ops[1..])
  }

  function NewHub<K>(): Hub<K> { Hub(map[], None, [], []) }

  // ---------------------------------------------------------------- the reference view

  function Frags(casts: seq<Cast>): seq<Blob> {
    seq(|casts|, i requires 0 <= i < |casts| => casts[i].frag)
  }

  predicate Indexes(hist: seq<Cast>, picks: seq<nat>) {
    && (forall i :: 0 <= i < |picks| ==> picks[i] < |hist|)
    && (forall i, j :: 0 <= i < j < |picks| ==> picks[i] < picks[j])
  }

  function Picked(hist: seq<Cast>, picks: seq<nat>): seq<Blob>
    requires Indexes(hist, picks)
  {
    seq(|picks|, i requires 0 <= i < |picks| => hist[picks[i]].frag)
  }

  /** Everything ever put into the client's queue. */
  function Enqueued(client: Client, hist: seq<Cast>): seq<Blob>
    requires Indexes(hist, client.picks)
  {
    client.lead + Picked(hist, client.picks)
  }

  /** The index of the latest keyframe, or -1. */
  function LastKey(hist: seq<Cast>): (k: int)
    ensures -1 <= k < |hist|
  {
    if hist == [] then -1
    else if hist[|hist| - 1].key then |hist| - 1
    else LastKey(hist[..|hist| - 1])
  }

  /** The current group of pictures, unless there is none or it is too long to be kept. */
  function CurrentGop(hist: seq<Cast>): seq<Blob> {
    var k := LastKey(hist);
    if k < 0 || |hist| - k > GOP_MAX_FRAGS then [] else Frags(hist[k..])
  }

  predicate ClientInv(client: Client, hist: seq<Cast>) {
    && |client.queue| <= SEND_BUF
    && (!client.started ==> client == NEWCOMER)
    && Indexes(hist, client.picks)
    && (client.started ==>
          && |client.lead| <= 1
          && client.picks != []
          && hist[client.picks[0]].key
          && |client.picks| + client.missed == |hist| - client.picks[0]
          && |client.queue| <= |Enqueued(client, hist)|
          && client.queue == Enqueued(client, hist)[|Enqueued(client, hist)| - |client.queue|..])
  }

  predicate Inv<K(==)>(h: Hub<K>) {
    && h.gop == CurrentGop(h.hist)
    && forall k :: k in h.clients ==> ClientInv(h.clients[k], h.hist)
  }

  // ---------------------------------------------------------------- what every step keeps

  /** The cache that broadcast maintains is the current group of pictures of the history. */
  lemma CacheAgrees(hist: seq<Cast>, c: Cast)
    ensures NextGop(CurrentGop(hist), c) == CurrentGop(hist + [c])
    ensures |CurrentGop(hist)| <= GOP_MAX_FRAGS
  {
    assert (hist + [c])[..|hist|] == hist;
    var k := LastKey(hist);
    if c.key {
      assert (hist + [c])[|hist|..] == [c];
    } else if 0 <= k {
      assert (hist + [c])[k..] == hist[k..] + [c];
    }
  }

  lemma PickMore(hist: seq<Cast>, picks: seq<nat>, c: Cast)
    requires Indexes(hist, picks)
    ensures Indexes(hist + [c], picks) && Picked(hist + [c], picks) == Picked(hist, picks)
    ensures Indexes(hist + [c], picks + [|hist|]) && Picked(hist + [c], picks + [|hist|]) == Picked(hist, picks) + [c.frag]
  {
  }

  lemma SuffixAppend(all: seq<Blob>, queue: seq<Blob>, x: Blob)
    requires |queue| <= |all| && queue == all[|all| - |queue|..]
    ensures var more, longer := queue + [x], all + [x];
            more == longer[|longer| - |more|..]
  {
  }

  lemma OfferKeepsInv(client: Client, c: Cast, hist: seq<Cast>)
    requires client.started && ClientInv(client, hist)
    ensures ClientInv(Offer(client, c.frag, |hist|), hist + [c])
  {
    var all := Enqueued(client, hist);
    PickMore(hist, client.picks, c);
    assert Enqueued(client, hist + [c]) == all;
    if |client.queue| < SEND_BUF {
      SuffixAppend(all, client.queue, c.frag);
      Assoc(client.lead, Picked(hist, client.picks), [c.frag]);
    }
  }

  lemma StartKeepsInv(lead: seq<Blob>, c: Cast, hist: seq<Cast>)
    requires |lead| <= 1 && c.key
    ensures ClientInv(Client(lead + [c.frag], true, lead, [|hist|], 0), hist + [c])
  {
    assert Picked(hist + [c], [|hist|]) == [c.frag];
  }

  lemma DeliverStarts(init: Option<Blob>, c: Cast, n: nat)
    ensures var lead := if init.None? then [] else [init.value];
            Deliver(NEWCOMER, init, c, n) == if c.key then Client(lead + [c.frag], true, lead, [n], 0) else NEWCOMER
  {
    assert forall x: Blob :: [] + [x] == [x];
  }

  lemma NewcomerKeepsInv(hist: seq<Cast>)
    ensures ClientInv(NEWCOMER, hist)
  {
  }

  lemma DeliverKeepsInv(client: Client, init: Option<Blob>, c: Cast, hist: seq<Cast>)
    requires ClientInv(client, hist)
    ensures ClientInv(Deliver(client, init, c, |hist|), hist + [c])
  {
    assert client.started || client == NEWCOMER;
    assert client.started ==> Deliver(client, init, c, |hist|) == Offer(client, c.frag, |hist|);
    hide *;
    if client.started {
      OfferKeepsInv(client, c, hist);
    } else {
      DeliverStarts(init, c, |hist|);
      NewcomerKeepsInv(hist + [c]);
      if c.key { StartKeepsInv(if init.None? then [] else [init.value], c, hist); }
    }
  }

  lemma JoinKeepsInv(init: Option<Blob>, hist: seq<Cast>)
    ensures ClientInv(Join(init, CurrentGop(hist), |hist|), hist)
  {
    var gop := CurrentGop(hist);
    var client := Join(init, gop, |hist|);
    if client.started {
      var k := LastKey(hist);
      LastKeyIsKey(hist);
      UptoIsRange(k, |hist|);
      assert Picked(hist, client.picks) == Frags(hist[k..]);
      assert Enqueued(client, hist) == client.queue;
    }
  }

  lemma {:induction false} UptoIsRange(from: nat, end: nat)
    requires from <= end
    ensures |Upto(from, end)| == end - from
    ensures forall i :: 0 <= i < end - from ==> Upto(from, end)[i] == from + i
    decreases end - from
  {
    if from < end { UptoIsRange(from + 1, end); }
  }

  lemma {:induction false} LastKeyIsKey(hist: seq<Cast>)
    ensures LastKey(hist) >= 0 ==> hist[LastKey(hist)].key
    ensures forall i :: LastKey(hist) < i < |hist| ==> !hist[i].key
  {
    if hist != [] && !hist[|hist| - 1].key { LastKeyIsKey(hist[..|hist| - 1]); }
  }

  lemma StepKeepsInv<K>(h: Hub<K>, op: Op<K>)
    requires Inv(h)
    ensures Inv(Step(h, op))
  {
    match op
    case Broadcast(c) =>
      CacheAgrees(h.hist, c);
      forall k | k in h.clients
        ensures ClientInv(Deliver(h.clients[k], h.init, c, |h.hist|), h.hist + [c])
      {
        DeliverKeepsInv(h.clients[k], h.init, c, h.hist);
      }
    case Add(k) => JoinKeepsInv(h.init, h.hist);
    case _ =>
  }

  // ---------------------------------------------------------------- whole runs

  predicate KeyCast<K>(op: Op<K>) {
    op.Broadcast? && op.c.key
  }

  /** No keyframe is broadcast before an init segment is set. */
  predicate InitBeforeKey<K>(ops: seq<Op<K>>) {
    ops == [] || ops[0].SetInit? || (!KeyCast(ops[0]) && InitBeforeKey(ops[1..]))
  }

  predicate FromFeeder<K>(op: Op<K>) {
    op.SetInit? || op.Broadcast?
  }

  /** What one feeder contributes to a run in which clients come and go. */
  function FeederPart<K>(ops: seq<Op<K>>): seq<Op<K>> {
    if ops == [] then []
    else (if FromFeeder(ops[0]) then [ops[0]] else []) + FeederPart(ops[1..])
  }

  function Inits<K>(ops: seq<Op<K>>): set<Blob> {
    set i | 0 <= i < |ops| && ops[i].SetInit? :: ops[i].seg
  }

  /** The clients that have started were all led in by one of the given init segments. */
  predicate LedBy<K(==)>(h: Hub<K>, inits: set<Blob>) {
    && (h.init.Some? ==> h.init.value in inits)
    && forall k :: k in h.clients && h.clients[k].started ==>
         |h.clients[k].lead| == 1 && h.clients[k].lead[0] in inits
  }

  lemma {:induction false} RunKeepsInv<K>(h: Hub<K>, ops: seq<Op<K>>)
    requires Inv(h)
    ensures Inv(Run(h, ops))
    decreases |ops|
  {
    if ops != [] {
      StepKeepsInv(h, ops[0]);
      RunKeepsInv(Step(h, ops[0]), ops[1..]);
    }
  }

  lemma {:induction false} RunKeepsLead<K>(h: Hub<K>, ops: seq<Op<K>>, inits: set<Blob>)
    requires LedBy(h, inits) && Inits(ops) <= inits
    requires h.init.Some? || (InitBeforeKey(ops) && forall k :: k in h.clients ==> !h.clients[k].started)
    ensures LedBy(Run(h, ops), inits)
    decreases |ops|
  {
    if ops != [] {
      assert ops[0].SetInit? ==> ops[0].seg in Inits(ops);
      forall seg | seg in Inits(ops[1..])
        ensures seg in Inits(ops)
      {
        var i :| 0 <= i < |ops[1..]| && ops[1..][i].SetInit? && ops[1..][i].seg == seg;
        assert ops[i + 1].seg == seg;
      }
      RunKeepsLead(Step(h, ops[0]), ops[1..], inits);
    }
  }

  /**
   In every run that sets an init segment before the first keyframe, what a client
   was given is nothing at all, or an init segment, then a keyframe, then fragments
   in broadcast order; and if none was dropped, every fragment since that keyframe.
   What the client has not yet received is the end of that.
   */
  lemma ClientHistory<K>(ops: seq<Op<K>>, k: K)
    requires InitBeforeKey(ops) && k in Run(NewHub(), ops).clients
    ensures var h := Run(NewHub(), ops);
            var client := h.clients[k];
            && Indexes(h.hist, client.picks)
            && var given := Enqueued(client, h.hist);
            && (given == [] <==> !client.started)
            && (client.started ==>
                  && |given| >= 2 && client.picks != []
                  && given[0] in Inits(ops)
                  && h.hist[client.picks[0]].key
                  && given[1..] == Picked(h.hist, client.picks)
                  && |client.picks| + client.missed == |h.hist| - client.picks[0]
                  && (client.missed == 0 ==> given[1..] == Frags(h.hist[client.picks[0]..])))
            && |client.queue| <= |given| && client.queue == given[|given| - |client.queue|..]
  {
    var h := Run(NewHub<K>(), ops);
    assert Inv(NewHub<K>());
    RunKeepsInv(NewHub<K>(), ops);
    RunKeepsLead(NewHub<K>(), ops, Inits(ops));
    assert ClientInv(h.clients[k], h.hist);
    hide ClientInv, Inv, Run, Indexes, Picked, Frags, Inits, InitBeforeKey;
    GivenIs(h.clients[k], h.hist);
  }

  /** What a client was given, in terms of the history. */
  lemma GivenIs(client: Client, hist: seq<Cast>)
    requires ClientInv(client, hist)
    ensures Indexes(hist, client.picks)
    ensures var given := Enqueued(client, hist);
            && (!client.started ==> given == [])
            && (client.started ==>
                  && client.picks != [] && hist[client.picks[0]].key && given == client.lead + Picked(hist, client.picks)
                  && |Picked(hist, client.picks)| == |client.picks|
                  && |client.picks| + client.missed == |hist| - client.picks[0]
                  && (client.missed == 0 ==> Picked(hist, client.picks) == Frags(hist[client.picks[0]..])))
            && |client.queue| <= |given| && client.queue == given[|given| - |client.queue|..]
  {
    if client.started && client.missed == 0 {
      AllIndexes(client.picks, |hist|);
      assert Picked(hist, client.picks) == Frags(hist[client.picks[0]..]);
    }
  }

  /** Increasing indices that leave no room for a gap have none. */
  lemma {:induction false} AllIndexes(picks: seq<nat>, end: nat)
    requires forall i, j :: 0 <= i < j < |picks| ==> picks[i] < picks[j]
    requires forall i :: 0 <= i < |picks| ==> picks[i] < end
    requires picks != [] && |picks| == end - picks[0]
    ensures forall i :: 0 <= i < |picks| ==> picks[i] == picks[0] + i
  {
    if |picks| > 1 {
      StrictlyGrows(picks[1..], end);
      AllIndexes(picks[1..], end);
      forall i | 0 <= i < |picks|
        ensures picks[i] == picks[0] + i
      {
        if i > 0 { assert picks[i] == picks[1..][i - 1]; }
      }
    }
  }

  lemma {:induction false} StrictlyGrows(picks: seq<nat>, end: nat)
    requires forall i, j :: 0 <= i < j < |picks| ==> picks[i] < picks[j]
    requires forall i :: 0 <= i < |picks| ==> picks[i] < end
    requires picks != []
    ensures picks[0] + |picks| <= end
  {
    if |picks| > 1 { StrictlyGrows(picks[1..], end); }
  }

  /**
   A client that joins is fast-started exactly when an init segment is known and the
   current group of pictures is within the cap; it is then given the init segment and
   everything since the last keyframe, which always fits its queue.
   */
  lemma FastStart<K>(ops: seq<Op<K>>, k: K)
    ensures var h := Run(NewHub(), ops);
            var client := Step(h, Add(k)).clients[k];
            var key := LastKey(h.hist);
            && (client.started <==> h.init.Some? && 0 <= key && |h.hist| - key <= GOP_MAX_FRAGS)
            && (client.started ==>
                  client.queue == [h.init.value] + Frags(h.hist[key..]) && h.hist[key].key && client.missed == 0)
            && |client.queue| <= 1 + GOP_MAX_FRAGS <= SEND_BUF
  {
    var h := Run(NewHub<K>(), ops);
    assert Inv(NewHub<K>());
    RunKeepsInv(NewHub<K>(), ops);
    LastKeyIsKey(h.hist);
  }

  // ---------------------------------------------------------------- who is given what

  /** The client joined with operation i and has not left since. */
  predicate StaysSince<K(==)>(ops: seq<Op<K>>, k: K, i: nat) {
    i < |ops| && ops[i] == Add(k) && forall j :: i < j < |ops| ==> ops[j] != Remove(k)
  }

  lemma {:induction false} ThereExactlyWhen<K>(h: Hub<K>, ops: seq<Op<K>>, k: K)
    ensures k in Run(h, ops).clients <==>
            (exists i: nat :: StaysSince(ops, k, i)) || (k in h.clients && forall j :: 0 <= j < |ops| ==> ops[j] != Remove(k))
    decreases |ops|
  {
    if ops != [] {
      var rest := ops[1..];
      ThereExactlyWhen(Step(h, ops[0]), rest, k);
      if i: nat :| StaysSince(rest, k, i) {
        assert StaysSince(ops, k, i + 1);
      }
      if i: nat :| StaysSince(ops, k, i) {
        if i > 0 {
          assert StaysSince(rest, k, i - 1);
        } else {
          assert forall j :: 0 <= j < |rest| ==> rest[j] == ops[j + 1];
        }
      }
      if forall j :: 0 <= j < |rest| ==> rest[j] != Remove(k) {
        assert forall j :: 0 < j < |ops| ==> ops[j] == rest[j - 1];
        assert ops[0] == Add(k) ==> StaysSince(ops, k, 0);
      }
      assert forall j :: 0 <= j < |rest| ==> rest[j] == ops[j + 1];
    }
  }

  /** A hub has exactly the clients that have joined and not left since; who has left is given nothing more. */
  lemma ClientsAreThoseWhoStay<K>(ops: seq<Op<K>>, k: K)
    ensures k in Run(NewHub<K>(), ops).clients <==> exists i: nat :: StaysSince(ops, k, i)
  {
    ThereExactlyWhen(NewHub<K>(), ops, k);
  }

  /** The init segment was set by operation i and has not been set since. */
  predicate LatestInit<K(==)>(ops: seq<Op<K>>, seg: Blob, i: nat) {
    i < |ops| && ops[i] == SetInit(seg) && forall j :: i < j < |ops| ==> !ops[j].SetInit?
  }

  lemma {:induction false} InitExactlyWhen<K>(h: Hub<K>, ops: seq<Op<K>>, seg: Blob)
    ensures Run(h, ops).init == Some(seg) <==>
            (exists i: nat :: LatestInit(ops, seg, i)) || (h.init == Some(seg) && forall j :: 0 <= j < |ops| ==> !ops[j].SetInit?)
    decreases |ops|
  {
    if ops != [] {
      var rest := ops[1..];
      InitExactlyWhen(Step(h, ops[0]), rest, seg);
      assert forall j :: 0 <= j < |rest| ==> rest[j] == ops[j + 1];
      if i: nat :| LatestInit(rest, seg, i) {
        assert LatestInit(ops, seg, i + 1);
      }
      if i: nat :| LatestInit(ops, seg, i) {
        assert i > 0 ==> LatestInit(rest, seg, i - 1);
      }
      if forall j :: 0 <= j < |rest| ==> !rest[j].SetInit? {
        assert forall j :: 0 < j < |ops| ==> ops[j] == rest[j - 1];
        assert ops[0] == SetInit(seg) ==> LatestInit(ops, seg, 0);
      }
    }
  }

  /** A hub's init segment, which joining clients begin with, is always the last that was set. */
  lemma InitIsTheLatest<K>(ops: seq<Op<K>>, seg: Blob)
    ensures Run(NewHub<K>(), ops).init == Some(seg) <==> exists i: nat :: LatestInit(ops, seg, i)
  {
    InitExactlyWhen(NewHub<K>(), ops, seg);
  }

  /**
   In every run a broadcast reaches every client that is there: one that has started gets the
   fragment, unless its 512 places are taken; one that has not is started by a keyframe, and by
   nothing else, with the init segment in front if there is one.
   */
  lemma BroadcastReaches<K>(ops: seq<Op<K>>, c: Cast, k: K)
    requires k in Run(NewHub<K>(), ops).clients
    ensures var h := Run(NewHub<K>(), ops);
            var before := h.clients[k];
            k in Step(h, Broadcast(c)).clients &&
            var after := Step(h, Broadcast(c)).clients[k];
            && (before.started && |before.queue| < 512 ==>
                  after.started && after.queue == before.queue + [c.frag] && after.missed == before.missed)
            && (before.started && |before.queue| >= 512 ==>
                  after.started && after.queue == before.queue && after.missed == before.missed + 1)
            && (!before.started && !c.key ==> after == before && before.queue == [])
            && (!before.started && c.key ==>
                  after.started && after.missed == 0 && after.queue == (if h.init.Some? then [h.init.value] else []) + [c.frag])
  {
    assert Inv(NewHub<K>());
    RunKeepsInv(NewHub<K>(), ops);
    assert ClientInv(Run(NewHub<K>(), ops).clients[k], Run(NewHub<K>(), ops).hist);
  }

  // ---------------------------------------------------------------- exactly when clients are led in

  /** Joins, leaves and reads in between do not matter for the order of init segment and keyframes. */
  lemma {:induction false} InterleavingKeepsOrder<K>(ops: seq<Op<K>>)
    ensures InitBeforeKey(FeederPart(ops)) <==> InitBeforeKey(ops)
  {
    if ops != [] {
      InterleavingKeepsOrder(ops[1..]);
      var rest := FeederPart(ops[1..]);
      if FromFeeder(ops[0]) {
        assert FeederPart(ops)[0] == ops[0] && FeederPart(ops)[1..] == rest;
      } else {
        assert FeederPart(ops) == rest;
      }
    }
  }

  predicate OnlyFeeder<K>(feed: seq<Op<K>>) {
    forall i :: 0 <= i < |feed| ==> FromFeeder(feed[i])
  }

  lemma {:induction false} FeederPartOfFeed<K>(feed: seq<Op<K>>)
    requires OnlyFeeder(feed)
    ensures FeederPart(feed) == feed
  {
    if feed != [] {
      FeederPartOfFeed(feed[1..]);
      assert feed == [feed[0]] + feed[1..];
    }
  }

  /** A client of this hub was started without an init segment. */
  predicate Unled<K(==)>(h: Hub<K>, k: K) {
    k in h.clients && h.clients[k].started && h.clients[k].lead == []
  }

  lemma {:induction false} StaysUnled<K>(h: Hub<K>, feed: seq<Op<K>>, k: K)
    requires OnlyFeeder(feed) && Unled(h, k)
    ensures Unled(Run(h, feed), k)
    decreases |feed|
  {
    if feed != [] {
      StaysUnled(Step(h, feed[0]), feed[1..], k);
    }
  }

  lemma {:induction false} StartsUnled<K>(h: Hub<K>, feed: seq<Op<K>>, k: K)
    requires OnlyFeeder(feed) && !InitBeforeKey(feed)
    requires h.init.None? && k in h.clients && h.clients[k] == NEWCOMER
    ensures Unled(Run(h, feed), k)
    decreases |feed|
  {
    var next := Step(h, feed[0]);
    if KeyCast(feed[0]) {
      StaysUnled(next, feed[1..], k);
    } else {
      StartsUnled(next, feed[1..], k);
    }
  }

  /** The clients of a hub that is fed like this, whoever comes, goes and reads meanwhile, are led in by an init segment. */
  ghost predicate AlwaysLedIn<K(!new)>(feed: seq<Op<K>>) {
    forall ops: seq<Op<K>> :: FeederPart(ops) == feed ==> LedBy(Run(NewHub(), ops), Inits(ops))
  }

  /**
   Whatever sets init segments and broadcasts: every client that is started, in every
   interleaving, was led in by an init segment exactly when no keyframe was broadcast before
   the first of them.
   */
  lemma LedInExactlyWhen<K(!new)>(feed: seq<Op<K>>, k: K)
    requires OnlyFeeder(feed)
    ensures AlwaysLedIn(feed) <==> InitBeforeKey(feed)
  {
    if InitBeforeKey(feed) {
      forall ops: seq<Op<K>> | FeederPart(ops) == feed
        ensures LedBy(Run(NewHub(), ops), Inits(ops))
      {
        InterleavingKeepsOrder(ops);
        RunKeepsLead(NewHub<K>(), ops, Inits(ops));
      }
    } else {
      var ops: seq<Op<K>> := [Add(k)] + feed;
      assert ops[1..] == feed;
      FeederPartOfFeed(feed);
      assert FeederPart(ops) == [] + feed == feed;
      StartsUnled(Step(NewHub<K>(), Add(k)), feed, k);
      assert Unled(Run(NewHub<K>(), ops), k);
    }
  }

  /** A feed that begins with a keyframe: a client is handed it with no init segment at all. */
  lemma BroadcastBeforeInit()
    ensures var h := Run(NewHub<int>(), [Add(0), Broadcast(Cast([1], true)), SetInit([2])]);
            0 in h.clients && h.clients[0].started && h.clients[0].queue == [[1]]
  {
    var h1 := Step(NewHub<int>(), Add(0));
    var h2 := Step(h1, Broadcast(Cast([1], true)));
    var h3 := Step(h2, SetInit([2]));
    var last: seq<Op<int>> := [SetInit([2])];
    var ops: seq<Op<int>> := [Add(0), Broadcast(Cast([1], true)), SetInit([2])];
    assert ops[1..][1..] == last;
    assert Run(h2, last) == h3 by { assert last[1..] == []; }
    assert Run(NewHub<int>(), ops) == h3;
  }

  // ---------------------------------------------------------------- the objects

  lemma AllDelivered<K>(h: Hub<K>, t: Hub<K>, c: Cast)
    requires t.clients.Keys == h.clients.Keys
    requires forall k :: k in h.clients ==> t.clients[k] == Deliver(h.clients[k], h.init, c, |h.hist|)
    requires t.init == h.init && t.gop == NextGop(h.gop, c) && t.hist == h.hist + [c]
    ensures t == Step(h, Broadcast(c))
  {
    assert t.clients == Step(h, Broadcast(c)).clients;
  }

  class SurvWSClient {
    var send: seq<Blob>
    var started: bool
    var closed: bool
    ghost var lead: seq<Blob>
    ghost var picks: seq<nat>
    ghost var missed: nat

    ghost function Abs(): Client
      reads this
    {
      Client(send, started, lead, picks, missed)
    }

    constructor ()
      ensures Abs() == NEWCOMER && !closed
    {
      send, started, closed, lead, picks, missed := [], false, false, [], [], 0;
    }

    /** A send that gives up when the queue is full. */
    method TrySend(x: Blob) returns (ok: bool)
      modifies this`send
      ensures ok == (|old(send)| < SEND_BUF)
      ensures send == if ok then old(send) + [x] else old(send)
    {
      ok := |send| < SEND_BUF;
      if ok {
        send := send + [x];
      }
    }

    /** What the client's writer takes out: the oldest entry, or the end of a closed queue. */
    method Receive() returns (item: Option<Blob>, ok: bool)
      requires send != [] || closed
      modifies this`send
      ensures ok <==> old(send) != []
      ensures ok ==> item == Some(old(send)[0]) && send == old(send)[1..]
      ensures !ok ==> item == None && send == old(send)
    {
      if |send| > 0 {
        item, ok := Some(send[0]), true;
        send := send[1..];
      } else {
        item, ok := None, false;
      }
    }
  }

  class SurvWSHub {
    var clients: set<SurvWSClient>
    var initSeg: Option<Blob>
    var gop: seq<Blob>
    ghost var hist: seq<Cast>

    ghost function Abs(): Hub<SurvWSClient>
      reads this, clients
    {
      Hub(map c | c in clients :: c.Abs(), initSeg, gop, hist)
    }

    /** The cache agrees with the broadcast history. */
    ghost predicate Valid()
      reads this
    {
      gop == CurrentGop(hist)
    }

    constructor ()
      ensures Valid() && Abs() == NewHub() && clients == {}
    {
      clients, initSeg, gop, hist := {}, None, [], [];
    }

    method SetInit(seg: Blob)
      modifies this`initSeg
      ensures Abs() == Step(old(Abs()), Op.SetInit(seg))
    {
      initSeg := Some(seg);
    }

    method Broadcast(frag: Blob, keyframe: bool)
      requires Valid()
      modifies this, clients
      ensures Valid() && clients == old(clients)
      ensures Abs() == Step(old(Abs()), Op.Broadcast(Cast(frag, keyframe)))
    {
      ghost var c := Cast(frag, keyframe);
      ghost var before := Abs();
      CacheAgrees(hist, c);
      Remember(frag, keyframe);
      FanOut(frag, keyframe);
      assert forall x :: x in clients ==> x.Abs() == Deliver(before.clients[x], initSeg, c, |hist|);
      hist := hist + [c];
      AllDelivered(before, Abs(), c);
    }

    /** The cache step, under the same lock as the fan-out. */
    method Remember(frag: Blob, keyframe: bool)
      modifies this`gop
      ensures gop == NextGop(old(gop), Cast(frag, keyframe))
    {
      if keyframe {
        gop := [frag];
      } else if |gop| > 0 {
        if |gop| >= GOP_MAX_FRAGS {
          gop := [];
        } else {
          gop := gop + [frag];
        }
      }
    }

    /** The broadcast loop, in no particular order of the clients. */
    method FanOut(frag: Blob, keyframe: bool)
      modifies clients
      ensures forall x :: x in clients ==> x.Abs() == Deliver(old(x.Abs()), initSeg, Cast(frag, keyframe), |hist|)
    {
      var todo := clients;
      while todo != {}
        invariant todo <= clients
        invariant forall x :: x in todo ==> x.Abs() == old(x.Abs())
        invariant forall x :: x in clients - todo ==> x.Abs() == Deliver(old(x.Abs()), initSeg, Cast(frag, keyframe), |hist|)
        decreases todo
      {
        var x :| x in todo;
        todo := todo - {x};
        DeliverTo(x, frag, keyframe);
      }
    }

    /** The body of the broadcast loop. */
    method DeliverTo(x: SurvWSClient, frag: Blob, keyframe: bool)
      modifies x
      ensures x.Abs() == Deliver(old(x.Abs()), initSeg, Cast(frag, keyframe), |hist|)
      ensures x.closed == old(x.closed)
    {
      if !x.started {
        if !keyframe {
          return;
        }
        x.started := true;
        if initSeg.Some? {
          var seeded := x.TrySend(initSeg.value);
          if !seeded {
            x.started := false;
            return;
          }
          x.lead := [initSeg.value];
        }
      }
      var sent := x.TrySend(frag);
      if sent {
        x.picks := x.picks + [|hist|];
      } else {
        x.missed := x.missed + 1;
      }
    }

    method Add() returns (c: SurvWSClient)
      requires Valid()
      modifies this`clients
      ensures fresh(c) && clients == old(clients) + {c} && !c.closed
      ensures Abs() == Step(old(Abs()), Op.Add(c))
    {
      c := new SurvWSClient();
      clients := clients + {c};
      Seed(c);
    }

    /** Fast-start: all or nothing, and only into a fresh queue. */
    method Seed(c: SurvWSClient)
      requires |gop| <= |hist| && c.Abs() == NEWCOMER
      modifies c
      ensures c.Abs() == Join(initSeg, gop, |hist|) && c.closed == old(c.closed)
    {
      if initSeg.Some? && |gop| > 0 && 1 + |gop| <= SEND_BUF {
        c.send := c.send + [initSeg.value];
        for i := 0 to |gop|
          invariant c.send == [initSeg.value] + gop[..i]
          invariant c.lead == [] && !c.started && c.closed == old(c.closed) && c.picks == [] && c.missed == 0
        {
          c.send := c.send + [gop[i]];
        }
        c.started := true;
        c.lead := [initSeg.value];
        c.picks := Upto(|hist| - |gop|, |hist|);
      }
    }

    method Remove(c: SurvWSClient)
      modifies this`clients, c`closed
      ensures Abs() == Step(old(Abs()), Op.Remove(c))
      ensures c.closed == (old(c.closed) || c in old(clients))
    {
      if c in clients {
        clients := clients - {c};
        c.closed := true;
      }
    }
  }
}
