/** Grid and hub together: what a hub's history means for the sockets, and for the order in which the relay starts channels. */
module GridVideo {
  import opened Bytes
  import opened Grid
  import GridSystem
  import WsHub

  /** What this client of this hub was given, in a run that broadcasts no keyframe before an init segment is set. */
  ghost predicate FromHub<K>(given: seq<Blob>, ops: seq<WsHub.Op<K>>, k: K) {
    && WsHub.InitBeforeKey(ops)
    && var h := WsHub.Run(WsHub.NewHub(), ops);
    && k in h.clients
    && WsHub.Indexes(h.hist, h.clients[k].picks)
    && given == WsHub.Enqueued(h.clients[k], h.hist)
  }

  predicate KeyFragment(hist: seq<WsHub.Cast>, frag: Blob) {
    exists i :: 0 <= i < |hist| && hist[i].key && hist[i].frag == frag
  }

  /** An init segment first, then a keyframe; as far as there is anything. */
  ghost predicate BeginsAsVideo<K>(media: seq<Blob>, ops: seq<WsHub.Op<K>>) {
    && (|media| > 0 ==> media[0] in WsHub.Inits(ops))
    && (|media| > 1 ==> KeyFragment(WsHub.Run(WsHub.NewHub<K>(), ops).hist, media[1]))
  }

  lemma GivenIsVideo<K>(given: seq<Blob>, ops: seq<WsHub.Op<K>>, k: K)
    requires FromHub(given, ops, k)
    ensures BeginsAsVideo(given, ops)
  {
    WsHub.ClientHistory(ops, k);
    var h := WsHub.Run(WsHub.NewHub<K>(), ops);
    var picks := h.clients[k].picks;
    if given != [] {
      assert given[1] == given[1..][0] == WsHub.Picked(h.hist, picks)[0] == h.hist[picks[0]].frag;
    }
  }

  /** The relay has subscribed the virtual socket's slot to a hub. */
  predicate HasFeed(s: GridSystem.Sys, v: Virtual) {
    && v.sock < |s.ends| && v.slot in s.ends[v.sock].owner
    && s.ends[v.sock].owner[v.slot] < |s.ends[v.sock].server.feeds|
  }

  function FeedOf(s: GridSystem.Sys, v: Virtual): Feed
    requires HasFeed(s, v)
  {
    s.ends[v.sock].server.feeds[s.ends[v.sock].owner[v.slot]]
  }

  /**
   Whatever happens on the connections: a virtual socket of the dashboard is handed an init
   segment of its own channel first and a keyframe of it next.
   */
  lemma SocketsBeginWithVideo<K>(flow: bool, hubs: set<string>, events: seq<GridSystem.Event>, i: nat, ops: seq<WsHub.Op<K>>, k: K)
    requires i < |GridSystem.After(flow, hubs, events).client.virtuals|
    requires var s := GridSystem.After(flow, hubs, events);
             var v := s.client.virtuals[i];
             HasFeed(s, v) ==> FromHub(FeedOf(s, v).given, ops, k)
    ensures BeginsAsVideo(GridSystem.After(flow, hubs, events).client.virtuals[i].delivered, ops)
  {
    GridSystem.ReceivesItsOwnStream(flow, hubs, events, i);
    var s := GridSystem.After(flow, hubs, events);
    var v := s.client.virtuals[i];
    if v.delivered != [] {
      GivenIsVideo(FeedOf(s, v).given, ops, k);
    }
  }

  /**
   The startup counter of a channel tells what it sends next: at two it is an init segment, at
   one it is a keyframe. So the phases of the writer are what they are taken for.
   */
  lemma CountersTellWhatIsNext<K>(flow: bool, hubs: set<string>, events: seq<GridSystem.Event>, p: nat, slot: nat, ops: seq<WsHub.Op<K>>, k: K)
    requires p < |GridSystem.After(flow, hubs, events).ends|
    requires var e := GridSystem.After(flow, hubs, events).ends[p];
             GridSystem.HasHead(e, slot) && FromHub(e.server.feeds[e.server.subs[slot].feed].given, ops, k)
    ensures var t := GridSystem.After(flow, hubs, events).ends[p].server;
            var head := t.feeds[t.subs[slot].feed].queue[0];
            && t.subs[slot].startup <= 2
            && (t.subs[slot].startup == 2 ==> head in WsHub.Inits(ops))
            && (t.subs[slot].startup == 1 ==> KeyFragment(WsHub.Run(WsHub.NewHub<K>(), ops).hist, head))
  {
    var s := GridSystem.After(flow, hubs, events);
    var e := s.ends[p];
    assert GridSystem.EndInv(s, p);
    HeadIsNext(e, slot);
    GivenIsVideo(e.server.feeds[e.server.subs[slot].feed].given, ops, k);
  }

  lemma HeadIsNext(e: GridSystem.End, slot: nat)
    requires Linked(e.server) && GridSystem.HasHead(e, slot) && GridSystem.Live(e)
    ensures var sub := e.server.subs[slot];
            var feed, n := e.server.feeds[sub.feed], |GridSystem.ForSlot(e.log, slot)|;
            sub.startup == GridSystem.Startup(n) && n < |feed.given| && feed.queue[0] == feed.given[n]
  {
    var sub := e.server.subs[slot];
    assert GridSystem.Whole(e, slot, sub.feed);
  }
}
