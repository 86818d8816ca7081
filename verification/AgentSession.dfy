/** The session object: the publisher's frame step, the fan-out to the watchers' bounded queues, and their removal. */
module AgentSession {
  import opened Bytes
  import opened Ovp
  import opened FrameCodec
  import opened FrameBuffer
  import opened LateJoin
  import opened JoinProtocol

  /** Pushing one message after the other. */
  function PushAll<T>(queue: seq<T>, ms: seq<T>, capacity: nat): seq<T> {
    if ms == [] then queue else Push(PushAll(queue, ms[..|ms| - 1], capacity), ms[|ms| - 1], capacity)
  }

  function Newest<T>(ms: seq<T>, n: nat): seq<T> {
    if n < |ms| then ms[|ms| - n..] else ms
  }

  /** A queue that is not drained always holds the newest messages, as many as it has room for. */
  lemma {:induction false} QueueHoldsTheNewest<T>(ms: seq<T>, capacity: nat)
    ensures PushAll([], ms, capacity) == Newest(ms, capacity)
    decreases |ms|
  {
    if ms != [] {
      var front, m := ms[..|ms| - 1], ms[|ms| - 1];
      QueueHoldsTheNewest(front, capacity);
      NewestSnoc(front, m, capacity);
      assert ms == front + [m];
    }
  }

  lemma NewestSnoc<T>(front: seq<T>, m: T, capacity: nat)
    ensures Push(Newest(front, capacity), m, capacity) == Newest(front + [m], capacity)
  {
  }

  /** A send that gives up the oldest message rather than wait, and reports when even that is of no use. */
  method Send(channel: seq<Message>, m: Message, capacity: nat) returns (queue: seq<Message>, full: bool)
    requires |channel| <= capacity
    ensures queue == Push(channel, m, capacity) && |queue| <= capacity
    ensures full <==> capacity == 0
  {
    queue, full := channel, false;
    if |queue| < capacity {
      return queue + [m], false;
    }
    if queue != [] {
      queue := queue[1..];
    }
    if |queue| < capacity {
      queue := queue + [m];
    } else {
      full := true;
    }
  }

  function Pushed(channels: Queues, m: Message, capacity: nat): Queues {
    map w | w in channels :: Push(channels[w], m, capacity)
  }

  predicate Fit(channels: Queues, capacity: nat) {
    forall w :: w in channels ==> |channels[w]| <= capacity
  }

  lemma PushedFit(channels: Queues, m: Message, capacity: nat)
    requires Fit(channels, capacity)
    ensures Fit(Pushed(channels, m, capacity), capacity)
  {
  }

  type Queues = map<nat, seq<Message>>

  /** Everybody in `left` still has the old queue, everybody else the new one. */
  ghost predicate Halfway(channels: Queues, after: Queues, queues: Queues, left: set<nat>) {
    && left <= channels.Keys == queues.Keys == after.Keys
    && (forall w :: w in left ==> queues[w] == channels[w])
    && (forall w :: w in channels && w !in left ==> queues[w] == after[w])
  }

  lemma OneFurther(channels: Queues, after: Queues, queues: Queues, left: set<nat>, w: nat)
    requires Halfway(channels, after, queues, left) && w in left
    ensures Halfway(channels, after, queues[w := after[w]], left - {w})
  {
  }

  method SendToAll(channels: Queues, m: Message, capacity: nat) returns (queues: Queues, slow: set<nat>)
    requires Fit(channels, capacity)
    ensures queues == Pushed(channels, m, capacity)
    ensures forall w :: w in slow <==> capacity == 0 && w in channels
  {
    ghost var after := Pushed(channels, m, capacity);
    queues, slow := channels, {};
    var left := channels.Keys;
    while left != {}
      invariant Halfway(channels, after, queues, left)
      invariant forall w :: w in slow <==> capacity == 0 && w in channels && w !in left
      decreases |left|
    {
      var w :| w in left;
      var queue, full := Send(queues[w], m, capacity);
      OneFurther(channels, after, queues, left, w);
      queues := queues[w := queue];
      left := left - {w};
      if full {
        slow := slow + {w};
      }
    }
  }

  class Session {
    const frameBuf: FrameBuffer
    const capacity: nat
    var watchers: Queues
    var broadcast: seq<Message>
    var watcherCount: int

    ghost predicate Valid()
      reads this
    {
      && watcherCount == |watchers|
      && |broadcast| <= BROADCAST_CAPACITY
      && Fit(watchers, capacity)
    }

    constructor (maxWatcherQueue: nat)
      ensures Valid() && watchers == map[] && broadcast == [] && capacity == maxWatcherQueue
      ensures fresh(frameBuf) && frameBuf.Abs() == BLANK
    {
      frameBuf := new FrameBuffer();
      capacity := maxWatcherQueue;
      watchers, broadcast, watcherCount := map[], [], 0;
    }

    /** A frame, whatever the cache makes of it, is passed on as it came, and the cache is up to date by then. */
    method HandleFrame(length: uint32, payload: Blob)
      requires Valid() && Octets(payload) && |broadcast| < BROADCAST_CAPACITY
      modifies this`broadcast, frameBuf
      ensures Valid()
      ensures frameBuf.Abs() == RelayFold(old(frameBuf.Abs()), Frame(length, payload))
      ensures broadcast == old(broadcast) + [Frame(length, payload)]
    {
      var fd := DecodeFrameDelta(payload);
      if fd.Ok? {
        frameBuf.Update(fd.value);
      }
      broadcast := broadcast + [Frame(length, payload)];
    }

    method AddWatcher(w: nat)
      requires Valid() && w !in watchers
      modifies this`watchers, this`watcherCount
      ensures Valid() && watchers == old(watchers)[w := []]
    {
      watchers := watchers[w := []];
      watcherCount := watcherCount + 1;
    }

    /** Hands one message to every watcher; those whose queue cannot hold anything are to be removed. */
    method FanOut() returns (slow: set<nat>)
      requires Valid() && broadcast != []
      modifies this`watchers, this`broadcast
      ensures Valid() && broadcast == old(broadcast)[1..]
      ensures watchers == Pushed(old(watchers), old(broadcast)[0], capacity)
      ensures forall w :: w in slow <==> capacity == 0 && w in watchers
    {
      var m := broadcast[0];
      broadcast := broadcast[1..];
      PushedFit(watchers, m, capacity);
      watchers, slow := SendToAll(watchers, m, capacity);
      assert watchers.Keys == old(watchers).Keys;
      assert |watchers| == |watchers.Keys| && |old(watchers)| == |old(watchers).Keys|;
    }

    /** Removing a watcher a second time changes nothing. */
    method RemoveWatcher(w: nat) returns (closed: bool)
      requires Valid()
      modifies this`watchers, this`watcherCount
      ensures Valid() && watchers == old(watchers) - {w}
      ensures closed <==> w in old(watchers)
    {
      closed := w in watchers;
      if closed {
        assert watchers.Keys == (watchers - {w}).Keys + {w};
        watchers := watchers - {w};
        watcherCount := watcherCount - 1;
      } else {
        assert watchers - {w} == watchers;
      }
    }
  }
}
