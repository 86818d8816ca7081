/** Pairing event edges into intervals, filing them by day, and asking whether any overlaps a time range. */
module EventStore {
  import opened Bytes
  import opened Days

  const MAX_EVENT_MS := 600000

  // ---------------------------------------------------------------- the ledger: what has been accepted

  datatype Key = Key(stream: string, kind: string)

  datatype Edge = Edge(key: Key, active: bool, tsMs: int)

  datatype Closing = Closing(key: Key, startMs: int, endMs: int)

  /** Since when each key is open, and every interval closed so far. */
  datatype Ledger = Ledger(open: map<Key, int>, closed: seq<Closing>)

  const EMPTY := Ledger(map[], [])

  predicate Rejected(e: Edge) {
    e.key.stream == "" || e.key.kind == "" || e.tsMs <= 0
  }

  /** The interval that an edge closes, if any. */
  function Closes(l: Ledger, e: Edge): Option<Closing> {
    if Rejected(e) || e.key !in l.open then None
    else
      var startMs := l.open[e.key];
      Some(Closing(e.key, startMs, if e.active then startMs + MAX_EVENT_MS else Min(e.tsMs, startMs + MAX_EVENT_MS)))
  }

  function Enter(l: Ledger, e: Edge): Ledger {
    var closing := Closes(l, e);
    var open := if Rejected(e) then l.open else if e.active then l.open[e.key := e.tsMs] else l.open - {e.key};
    Ledger(open, if closing.Some? then l.closed + [closing.value] else l.closed)
  }

  function EnterAll(edges: seq<Edge>): Ledger {
    if edges == [] then EMPTY else Enter(EnterAll(edges[..|edges| - 1]), edges[|edges| - 1])
  }

  function Activations(edges: seq<Edge>, key: Key): nat {
    if edges == [] then 0
    else
      var e := edges[|edges| - 1];
      Activations(edges[..|edges| - 1], key) + if e.key == key && e.active && !Rejected(e) then 1 else 0
  }

  function ClosedOf(closed: seq<Closing>, key: Key): nat {
    if closed == [] then 0
    else ClosedOf(closed[..|closed| - 1], key) + if closed[|closed| - 1].key == key then 1 else 0
  }

  lemma ClosedSnoc(closed: seq<Closing>, c: Closing, key: Key)
    ensures ClosedOf(closed + [c], key) == ClosedOf(closed, key) + if c.key == key then 1 else 0
  {
    assert (closed + [c])[..|closed|] == closed;
  }

  /** Every accepted activation of a key is one closed interval, or it is open still. */
  lemma {:induction false} ActivationsAreConserved(edges: seq<Edge>, key: Key)
    ensures Activations(edges, key) == ClosedOf(EnterAll(edges).closed, key) + if key in EnterAll(edges).open then 1 else 0
    decreases |edges|
  {
    if edges != [] {
      var front, e := edges[..|edges| - 1], edges[|edges| - 1];
      ActivationsAreConserved(front, key);
      var l := EnterAll(front);
      if Closes(l, e).Some? {
        ClosedSnoc(l.closed, Closes(l, e).value, key);
      }
    }
  }

  predicate Bounded(closed: seq<Closing>) {
    forall i :: 0 <= i < |closed| ==> closed[i].endMs <= closed[i].startMs + MAX_EVENT_MS
  }

  lemma {:induction false} ClosedAreBounded(edges: seq<Edge>)
    ensures Bounded(EnterAll(edges).closed)
    decreases |edges|
  {
    if edges != [] {
      ClosedAreBounded(edges[..|edges| - 1]);
    }
  }

  // ---------------------------------------------------------------- days

  function Sec(ms: int): int {
    ms / 1000
  }

  datatype Bare = Bare(start: int, end: int, kind: string)

  function BareOf(c: Closing): Bare {
    Bare(Sec(c.startMs), Sec(c.endMs), c.key.kind)
  }

  datatype DayKey = DayKey(stream: string, day: int)

  /** An interval is filed on the day it starts and the day it ends. */
  predicate FiledOn(zone: int, c: Closing, k: DayKey) {
    c.key.stream == k.stream && (k.day == Day(zone, Sec(c.startMs)) || k.day == Day(zone, Sec(c.endMs)))
  }

  function Filed(zone: int, closed: seq<Closing>, k: DayKey): seq<Bare> {
    if closed == [] then []
    else
      var front, c := Filed(zone, closed[..|closed| - 1], k), closed[|closed| - 1];
      if FiledOn(zone, c, k) then front + [BareOf(c)] else front
  }

  lemma FiledSnoc(zone: int, closed: seq<Closing>, c: Closing, k: DayKey)
    ensures Filed(zone, closed + [c], k) == if FiledOn(zone, c, k) then Filed(zone, closed, k) + [BareOf(c)] else Filed(zone, closed, k)
  {
    assert (closed + [c])[..|closed|] == closed;
  }

  lemma {:induction false} InFiled(zone: int, closed: seq<Closing>, k: DayKey, b: Bare)
    ensures b in Filed(zone, closed, k) <==> exists i :: 0 <= i < |closed| && FiledOn(zone, closed[i], k) && BareOf(closed[i]) == b
    decreases |closed|
  {
    if closed != [] {
      var n := |closed| - 1;
      InFiled(zone, closed[..n], k, b);
      if b in Filed(zone, closed[..n], k) {
        var i :| 0 <= i < n && FiledOn(zone, closed[..n][i], k) && BareOf(closed[..n][i]) == b;
        assert closed[i] == closed[..n][i];
      }
      if i :| 0 <= i < |closed| && FiledOn(zone, closed[i], k) && BareOf(closed[i]) == b {
        assert i < n ==> closed[..n][i] == closed[i];
      }
    }
  }

  // ---------------------------------------------------------------- overlaps

  predicate Hits(b: Bare, start: int, end: int) {
    b.start < end && b.end > start
  }

  predicate Lasts(from: int, until: int, t: int) {
    from <= t < until
  }

  /** An interval that lasts overlaps a range that lasts exactly when they share a moment; one that does not, when it is inside. */
  lemma HitsMeans(b: Bare, start: int, end: int)
    requires b.start <= b.end && start < end
    ensures b.start < b.end ==> (Hits(b, start, end) <==> exists t :: Lasts(b.start, b.end, t) && Lasts(start, end, t))
    ensures b.start == b.end ==> (Hits(b, start, end) <==> start < b.start < end)
  {
    if b.start < b.end && Hits(b, start, end) {
      var t := if b.start <= start then start else b.start;
      assert Lasts(b.start, b.end, t) && Lasts(start, end, t);
    }
  }

  function DaysSpanned(zone: int, start: int, end: int): seq<int> {
    if Day(zone, start) == Day(zone, end) then [Day(zone, start)] else [Day(zone, start), Day(zone, end)]
  }

  predicate HitOn(list: seq<Bare>, start: int, end: int) {
    exists i :: 0 <= i < |list| && Hits(list[i], start, end)
  }

  /** What is answered: whether an interval filed on one of the days overlaps the range. */
  predicate FoundOverlap(zone: int, closed: seq<Closing>, stream: string, start: int, end: int) {
    exists d :: 0 <= d < |DaysSpanned(zone, start, end)| &&
                HitOn(Filed(zone, closed, DayKey(stream, DaysSpanned(zone, start, end)[d])), start, end)
  }

  /** What is asked: whether any closed interval of the stream overlaps the range. */
  predicate AnyOverlap(closed: seq<Closing>, stream: string, start: int, end: int) {
    exists i :: 0 <= i < |closed| && closed[i].key.stream == stream && Hits(BareOf(closed[i]), start, end)
  }

  /** An interval that overlaps a range of at most two days is filed on the first or on the last of them. */
  lemma HitIsFiled(zone: int, c: Closing, start: int, end: int)
    requires c.endMs <= c.startMs + MAX_EVENT_MS && Hits(BareOf(c), start, end)
    requires Day(zone, end) <= Day(zone, start) + 1
    ensures FiledOn(zone, c, DayKey(c.key.stream, Day(zone, start))) || FiledOn(zone, c, DayKey(c.key.stream, Day(zone, end)))
  {
    var s, e := Sec(c.startMs), Sec(c.endMs);
    DayIsMonotone(zone, s, end);
    DayIsMonotone(zone, start, e);
    if s <= e { DayIsMonotone(zone, s, e); } else { DayIsMonotone(zone, e, s); }
    if start <= end { DayIsMonotone(zone, start, end); } else { DayIsMonotone(zone, end, start); }
  }

  lemma FoundIsReal(zone: int, closed: seq<Closing>, stream: string, start: int, end: int)
    requires FoundOverlap(zone, closed, stream, start, end)
    ensures AnyOverlap(closed, stream, start, end)
  {
    var days := DaysSpanned(zone, start, end);
    var d :| 0 <= d < |days| && HitOn(Filed(zone, closed, DayKey(stream, days[d])), start, end);
    var list := Filed(zone, closed, DayKey(stream, days[d]));
    var i :| 0 <= i < |list| && Hits(list[i], start, end);
    InFiled(zone, closed, DayKey(stream, days[d]), list[i]);
  }

  lemma FiledIsFound(zone: int, closed: seq<Closing>, i: nat, start: int, end: int, d: nat)
    requires i < |closed| && Hits(BareOf(closed[i]), start, end) && d < |DaysSpanned(zone, start, end)|
    requires FiledOn(zone, closed[i], DayKey(closed[i].key.stream, DaysSpanned(zone, start, end)[d]))
    ensures FoundOverlap(zone, closed, closed[i].key.stream, start, end)
  {
    var k := DayKey(closed[i].key.stream, DaysSpanned(zone, start, end)[d]);
    InFiled(zone, closed, k, BareOf(closed[i]));
    var j :| 0 <= j < |Filed(zone, closed, k)| && Filed(zone, closed, k)[j] == BareOf(closed[i]);
    assert HitOn(Filed(zone, closed, k), start, end);
  }

  /** For a range that reaches into the next day at most, the answer is right. */
  lemma OverlapsIsRight(zone: int, closed: seq<Closing>, stream: string, start: int, end: int)
    requires Bounded(closed) && Day(zone, end) <= Day(zone, start) + 1
    ensures FoundOverlap(zone, closed, stream, start, end) <==> AnyOverlap(closed, stream, start, end)
  {
    if FoundOverlap(zone, closed, stream, start, end) {
      FoundIsReal(zone, closed, stream, start, end);
    }
    if i :| 0 <= i < |closed| && closed[i].key.stream == stream && Hits(BareOf(closed[i]), start, end) {
      HitIsFiled(zone, closed[i], start, end);
      var d := if FiledOn(zone, closed[i], DayKey(stream, Day(zone, start))) then 0 else |DaysSpanned(zone, start, end)| - 1;
      FiledIsFound(zone, closed, i, start, end, d);
    }
  }

  /** An event of one second, on a day strictly between the first and the last of the range. */
  function MissedEdges(zone: int, stream: string, start: int): seq<Edge> {
    var at := (Day(zone, start) + 1) * DAY_SECONDS - zone;
    [Edge(Key(stream, "motion"), true, at * 1000), Edge(Key(stream, "motion"), false, (at + 1) * 1000)]
  }

  lemma LongRangeMisses(zone: int, stream: string, start: int, end: int)
    requires stream != "" && start >= 0 && Day(zone, end) > Day(zone, start) + 1
    ensures var closed := EnterAll(MissedEdges(zone, stream, start)).closed;
            AnyOverlap(closed, stream, start, end) && !FoundOverlap(zone, closed, stream, start, end)
  {
    var edges := MissedEdges(zone, stream, start);
    var at := (Day(zone, start) + 1) * DAY_SECONDS - zone;
    TwoEdges(edges[0].key, at * 1000, (at + 1) * 1000);
    var c := Closing(edges[0].key, at * 1000, (at + 1) * 1000);
    assert BareOf(c) == Bare(at, at + 1, "motion");
    assert Day(zone, at) == Day(zone, at + 1) == Day(zone, start) + 1;
    assert start < at && at + 1 <= end;
    assert [c][0] == c;
    assert [c][..0] == [];
    forall d | 0 <= d < |DaysSpanned(zone, start, end)|
      ensures Filed(zone, [c], DayKey(stream, DaysSpanned(zone, start, end)[d])) == []
    {
      assert !FiledOn(zone, c, DayKey(stream, DaysSpanned(zone, start, end)[d]));
    }
  }

  lemma TwoEdges(key: Key, on: int, off: int)
    requires key.stream != "" && key.kind != "" && 0 < on <= off <= on + MAX_EVENT_MS
    ensures EnterAll([Edge(key, true, on), Edge(key, false, off)]).closed == [Closing(key, on, off)]
  {
    var a, b := Edge(key, true, on), Edge(key, false, off);
    assert [a, b][..1] == [a] && [a][..0] == [];
    assert EnterAll([a]) == Enter(EMPTY, a);
    assert [] + [Closing(key, on, off)] == [Closing(key, on, off)];
  }

  /**
   Asking for overlaps is right for every history of edges exactly when the range ends no
   later than the day after the one it starts on, midnight or not.
   */
  lemma OverlapsIsRightIff(zone: int, stream: string, start: int, end: int)
    requires stream != "" && start >= 0
    ensures (forall edges: seq<Edge> ::
               FoundOverlap(zone, EnterAll(edges).closed, stream, start, end) <==>
               AnyOverlap(EnterAll(edges).closed, stream, start, end)) <==>
            Day(zone, end) <= Day(zone, start) + 1
  {
    if Day(zone, end) <= Day(zone, start) + 1 {
      forall edges: seq<Edge>
        ensures FoundOverlap(zone, EnterAll(edges).closed, stream, start, end) <==>
                AnyOverlap(EnterAll(edges).closed, stream, start, end)
      {
        ClosedAreBounded(edges);
        OverlapsIsRight(zone, EnterAll(edges).closed, stream, start, end);
      }
    } else {
      LongRangeMisses(zone, stream, start, end);
      assert EnterAll(MissedEdges(zone, stream, start)).closed == EnterAll(MissedEdges(zone, stream, start)).closed;
    }
  }

  // ---------------------------------------------------------------- the store

  datatype Interval = Interval(start: int, end: int, kind: string, plate: string)

  function BareInterval(iv: Interval): Bare {
    Bare(iv.start, iv.end, iv.kind)
  }

  function Bares(ivals: seq<Interval>): (b: seq<Bare>)
    ensures |b| == |ivals|
  {
    seq(|ivals|, i requires 0 <= i < |ivals| => BareInterval(ivals[i]))
  }

  function IntervalOf(c: Closing, plate: string): Interval {
    Interval(Sec(c.startMs), Sec(c.endMs), c.key.kind, plate)
  }

  /** The plate is noted on the latest interval that began in this second. */
  function NoteLast(ivals: seq<Interval>, sec: int, plate: string): seq<Interval> {
    if ivals == [] then []
    else
      var n := |ivals| - 1;
      if ivals[n].start == sec then ivals[n := ivals[n].(plate := plate)]
      else NoteLast(ivals[..n], sec, plate) + [ivals[n]]
  }

  /** One plate changes, that of the last interval in the list that began in this second. */
  lemma {:induction false} NoteLastMeans(ivals: seq<Interval>, sec: int, plate: string, i: nat)
    requires i < |ivals| && ivals[i].start == sec && forall j :: i < j < |ivals| ==> ivals[j].start != sec
    ensures NoteLast(ivals, sec, plate) == ivals[i := ivals[i].(plate := plate)]
    decreases |ivals|
  {
    var n := |ivals| - 1;
    if i < n {
      NoteLastMeans(ivals[..n], sec, plate, i);
      assert ivals[..n][i := ivals[i].(plate := plate)] + [ivals[n]] == ivals[i := ivals[i].(plate := plate)];
    }
  }

  /** No plate changes if no interval began in this second. */
  lemma {:induction false} NoteNowhere(ivals: seq<Interval>, sec: int, plate: string)
    requires forall i :: 0 <= i < |ivals| ==> ivals[i].start != sec
    ensures NoteLast(ivals, sec, plate) == ivals
    decreases |ivals|
  {
    if ivals != [] {
      NoteNowhere(ivals[..|ivals| - 1], sec, plate);
    }
  }

  lemma BaresSnoc(ivals: seq<Interval>, iv: Interval)
    ensures Bares(ivals + [iv]) == Bares(ivals) + [BareInterval(iv)]
  {
  }

  lemma OneMoreFiled(zone: int, closed: seq<Closing>, c: Closing, k: DayKey, list: seq<Interval>, plate: string)
    requires Bares(list) == Filed(zone, closed, k)
    ensures Filed(zone, closed + [c], k) == if FiledOn(zone, c, k) then Bares(list + [IntervalOf(c, plate)]) else Bares(list)
  {
    FiledSnoc(zone, closed, c, k);
    BaresSnoc(list, IntervalOf(c, plate));
  }

  datatype OpenInterval = OpenInterval(startMs: int, plate: string)

  /** One day's file: its lines, when it was written and how long it is. */
  datatype File = File(lines: seq<Interval>, mtime: int, size: nat)

  datatype DayCache = DayCache(mtime: int, size: nat, ivals: seq<Interval>)

  const NO_CACHE := DayCache(0, 0, [])

  datatype Request = Add(edge: Edge, now: int, length: nat) | Look(stream: string, day: int) | Plate(stream: string, tsMs: int, plate: string)

  function Accept(l: Ledger, r: Request): Ledger {
    if r.Add? then Enter(l, r.edge) else l
  }

  /** The list that is asked for, if one is. */
  function AnswerTo(zone: int, l: Ledger, r: Request): seq<seq<Bare>> {
    if r.Look? then [Filed(zone, l.closed, DayKey(r.stream, r.day))] else []
  }

  /** These lists of intervals are those answers, plates apart. */
  predicate Answer(lists: seq<seq<Interval>>, answers: seq<seq<Bare>>) {
    |lists| == |answers| && forall i :: 0 <= i < |lists| ==> Bares(lists[i]) == answers[i]
  }

  /**
   `ledger` is the history that the store stands for; it does not know where the intervals
   are kept. `files` is the recording directory, of which this store is the only writer.
   */
  class EventStore {
    const onDisk: bool
    const zone: int
    var open: map<Key, OpenInterval>
    var cache: map<DayKey, DayCache>
    var files: map<DayKey, File>
    ghost var ledger: Ledger

    function Cached(k: DayKey): DayCache
      reads this
    {
      if k in cache then cache[k] else NO_CACHE
    }

    function Lines(k: DayKey): seq<Interval>
      reads this
    {
      if k in files then files[k].lines else []
    }

    /** Where a day's list is kept. */
    function Stored(k: DayKey): seq<Interval>
      reads this
    {
      if onDisk then Lines(k) else Cached(k).ivals
    }

    /** What is kept of a day, plates apart. */
    function Kept(k: DayKey): seq<Bare>
      reads this
    {
      Bares(Stored(k))
    }

    /** A cached day is the file as it is now. */
    predicate CacheFits()
      reads this
    {
      forall k :: k in cache && onDisk ==>
        k in files && cache[k].mtime == files[k].mtime && cache[k].size == files[k].size && Bares(cache[k].ivals) == Bares(files[k].lines)
    }

    predicate OpenFits(l: map<Key, int>)
      reads this
    {
      open.Keys == l.Keys && forall k :: k in open ==> open[k].startMs == l[k]
    }

    ghost predicate ListsFit()
      reads this
    {
      forall k :: Kept(k) == Filed(zone, ledger.closed, k)
    }

    ghost predicate Valid()
      reads this
    {
      CacheFits() && OpenFits(ledger.open) && ListsFit()
    }

    constructor (disk: bool, zoneOffset: int)
      ensures Valid() && ledger == EMPTY && onDisk == disk && zone == zoneOffset
    {
      onDisk, zone := disk, zoneOffset;
      open, cache, files, ledger := map[], map[], map[], EMPTY;
    }

    /** Appends to one day's list, and forgets what was cached of it. */
    method FileInterval(k: DayKey, iv: Interval, now: int, length: nat)
      requires CacheFits()
      modifies this`cache, this`files
      ensures CacheFits()
      ensures Stored(k) == old(Stored(k)) + [iv]
      ensures forall j :: j != k ==> Stored(j) == old(Stored(j))
    {
      if onDisk {
        var before := if k in files then files[k] else File([], now, 0);
        files := files[k := File(before.lines + [iv], now, before.size + length)];
        cache := cache - {k};
      } else {
        var c := Cached(k);
        cache := cache[k := c.(ivals := c.ivals + [iv])];
      }
    }

    /** Files on the day it starts and, if that is another one, on the day it ends. */
    method FileOnDays(c: Closing, iv: Interval, now: int, length: nat)
      requires CacheFits()
      modifies this`cache, this`files
      ensures CacheFits()
      ensures forall k :: Stored(k) == if FiledOn(zone, c, k) then old(Stored(k)) + [iv] else old(Stored(k))
    {
      var startDay, endDay := Day(zone, Sec(c.startMs)), Day(zone, Sec(c.endMs));
      FileInterval(DayKey(c.key.stream, startDay), iv, now, length);
      if endDay != startDay {
        FileInterval(DayKey(c.key.stream, endDay), iv, now, length);
      }
    }

    method CloseInterval(key: Key, startMs: int, endMs: int, plate: string, now: int, length: nat)
      requires CacheFits() && ListsFit()
      modifies this`cache, this`files, this`ledger
      ensures CacheFits() && ListsFit()
      ensures ledger == old(ledger).(closed := old(ledger).closed + [Closing(key, startMs, endMs)])
      ensures var c := Closing(key, startMs, endMs);
              forall k :: Stored(k) ==
                if FiledOn(zone, c, k) then old(Stored(k)) + [IntervalOf(c, plate)] else old(Stored(k))
    {
      hide Filed, FiledOn, Bares;
      var c := Closing(key, startMs, endMs);
      FileOnDays(c, Interval(startMs / 1000, endMs / 1000, key.kind, plate), now, length);
      ledger := ledger.(closed := ledger.closed + [c]);
      forall k
        ensures Kept(k) == Filed(zone, ledger.closed, k)
      {
        assert old(Kept(k)) == Filed(zone, old(ledger).closed, k);
        OneMoreFiled(zone, old(ledger).closed, c, k, old(Stored(k)), plate);
      }
    }

    method Add(e: Edge, now: int, length: nat)
      requires Valid()
      modifies this
      ensures Valid() && ledger == Enter(old(ledger), e)
      ensures forall k :: Stored(k) ==
                if Closes(old(ledger), e).Some? && FiledOn(zone, Closes(old(ledger), e).value, k)
                then old(Stored(k)) + [IntervalOf(Closes(old(ledger), e).value, old(open)[e.key].plate)]
                else old(Stored(k))
    {
      if e.key.stream == "" || e.key.kind == "" || e.tsMs <= 0 {
        return;
      }
      if e.active {
        ledger := ledger.(open := ledger.open[e.key := e.tsMs]);
        if e.key in open {
          var cur := open[e.key];
          open := open[e.key := OpenInterval(e.tsMs, "")];
          CloseInterval(e.key, cur.startMs, cur.startMs + MAX_EVENT_MS, cur.plate, now, length);
          return;
        }
        open := open[e.key := OpenInterval(e.tsMs, "")];
        return;
      }
      ledger := ledger.(open := ledger.open - {e.key});
      if e.key in open {
        var cur := open[e.key];
        open := open - {e.key};
        var end := e.tsMs;
        if end > cur.startMs + MAX_EVENT_MS {
          end := cur.startMs + MAX_EVENT_MS;
        }
        CloseInterval(e.key, cur.startMs, end, cur.plate, now, length);
      }
    }

    /**
     A plate read late is noted on an open event of that start, or else on the latest interval in
     memory that began in that second; the intervals stay what they are.
     */
    method UpdateOpenPlate(stream: string, tsMs: int, plate: string)
      requires Valid()
      modifies this`open, this`cache
      ensures Valid() && ledger == old(ledger)
      ensures (exists k :: k in old(open) && k.stream == stream && old(open)[k].startMs == tsMs) ==>
                cache == old(cache) &&
                exists k :: k in old(open) && k.stream == stream && old(open)[k].startMs == tsMs &&
                            open == old(open)[k := OpenInterval(tsMs, plate)]
      ensures !(exists k :: k in old(open) && k.stream == stream && old(open)[k].startMs == tsMs) ==>
                var key := DayKey(stream, Day(zone, Sec(tsMs)));
                && open == old(open)
                && cache == if key in old(cache)
                            then old(cache)[key := old(cache)[key].(ivals := NoteLast(old(cache)[key].ivals, Sec(tsMs), plate))]
                            else old(cache)
    {
      var found := NoteOnOpen(stream, tsMs, plate);
      assert forall j :: Stored(j) == old(Stored(j));
      if found {
        return;
      }
      var key := DayKey(stream, Day(zone, Sec(tsMs)));
      if key in cache {
        NoteInCache(key, Sec(tsMs), plate);
      }
    }

    method NoteOnOpen(stream: string, tsMs: int, plate: string) returns (found: bool)
      modifies this`open
      ensures !found ==> open == old(open) && forall k :: k in open ==> !(k.stream == stream && open[k].startMs == tsMs)
      ensures found ==>
                exists k :: k in old(open) && k.stream == stream && old(open)[k].startMs == tsMs &&
                            open == old(open)[k := OpenInterval(tsMs, plate)]
    {
      var left := open.Keys;
      while left != {}
        invariant left <= open.Keys && open == old(open)
        invariant forall k :: k in open && k !in left ==> !(k.stream == stream && open[k].startMs == tsMs)
        decreases |left|
      {
        var k :| k in left;
        if k.stream == stream && open[k].startMs == tsMs {
          open := open[k := open[k].(plate := plate)];
          return true;
        }
        left := left - {k};
      }
      return false;
    }

    method NoteInCache(key: DayKey, sec: int, plate: string)
      requires Valid() && key in cache
      modifies this`cache
      ensures Valid()
      ensures cache == old(cache)[key := old(cache)[key].(ivals := NoteLast(old(cache)[key].ivals, sec, plate))]
    {
      var c := cache[key];
      var noted := NotePlate(c.ivals, sec, plate);
      cache := cache[key := c.(ivals := noted)];
      forall k
        ensures Kept(k) == old(Kept(k))
      {
      }
    }

    static method NotePlate(ivals: seq<Interval>, sec: int, plate: string) returns (noted: seq<Interval>)
      ensures noted == NoteLast(ivals, sec, plate) && Bares(noted) == Bares(ivals)
    {
      var i := |ivals|;
      assert ivals[..i] == ivals && ivals[i..] == [];
      while i > 0
        invariant 0 <= i <= |ivals|
        invariant NoteLast(ivals, sec, plate) == NoteLast(ivals[..i], sec, plate) + ivals[i..]
      {
        i := i - 1;
        assert ivals[..i + 1][..i] == ivals[..i];
        if ivals[i].start == sec {
          noted := ivals[i := ivals[i].(plate := plate)];
          assert ivals[..i + 1][i := ivals[i].(plate := plate)] + ivals[i + 1..] == noted;
          return;
        }
        assert NoteLast(ivals[..i], sec, plate) + [ivals[i]] + ivals[i + 1..] ==
               NoteLast(ivals[..i], sec, plate) + ivals[i..];
      }
      return ivals;
    }

    /** The intervals of one stream and day. */
    method EventsForDay(stream: string, day: int) returns (ivals: seq<Interval>)
      requires Valid()
      modifies this`cache
      ensures Valid() && ledger == old(ledger)
      ensures Bares(ivals) == Filed(zone, ledger.closed, DayKey(stream, day))
      ensures var k := DayKey(stream, day); ivals == if k in old(cache) then old(cache)[k].ivals else Stored(k)
    {
      var k := DayKey(stream, day);
      assert Kept(k) == Filed(zone, ledger.closed, k);
      if !onDisk {
        return Cached(k).ivals;
      }
      if k !in files {
        return [];
      }
      var info := files[k];
      if k in cache && cache[k].mtime == info.mtime && cache[k].size == info.size {
        return cache[k].ivals;
      }
      cache := cache[k := DayCache(info.mtime, info.size, info.lines)];
      return info.lines;
    }

    method Overlaps(stream: string, start: int, end: int) returns (hit: bool)
      requires Valid()
      modifies this`cache
      ensures Valid() && ledger == old(ledger)
      ensures hit == FoundOverlap(zone, ledger.closed, stream, start, end)
    {
      var days := DaysSpanned(zone, start, end);
      for d := 0 to |days|
        invariant Valid() && ledger == old(ledger)
        invariant forall c :: 0 <= c < d ==> !HitOn(Filed(zone, ledger.closed, DayKey(stream, days[c])), start, end)
      {
        var ivals := EventsForDay(stream, days[d]);
        ghost var list := Filed(zone, ledger.closed, DayKey(stream, days[d]));
        for i := 0 to |ivals|
          invariant forall j :: 0 <= j < i ==> !Hits(list[j], start, end)
        {
          assert list[i] == BareInterval(ivals[i]);
          if ivals[i].start < end && ivals[i].end > start {
            assert HitOn(list, start, end);
            return true;
          }
        }
      }
      return false;
    }

    /** One request; a list is given if it asks for one. */
    method Serve(r: Request) returns (lists: seq<seq<Interval>>)
      requires Valid()
      modifies this
      ensures Valid() && ledger == Accept(old(ledger), r)
      ensures Answer(lists, AnswerTo(zone, old(ledger), r))
    {
      lists := [];
      match r
      case Add(e, now, length) => Add(e, now, length);
      case Look(stream, day) =>
        var ivals := EventsForDay(stream, day);
        lists := [ivals];
      case Plate(stream, tsMs, plate) => UpdateOpenPlate(stream, tsMs, plate);
    }
  }

  /** What has been accepted once these requests are served. */
  function LedgerAfter(l: Ledger, requests: seq<Request>): Ledger {
    if requests == [] then l
    else Accept(LedgerAfter(l, requests[..|requests| - 1]), requests[|requests| - 1])
  }

  /** The lists asked for, each as the edges accepted until then determine it. */
  function Answers(zone: int, l: Ledger, requests: seq<Request>): seq<seq<Bare>> {
    if requests == [] then []
    else
      var front := requests[..|requests| - 1];
      Answers(zone, l, front) + AnswerTo(zone, LedgerAfter(l, front), requests[|requests| - 1])
  }

  lemma AnswerAppend(lists: seq<seq<Interval>>, answers: seq<seq<Bare>>, more: seq<seq<Interval>>, further: seq<seq<Bare>>)
    requires Answer(lists, answers) && Answer(more, further)
    ensures Answer(lists + more, answers + further)
  {
  }

  /**
   A store on disk, with its cache, and one in memory only: given the same requests both give,
   plates apart, the lists that the accepted edges determine.
   */
  method SameAnswers(disk: EventStore, memory: EventStore, requests: seq<Request>)
    returns (fromDisk: seq<seq<Interval>>, fromMemory: seq<seq<Interval>>)
    requires disk != memory && disk.onDisk && !memory.onDisk && disk.zone == memory.zone
    requires disk.Valid() && memory.Valid() && disk.ledger == memory.ledger
    modifies disk, memory
    ensures disk.Valid() && memory.Valid()
    ensures disk.ledger == memory.ledger == LedgerAfter(old(disk.ledger), requests)
    ensures Answer(fromDisk, Answers(disk.zone, old(disk.ledger), requests))
    ensures Answer(fromMemory, Answers(disk.zone, old(disk.ledger), requests))
  {
    fromDisk, fromMemory := [], [];
    for i := 0 to |requests|
      invariant disk.Valid() && memory.Valid()
      invariant disk.ledger == memory.ledger == LedgerAfter(old(disk.ledger), requests[..i])
      invariant Answer(fromDisk, Answers(disk.zone, old(disk.ledger), requests[..i]))
      invariant Answer(fromMemory, Answers(disk.zone, old(disk.ledger), requests[..i]))
    {
      assert requests[..i + 1][..i] == requests[..i];
      ghost var answers, next := Answers(disk.zone, old(disk.ledger), requests[..i]), AnswerTo(disk.zone, disk.ledger, requests[i]);
      var a := disk.Serve(requests[i]);
      var b := memory.Serve(requests[i]);
      AnswerAppend(fromDisk, answers, a, next);
      AnswerAppend(fromMemory, answers, b, next);
      fromDisk, fromMemory := fromDisk + a, fromMemory + b;
    }
    assert requests[..|requests|] == requests;
  }
}
