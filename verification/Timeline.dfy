/**
 The timeline of one channel: its recordings and its clustered events in a range of time,
 put together from the index of recordings, the event store and the clustering.
 */
module Timeline {
  import Sorting
  import Recordings
  import opened Days
  import opened EventStore
  import opened Clustering

  const TIMELINE_GAP := 25

  datatype Mark = Mark(start: int, end: int, kind: string)

  function SpanOfBare(stream: string, b: Bare): Span {
    Span(stream, b.kind, b.start, b.end)
  }

  function SpanOfMark(stream: string, m: Mark): Span {
    Span(stream, m.kind, m.start, m.end)
  }

  /** The closed intervals of the stream that overlap the range, wherever they are filed. */
  function EventsIn(closed: seq<Closing>, stream: string, start: int, end: int): set<Span> {
    set c | c in closed && c.key.stream == stream && Hits(BareOf(c), start, end) :: SpanOfBare(stream, BareOf(c))
  }

  // ---------------------------------------------------------------- what the days hold

  /** Some interval of the list overlaps the range and is this one. */
  ghost predicate HitIn(stream: string, list: seq<Bare>, start: int, end: int, x: Span) {
    exists b :: b in list && Hits(b, start, end) && SpanOfBare(stream, b) == x
  }

  /** The event is filed on this day and overlaps the range. */
  ghost predicate FoundOn(zone: int, closed: seq<Closing>, stream: string, start: int, end: int, day: int, x: Span) {
    HitIn(stream, Filed(zone, closed, DayKey(stream, day)), start, end, x)
  }

  /** What overlaps a range is filed on one of its days, however long the range is. */
  lemma HitIsFiledInRange(zone: int, c: Closing, start: int, end: int) returns (day: int)
    requires c.endMs <= c.startMs + MAX_EVENT_MS && Hits(BareOf(c), start, end) && start < end
    ensures Day(zone, start) <= day <= Day(zone, end) && FiledOn(zone, c, DayKey(c.key.stream, day))
  {
    var s, e := Sec(c.startMs), Sec(c.endMs);
    DayIsMonotone(zone, s, end);
    DayIsMonotone(zone, start, e);
    DayIsMonotone(zone, start, end);
    if s <= e { DayIsMonotone(zone, s, e); } else { DayIsMonotone(zone, e, s); }
    day := if Day(zone, start) <= Day(zone, s) then Day(zone, s) else Day(zone, e);
  }

  lemma FoundIsAnEvent(zone: int, closed: seq<Closing>, stream: string, start: int, end: int, day: int, x: Span)
    requires FoundOn(zone, closed, stream, start, end, day, x)
    ensures x in EventsIn(closed, stream, start, end)
  {
    var b :| b in Filed(zone, closed, DayKey(stream, day)) && Hits(b, start, end) && SpanOfBare(stream, b) == x;
    InFiled(zone, closed, DayKey(stream, day), b);
    var i :| 0 <= i < |closed| && FiledOn(zone, closed[i], DayKey(stream, day)) && BareOf(closed[i]) == b;
    assert closed[i] in closed;
  }

  lemma EventIsFound(zone: int, closed: seq<Closing>, stream: string, start: int, end: int, x: Span) returns (day: int)
    requires Bounded(closed) && start < end && x in EventsIn(closed, stream, start, end)
    ensures Day(zone, start) <= day <= Day(zone, end) && FoundOn(zone, closed, stream, start, end, day, x)
  {
    var c :| c in closed && c.key.stream == stream && Hits(BareOf(c), start, end) && SpanOfBare(stream, BareOf(c)) == x;
    var i :| 0 <= i < |closed| && closed[i] == c;
    day := HitIsFiledInRange(zone, c, start, end);
    InFiled(zone, closed, DayKey(stream, day), BareOf(c));
  }

  /** The events gathered from the first days of the range. */
  ghost predicate GatheredFrom(zone: int, closed: seq<Closing>, stream: string, start: int, end: int, until: int, spans: set<Span>) {
    forall x {:trigger x in spans} ::
      x in spans <==> exists day :: Day(zone, start) <= day < until && FoundOn(zone, closed, stream, start, end, day, x)
  }

  /** The days of the range hold exactly the events that overlap it, those filed twice once. */
  lemma GatheredIsExact(zone: int, closed: seq<Closing>, stream: string, start: int, end: int, spans: set<Span>)
    requires Bounded(closed) && start < end && GatheredFrom(zone, closed, stream, start, end, Day(zone, end) + 1, spans)
    ensures spans == EventsIn(closed, stream, start, end)
  {
    forall x
      ensures x in spans <==> x in EventsIn(closed, stream, start, end)
    {
      if x in spans {
        var day :| Day(zone, start) <= day < Day(zone, end) + 1 && FoundOn(zone, closed, stream, start, end, day, x);
        FoundIsAnEvent(zone, closed, stream, start, end, day, x);
      }
      if x in EventsIn(closed, stream, start, end) {
        var day := EventIsFound(zone, closed, stream, start, end, x);
      }
    }
  }

  lemma GatherNext(zone: int, closed: seq<Closing>, stream: string, start: int, end: int, day: int, spans: set<Span>, more: set<Span>)
    requires Day(zone, start) <= day && GatheredFrom(zone, closed, stream, start, end, day, spans)
    requires forall x {:trigger x in more} :: x in more <==> FoundOn(zone, closed, stream, start, end, day, x)
    ensures GatheredFrom(zone, closed, stream, start, end, day + 1, spans + more)
  {
    hide FoundOn;
    forall x
      ensures x in spans + more <==>
                exists d :: Day(zone, start) <= d < day + 1 && FoundOn(zone, closed, stream, start, end, d, x)
    {
      if x in spans {
        var d :| Day(zone, start) <= d < day && FoundOn(zone, closed, stream, start, end, d, x);
      }
    }
  }

  // ---------------------------------------------------------------- the marks

  /** The marks are the clusters of the events in the range, each once, in the order of their starts; no event is in none. */
  ghost predicate IsMarked(events: set<Span>, stream: string, marks: seq<Mark>) {
    && Sorting.Ordered(marks, (m: Mark) => m.start)
    && (forall i, j :: 0 <= i < j < |marks| ==> marks[i] != marks[j])
    && (forall m {:trigger m in marks} :: m in marks <==> Shown(events, TIMELINE_GAP, SpanOfMark(stream, m)))
    && (forall x {:trigger Homed(events, TIMELINE_GAP, x)} :: x in events ==> Homed(events, TIMELINE_GAP, x))
  }

  lemma HitInSnoc(stream: string, list: seq<Bare>, b: Bare, start: int, end: int, x: Span)
    ensures HitIn(stream, list + [b], start, end, x) <==>
            HitIn(stream, list, start, end, x) || (Hits(b, start, end) && SpanOfBare(stream, b) == x)
  {
    if HitIn(stream, list, start, end, x) {
      var c :| c in list && Hits(c, start, end) && SpanOfBare(stream, c) == x;
      assert c in list + [b];
    }
    assert b in list + [b];
  }

  method PickHits(stream: string, ivals: seq<Interval>, start: int, end: int) returns (items: seq<Item>)
    ensures forall x :: x in Spans(items) <==> HitIn(stream, Bares(ivals), start, end, x)
  {
    items := [];
    for i := 0 to |ivals|
      invariant forall x :: x in Spans(items) <==> HitIn(stream, Bares(ivals[..i]), start, end, x)
    {
      var iv := ivals[i];
      BaresSnoc(ivals[..i], iv);
      assert ivals[..i + 1] == ivals[..i] + [iv];
      ghost var list := Bares(ivals[..i]);
      forall x
        ensures HitIn(stream, Bares(ivals[..i + 1]), start, end, x) <==>
                HitIn(stream, list, start, end, x) || (Hits(BareInterval(iv), start, end) && SpanOfBare(stream, BareInterval(iv)) == x)
      {
        HitInSnoc(stream, list, BareInterval(iv), start, end, x);
      }
      if iv.start < end && iv.end > start {
        SpansSnoc(items, Item(stream, 0, "", iv.kind, iv.start, iv.end, ""));
        items := items + [Item(stream, 0, "", iv.kind, iv.start, iv.end, "")];
      }
    }
    assert ivals[..|ivals|] == ivals;
  }

  /** What the days of the range hold, as the loops over them gather it. */
  method GatherItems(store: EventStore, stream: string, start: int, end: int) returns (items: seq<Item>)
    requires store.Valid() && start < end && Bounded(store.ledger.closed)
    modifies store`cache
    ensures store.Valid() && store.ledger == old(store.ledger)
    ensures Spans(items) == EventsIn(store.ledger.closed, stream, start, end)
  {
    items := [];
    var zone := store.zone;
    ghost var closed := store.ledger.closed;
    var days := Recordings.DaysInRange(zone, start, end);
    for k := 0 to |days|
      invariant store.Valid() && store.ledger == old(store.ledger)
      invariant GatheredFrom(zone, closed, stream, start, end, Day(zone, start) + k, Spans(items))
    {
      var ivals := store.EventsForDay(stream, days[k]);
      var more := PickHits(stream, ivals, start, end);
      GatherNext(zone, closed, stream, start, end, days[k], Spans(items), Spans(more));
      SpansOfSum(items, more);
      items := items + more;
    }
    GatheredIsExact(zone, closed, stream, start, end, Spans(items));
  }

  lemma SpansOfSum(a: seq<Item>, b: seq<Item>)
    ensures Spans(a + b) == Spans(a) + Spans(b)
  {
    assert forall x :: x in a + b <==> x in a || x in b;
  }

  // ---------------------------------------------------------------- from clusters to marks

  function MarkOf(it: Item): Mark {
    Mark(it.start, it.end, it.kind)
  }

  function MarksOf(items: seq<Item>): (marks: seq<Mark>)
    ensures |marks| == |items|
  {
    seq(|items|, i requires 0 <= i < |items| => MarkOf(items[i]))
  }

  /** Nothing but the stream's own clusters comes about. */
  lemma ShownIsOfStream(closed: seq<Closing>, stream: string, start: int, end: int, m: Span)
    requires Shown(EventsIn(closed, stream, start, end), TIMELINE_GAP, m)
    ensures m.stream == stream
  {
    var x :| x in EventsIn(closed, stream, start, end) && SameKey(x, m) && x.start == m.start;
  }

  lemma MarksAreClusters(closed: seq<Closing>, stream: string, start: int, end: int, out: seq<Item>, sorted: seq<Mark>)
    requires ClusteringOf(EventsIn(closed, stream, start, end), TIMELINE_GAP, out)
    requires Sorting.Ordered(sorted, (m: Mark) => m.start) && multiset(sorted) == multiset(MarksOf(out))
    ensures IsMarked(EventsIn(closed, stream, start, end), stream, sorted)
  {
    var events := EventsIn(closed, stream, start, end);
    forall it | it in out
      ensures SpanOfMark(stream, MarkOf(it)) == SpanOf(it) && Shown(events, TIMELINE_GAP, SpanOf(it))
    {
      ShownIsIn(events, TIMELINE_GAP, out, SpanOf(it));
      ShownIsOfStream(closed, stream, start, end, SpanOf(it));
    }
    hide Shown, EventsIn;
    forall i, j | 0 <= i < j < |sorted|
      ensures sorted[i] != sorted[j]
    {
      var a, b := Sorting.TwoOf(MarksOf(out), sorted, i, j);
      assert out[a] in out && out[b] in out;
    }
    forall m
      ensures m in sorted <==> Shown(events, TIMELINE_GAP, SpanOfMark(stream, m))
    {
      assert m in sorted <==> m in multiset(MarksOf(out));
      if m in MarksOf(out) {
        var i :| 0 <= i < |out| && MarksOf(out)[i] == m;
        assert out[i] in out;
      }
      if Shown(events, TIMELINE_GAP, SpanOfMark(stream, m)) {
        ShownIsIn(events, TIMELINE_GAP, out, SpanOfMark(stream, m));
        var it :| it in out && SpanOf(it) == SpanOfMark(stream, m);
        var i :| 0 <= i < |out| && out[i] == it;
        assert MarksOf(out)[i] == m;
      }
    }
  }

  /** The events' half of the timeline. */
  method MarksFor(store: EventStore, stream: string, start: int, end: int) returns (marks: seq<Mark>)
    requires store.Valid() && start < end && Bounded(store.ledger.closed)
    modifies store`cache
    ensures store.Valid() && store.ledger == old(store.ledger)
    ensures Sensible(EventsIn(store.ledger.closed, stream, start, end)) ==>
              IsMarked(EventsIn(store.ledger.closed, stream, start, end), stream, marks)
  {
    ghost var closed := store.ledger.closed;
    var items := GatherItems(store, stream, start, end);
    hide EventsIn, ClusteringOf, IsMarked;
    var out, order := ClusterEventItems(items, TIMELINE_GAP);
    marks := [];
    for i := 0 to |out|
      invariant marks == MarksOf(out[..i])
    {
      assert out[..i + 1] == out[..i] + [out[i]];
      marks := marks + [Mark(out[i].start, out[i].end, out[i].kind)];
    }
    assert out[..|out|] == out;
    marks := Sorting.SortBy(marks, (m: Mark) => m.start);
    if Sensible(EventsIn(closed, stream, start, end)) {
      MarksAreClusters(closed, stream, start, end, out, marks);
    }
  }

  /**
   The timeline of a stream over a range. Whatever its length: if none of the events in it ends
   before it starts, the marks are the clusters of exactly the closed intervals of the stream
   that overlap the range, those filed on two days counted once; and the recordings are those
   of the full lookup.
   */
  method TimelineFor(rec: Recordings.Recorder?, store: EventStore?, ghost edges: seq<Edge>, stream: string, start: int, end: int)
    returns (segments: seq<Recordings.Segment>, marks: seq<Mark>)
    requires rec != null ==> rec.Valid()
    requires store != null ==> store.Valid() && store.ledger == EnterAll(edges)
    modifies if rec != null then {rec} else {}, if store != null then {store} else {}
    ensures rec == null ==> segments == []
    ensures rec != null ==>
              && rec.Valid() && rec.dirs == old(rec.dirs)
              && Recordings.IsExport(Recordings.Files(rec.Dir(stream).entries), Recordings.Nominal(rec.segSecs), start, end, segments)
    ensures store != null ==> store.Valid() && store.ledger == EnterAll(edges)
    ensures store == null || end <= start ==> marks == []
    ensures store != null && start < end && Sensible(EventsIn(EnterAll(edges).closed, stream, start, end)) ==>
              IsMarked(EventsIn(EnterAll(edges).closed, stream, start, end), stream, marks)
  {
    segments, marks := [], [];
    hide EventsIn, Sensible, IsMarked;
    if rec != null {
      segments := rec.SegmentsForExport(stream, start, end);
    }
    if store != null && start < end {
      ClosedAreBounded(edges);
      marks := MarksFor(store, stream, start, end);
    }
  }

  // ---------------------------------------------------------------- what follows

  /** The times of each key's edges never go back. */
  predicate InOrder(edges: seq<Edge>) {
    forall i, j :: 0 <= i <= j < |edges| && edges[i].key == edges[j].key ==> edges[i].tsMs <= edges[j].tsMs
  }

  /** A key that is open was opened by an edge of its own. */
  lemma {:induction false} OpenedByAnEdge(edges: seq<Edge>, key: Key)
    requires key in EnterAll(edges).open
    ensures exists i :: 0 <= i < |edges| && edges[i].key == key && edges[i].tsMs == EnterAll(edges).open[key]
    decreases |edges|
  {
    var n := |edges| - 1;
    if edges[n].key != key || Rejected(edges[n]) {
      OpenedByAnEdge(edges[..n], key);
      var i :| 0 <= i < n && edges[..n][i].key == key && edges[..n][i].tsMs == EnterAll(edges).open[key];
      assert edges[i].key == key;
    }
  }

  /** Edges in order close no interval before it starts. */
  lemma InOrderIsSensible(edges: seq<Edge>, stream: string, start: int, end: int)
    requires InOrder(edges)
    ensures Sensible(EventsIn(EnterAll(edges).closed, stream, start, end))
  {
    NoneEndsBeforeItStarts(edges);
  }

  lemma {:induction false} NoneEndsBeforeItStarts(edges: seq<Edge>)
    requires InOrder(edges)
    ensures forall c :: c in EnterAll(edges).closed ==> c.startMs <= c.endMs
    decreases |edges|
  {
    if edges != [] {
      var front, e := edges[..|edges| - 1], edges[|edges| - 1];
      NoneEndsBeforeItStarts(front);
      if e.key in EnterAll(front).open {
        OpenedByAnEdge(front, e.key);
        var i :| 0 <= i < |front| && front[i].key == e.key && front[i].tsMs == EnterAll(front).open[e.key];
        assert edges[i] == front[i];
      }
    }
  }

  /** Every event in the range that is not motion is within exactly one mark of its kind. */
  lemma EveryEventIsMarked(closed: seq<Closing>, stream: string, start: int, end: int, marks: seq<Mark>, i: nat) returns (m: Mark)
    requires Sensible(EventsIn(closed, stream, start, end)) && IsMarked(EventsIn(closed, stream, start, end), stream, marks)
    requires i < |closed| && closed[i].key.stream == stream && Hits(BareOf(closed[i]), start, end) && closed[i].key.kind != MOTION
    ensures m in marks && m.kind == closed[i].key.kind && m.start <= Sec(closed[i].startMs) && Sec(closed[i].endMs) <= m.end
    ensures forall n :: n in marks && n.kind == m.kind && n != m ==> n.end + TIMELINE_GAP < m.start || m.end + TIMELINE_GAP < n.start
  {
    var events, x := EventsIn(closed, stream, start, end), SpanOfBare(stream, BareOf(closed[i]));
    assert x in events && Homed(events, TIMELINE_GAP, x);
    var c :| IsCluster(events, TIMELINE_GAP, c) && Covers(c, x);
    m := Mark(c.start, c.end, c.kind);
    assert SpanOfMark(stream, m) == c;
    forall n | n in marks && n.kind == m.kind && n != m
      ensures n.end + TIMELINE_GAP < m.start || m.end + TIMELINE_GAP < n.start
    {
      ClustersAreApart(events, TIMELINE_GAP, SpanOfMark(stream, n), c);
    }
  }
}
