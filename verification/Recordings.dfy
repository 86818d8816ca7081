/** Looking up recordings by time: the cached day index, and the lookup that reads only the days around a range. */
module Recordings {
  import opened Bytes
  import opened Days
  import opened Sorting

  const REC_SEG_SECONDS := 300
  const INDEX_CAP := 1024

  /** A directory entry whose name is a recording's; the name is the local form of the start. */
  datatype Entry = Entry(start: int, isDir: bool, size: int)

  datatype Segment = Segment(start: int, dur: int, size: int)

  function Nominal(segSecs: int): (n: int)
    ensures n >= 1
  {
    if segSecs <= 0 then REC_SEG_SECONDS else segSecs
  }

  // ---------------------------------------------------------------- what a lookup means

  /** From `s` to the next start, within the nominal length. */
  function GapFrom(starts: set<int>, nominal: int, s: int, d: int): (r: int)
    requires 1 <= d <= nominal
    ensures d <= r <= nominal
    decreases nominal - d
  {
    if d == nominal || s + d in starts then d else GapFrom(starts, nominal, s, d + 1)
  }

  /** How long the recording that starts at `s` lasts, among all that start at `starts`. */
  function DurOf(starts: set<int>, nominal: int, s: int): (r: int)
    requires nominal >= 1
    ensures 1 <= r <= nominal
  {
    GapFrom(starts, nominal, s, 1)
  }

  /** The start times of all recordings, other than directories named like one. */
  function Files(entries: seq<Entry>): set<int> {
    set e | e in entries && !e.isDir :: e.start
  }

  predicate Strict(segs: seq<Segment>) {
    forall i, j :: 0 <= i < j < |segs| ==> segs[i].start < segs[j].start
  }

  predicate Overlaps(s: Segment, start: int, end: int) {
    s.start < end && s.start + s.dur > start
  }

  /** The full lookup: durations over all recordings there are, and then those that overlap the range. */
  ghost predicate IsExport(files: set<int>, nominal: int, start: int, end: int, out: seq<Segment>)
    requires nominal >= 1
  {
    && Strict(out)
    && forall s :: s in out <==>
         start < end && s.start in files && s.dur == DurOf(files, nominal, s.start) && s.size == 0 && Overlaps(s, start, end)
  }

  lemma {:induction false} GapIs(starts: set<int>, nominal: int, s: int, d: int, r: int)
    requires 1 <= d <= r <= nominal
    requires forall t :: t in starts ==> !(s + d <= t < s + r)
    requires r == nominal || s + r in starts
    ensures GapFrom(starts, nominal, s, d) == r
    decreases r - d
  {
    if d < r {
      GapIs(starts, nominal, s, d + 1, r);
    }
  }

  lemma {:induction false} GapMeaning(starts: set<int>, nominal: int, s: int, d: int, t: int)
    requires 1 <= d <= nominal && t in starts && t >= s + d
    ensures s + GapFrom(starts, nominal, s, d) <= t || GapFrom(starts, nominal, s, d) == nominal <= t - s
    decreases nominal - d
  {
    if d < nominal && s + d !in starts {
      GapMeaning(starts, nominal, s, d + 1, t);
    }
  }

  /** A recording lasts to the next start behind its own, or for the nominal length if none comes before that. */
  lemma DurOfMeans(starts: set<int>, nominal: int, s: int, d: int)
    requires nominal >= 1
    ensures DurOf(starts, nominal, s) == d <==>
            && 1 <= d <= nominal
            && (forall t :: t in starts ==> !(s < t < s + d))
            && (d == nominal || s + d in starts)
  {
    if 1 <= d <= nominal && (forall t :: t in starts ==> !(s < t < s + d)) && (d == nominal || s + d in starts) {
      GapIs(starts, nominal, s, 1, d);
    }
    GapEnds(starts, nominal, s, 1);
    forall t | t in starts && s < t < s + DurOf(starts, nominal, s)
      ensures false
    {
      EndsBeforeNext(starts, nominal, s, t);
    }
  }

  lemma {:induction false} GapEnds(starts: set<int>, nominal: int, s: int, d: int)
    requires 1 <= d <= nominal
    ensures GapFrom(starts, nominal, s, d) == nominal || s + GapFrom(starts, nominal, s, d) in starts
    decreases nominal - d
  {
    if d < nominal && s + d !in starts {
      GapEnds(starts, nominal, s, d + 1);
    }
  }

  predicate Lasts(from: int, until: int, t: int) {
    from <= t < until
  }

  /** A recording overlaps a range exactly when they have a second in common. */
  lemma OverlapsMeans(s: Segment, start: int, end: int)
    requires s.dur >= 1 && start < end
    ensures Overlaps(s, start, end) <==> exists t :: Lasts(s.start, s.start + s.dur, t) && Lasts(start, end, t)
  {
    if Overlaps(s, start, end) {
      var t := if s.start <= start then start else s.start;
      assert Lasts(s.start, s.start + s.dur, t) && Lasts(start, end, t);
    }
  }

  /** A recording ends no later than the next one starts. */
  lemma EndsBeforeNext(starts: set<int>, nominal: int, s: int, t: int)
    requires nominal >= 1 && t in starts && s < t
    ensures s + DurOf(starts, nominal, s) <= t
  {
    GapMeaning(starts, nominal, s, 1, t);
  }

  /** The result is sorted and its recordings do not overlap. */
  lemma ExportIsDisjoint(files: set<int>, nominal: int, start: int, end: int, out: seq<Segment>, i: nat, j: nat)
    requires nominal >= 1 && IsExport(files, nominal, start, end, out) && i < j < |out|
    ensures out[i].start + out[i].dur <= out[j].start
  {
    assert out[i] in out && out[j] in out;
    EndsBeforeNext(files, nominal, out[i].start, out[j].start);
  }

  lemma {:induction false} StrictAreEqual(a: seq<Segment>, b: seq<Segment>)
    requires Strict(a) && Strict(b) && forall s :: s in a <==> s in b
    ensures a == b
  {
    hide Strict;
    assert a != [] ==> a[0] in a;
    assert b != [] ==> b[0] in b;
    if a != [] && b != [] {
      SameFirst(a, b);
      RestAgrees(a, b);
      StrictAreEqual(a[1..], b[1..]);
      assert a == [a[0]] + a[1..] && b == [b[0]] + b[1..];
    }
  }

  lemma FirstIsLeast(a: seq<Segment>, b: seq<Segment>)
    requires Strict(a) && a != [] && b != [] && b[0] in a
    ensures a[0].start <= b[0].start
  {
    var i :| 0 <= i < |a| && a[i] == b[0];
  }

  lemma SameFirst(a: seq<Segment>, b: seq<Segment>)
    requires Strict(a) && Strict(b) && a != [] && b != [] && a[0] in b && b[0] in a
    ensures a[0] == b[0]
  {
    FirstIsLeast(a, b);
    FirstIsLeast(b, a);
    var i :| 0 <= i < |b| && b[i] == a[0];
  }

  lemma InRest(a: seq<Segment>, s: Segment)
    requires Strict(a) && a != []
    ensures Strict(a[1..]) && (s in a[1..] <==> s in a && s != a[0])
  {
    if s in a && s != a[0] {
      var i :| 0 <= i < |a| && a[i] == s;
      assert a[1..][i - 1] == s;
    }
  }

  lemma RestAgrees(a: seq<Segment>, b: seq<Segment>)
    requires Strict(a) && Strict(b) && a != [] && b != [] && a[0] == b[0] && forall s :: s in a <==> s in b
    ensures Strict(a[1..]) && Strict(b[1..]) && forall s :: s in a[1..] <==> s in b[1..]
  {
    InRest(a, a[0]);
    InRest(b, b[0]);
    hide Strict;
    forall s
      ensures s in a[1..] <==> s in b[1..]
    {
      InRest(a, s);
      InRest(b, s);
    }
  }

  /** The full lookup has exactly one result. */
  lemma ExportIsUnique(files: set<int>, nominal: int, start: int, end: int, a: seq<Segment>, b: seq<Segment>)
    requires nominal >= 1 && IsExport(files, nominal, start, end, a) && IsExport(files, nominal, start, end, b)
    ensures a == b
  {
    forall s
      ensures s in a <==> s in b
    {
    }
    StrictAreEqual(a, b);
  }

  // ---------------------------------------------------------------- durations from neighbours

  function StartSet(segs: seq<Segment>): set<int> {
    set s | s in segs :: s.start
  }

  /** The gap to the next entry, when it is shorter than the nominal length. */
  function DurAt(segs: seq<Segment>, nominal: int, i: nat): int
    requires i < |segs|
  {
    if i + 1 < |segs| && 0 < segs[i + 1].start - segs[i].start < nominal then segs[i + 1].start - segs[i].start else nominal
  }

  /**
   Among the entries at hand the neighbour's gap is the duration, provided that no recording
   within the nominal length is missing from them.
   */
  lemma DurAtIsDurOf(starts: set<int>, nominal: int, segs: seq<Segment>, i: nat)
    requires nominal >= 1 && Strict(segs) && i < |segs| && StartSet(segs) <= starts
    requires forall t :: t in starts && segs[i].start < t < segs[i].start + nominal ==> t in StartSet(segs)
    ensures DurAt(segs, nominal, i) == DurOf(starts, nominal, segs[i].start)
  {
    var s, r := segs[i].start, DurAt(segs, nominal, i);
    forall t | t in starts && s < t < s + nominal
      ensures t >= s + r
    {
      assert t in StartSet(segs);
      var o :| o in segs && o.start == t;
      var k :| 0 <= k < |segs| && segs[k] == o;
      assert k > i;
      assert i + 1 < k ==> segs[i + 1].start < segs[k].start;
    }
    if r < nominal {
      assert segs[i + 1] in segs;
      assert s + r in StartSet(segs);
    }
    GapIs(starts, nominal, s, 1, r);
  }

  method SetDurations(segs: seq<Segment>, nominal: int) returns (out: seq<Segment>)
    ensures |out| == |segs|
    ensures forall i :: 0 <= i < |segs| ==> out[i] == segs[i].(dur := DurAt(segs, nominal, i))
  {
    out := segs;
    for i := 0 to |segs|
      invariant |out| == |segs|
      invariant forall j :: 0 <= j < i ==> out[j] == segs[j].(dur := DurAt(segs, nominal, j))
      invariant forall j :: i <= j < |segs| ==> out[j] == segs[j]
    {
      var dur := nominal;
      if i + 1 < |segs| {
        var gap := segs[i + 1].start - segs[i].start;
        if gap > 0 && gap < nominal {
          dur := gap;
        }
      }
      out := out[i := segs[i].(dur := dur)];
    }
  }

  method SortByStart(segs: seq<Segment>) returns (sorted: seq<Segment>)
    requires forall i, j :: 0 <= i < j < |segs| ==> segs[i].start != segs[j].start
    ensures Strict(sorted) && forall s :: s in sorted <==> s in segs
  {
    var start := (s: Segment) => s.start;
    sorted := SortBy(segs, start);
    DistinctIsStrict(segs, sorted, start);
    assert forall i :: 0 <= i < |sorted| ==> start(sorted[i]) == sorted[i].start;
  }

  // ---------------------------------------------------------------- the day index

  predicate DistinctStarts(entries: seq<Entry>) {
    forall i, j :: 0 <= i < j < |entries| ==> entries[i].start != entries[j].start
  }

  predicate InDay(zone: int, e: Entry, day: int, withSize: bool) {
    Day(zone, e.start) == day && (withSize ==> !e.isDir)
  }

  function DayStarts(zone: int, entries: seq<Entry>, day: int, withSize: bool): set<int> {
    set e | e in entries && InDay(zone, e, day, withSize) :: e.start
  }

  /** One day's index: its entries in order, each lasting until the next of that day. */
  ghost predicate IsIndex(zone: int, nominal: int, entries: seq<Entry>, day: int, withSize: bool, segs: seq<Segment>)
    requires nominal >= 1
  {
    && Strict(segs)
    && forall s :: s in segs <==>
         exists e :: e in entries && InDay(zone, e, day, withSize) && s.start == e.start &&
                     s.dur == DurOf(DayStarts(zone, entries, day, withSize), nominal, e.start) &&
                     s.size == if withSize then e.size else 0
  }

  lemma IndexStarts(zone: int, nominal: int, entries: seq<Entry>, day: int, withSize: bool, segs: seq<Segment>)
    requires nominal >= 1 && IsIndex(zone, nominal, entries, day, withSize, segs)
    ensures StartSet(segs) == DayStarts(zone, entries, day, withSize)
  {
    var starts := DayStarts(zone, entries, day, withSize);
    forall t | t in starts
      ensures t in StartSet(segs)
    {
      var e :| e in entries && InDay(zone, e, day, withSize) && e.start == t;
      assert Segment(t, DurOf(starts, nominal, t), if withSize then e.size else 0) in segs;
    }
  }

  /**
   A day's index lists the recordings that begin from midnight to midnight, without directories when
   sizes are wanted; each lasts to the next one listed, or for the nominal length.
   */
  lemma IndexMeans(zone: int, nominal: int, entries: seq<Entry>, day: int, withSize: bool, segs: seq<Segment>, t: int)
    requires nominal >= 1 && IsIndex(zone, nominal, entries, day, withSize, segs)
    ensures t in StartSet(segs) <==>
            exists e :: e in entries && e.start == t && day * 86400 <= t + zone < (day + 1) * 86400 && (withSize ==> !e.isDir)
    ensures forall s :: s in segs ==>
              1 <= s.dur <= nominal && (s.dur == nominal || s.start + s.dur in StartSet(segs)) && !(s.start < t < s.start + s.dur && t in StartSet(segs))
  {
    IndexStarts(zone, nominal, entries, day, withSize, segs);
    var starts := DayStarts(zone, entries, day, withSize);
    DayIsFromMidnight(zone, t, day);
    forall s | s in segs
      ensures 1 <= s.dur <= nominal && (s.dur == nominal || s.start + s.dur in starts) && !(s.start < t < s.start + s.dur && t in starts)
    {
      DurOfMeans(starts, nominal, s.start, s.dur);
    }
  }

  /** A stream's directory; without a modification time nothing of it is cached. */
  datatype Directory = Directory(entries: seq<Entry>, mtime: Option<int>)

  datatype CacheKey = CacheKey(stream: string, day: int, withSize: bool)

  datatype CacheEntry = CacheEntry(mtime: int, segs: seq<Segment>)

  method PickDay(zone: int, entries: seq<Entry>, day: int, withSize: bool) returns (segs: seq<Segment>)
    requires DistinctStarts(entries)
    ensures forall i, j :: 0 <= i < j < |segs| ==> segs[i].start != segs[j].start
    ensures forall s :: s in segs <==>
              exists e :: e in entries && InDay(zone, e, day, withSize) && s == Segment(e.start, 0, if withSize then e.size else 0)
  {
    segs := [];
    for i := 0 to |entries|
      invariant forall i, j :: 0 <= i < j < |segs| ==> segs[i].start != segs[j].start
      invariant forall s :: s in segs <==>
                  exists k :: 0 <= k < i && InDay(zone, entries[k], day, withSize) &&
                              s == Segment(entries[k].start, 0, if withSize then entries[k].size else 0)
    {
      var e := entries[i];
      if Day(zone, e.start) == day && !(withSize && e.isDir) {
        forall j | 0 <= j < |segs|
          ensures segs[j].start != e.start
        {
          assert segs[j] in segs;
        }
        segs := segs + [Segment(e.start, 0, if withSize then e.size else 0)];
      }
    }
  }

  /** Durations over one day's sorted entries make it that day's index. */
  lemma TimedIsIndex(zone: int, nominal: int, entries: seq<Entry>, day: int, withSize: bool, sorted: seq<Segment>, segs: seq<Segment>)
    requires nominal >= 1 && DistinctStarts(entries) && Strict(sorted) && |segs| == |sorted|
    requires forall s :: s in sorted <==>
               exists e :: e in entries && InDay(zone, e, day, withSize) && s == Segment(e.start, 0, if withSize then e.size else 0)
    requires forall i :: 0 <= i < |sorted| ==> segs[i] == sorted[i].(dur := DurAt(sorted, nominal, i))
    ensures IsIndex(zone, nominal, entries, day, withSize, segs)
  {
    var starts := DayStarts(zone, entries, day, withSize);
    PickedStarts(zone, entries, day, withSize, sorted);
    forall i | 0 <= i < |segs|
      ensures segs[i] == sorted[i].(dur := DurOf(starts, nominal, sorted[i].start))
    {
      DurAtIsDurOf(starts, nominal, sorted, i);
    }
    forall s
      ensures s in segs <==>
                exists e :: e in entries && InDay(zone, e, day, withSize) && s.start == e.start &&
                            s.dur == DurOf(starts, nominal, e.start) && s.size == if withSize then e.size else 0
    {
      if s in segs {
        var i :| 0 <= i < |segs| && segs[i] == s;
        assert sorted[i] in sorted;
      }
      if e :| e in entries && InDay(zone, e, day, withSize) && s.start == e.start &&
              s.dur == DurOf(starts, nominal, e.start) && s.size == if withSize then e.size else 0 {
        assert s.(dur := 0) in sorted;
        var i :| 0 <= i < |sorted| && sorted[i] == s.(dur := 0);
        assert segs[i] == s;
      }
    }
  }

  lemma PickedStarts(zone: int, entries: seq<Entry>, day: int, withSize: bool, sorted: seq<Segment>)
    requires forall s :: s in sorted <==>
               exists e :: e in entries && InDay(zone, e, day, withSize) && s == Segment(e.start, 0, if withSize then e.size else 0)
    ensures StartSet(sorted) == DayStarts(zone, entries, day, withSize)
  {
    forall t | t in DayStarts(zone, entries, day, withSize)
      ensures t in StartSet(sorted)
    {
      var e :| e in entries && InDay(zone, e, day, withSize) && e.start == t;
      assert Segment(t, 0, if withSize then e.size else 0) in sorted;
    }
  }

  // ---------------------------------------------------------------- the range lookup

  function AllStarts(entries: seq<Entry>): set<int> {
    set e | e in entries :: e.start
  }

  /** The days that a range touches, in order. */
  method DaysInRange(zone: int, start: int, end: int) returns (days: seq<int>)
    ensures end <= start ==> days == []
    ensures end > start ==>
              && |days| == Day(zone, end) - Day(zone, start) + 1
              && forall k :: 0 <= k < |days| ==> days[k] == Day(zone, start) + k
  {
    days := [];
    if end <= start {
      return;
    }
    var day := Day(zone, start);
    while day * DAY_SECONDS - zone <= end
      invariant Day(zone, start) <= day <= Day(zone, end) + 1
      invariant |days| == day - Day(zone, start)
      invariant forall k :: 0 <= k < |days| ==> days[k] == Day(zone, start) + k
      decreases Day(zone, end) + 1 - day
    {
      days := days + [day];
      day := day + 1;
    }
  }

  /** What the day loop has gathered: all entries of the days so far. */
  ghost predicate Gathered(zone: int, entries: seq<Entry>, first: int, next: int, segs: seq<Segment>) {
    Strict(segs) && forall t :: t in StartSet(segs) <==> t in AllStarts(entries) && first <= Day(zone, t) < next
  }

  lemma GatherDay(zone: int, nominal: int, entries: seq<Entry>, first: int, day: int, segs: seq<Segment>, more: seq<Segment>)
    requires nominal >= 1 && first <= day && Gathered(zone, entries, first, day, segs)
    requires IsIndex(zone, nominal, entries, day, false, more)
    ensures Gathered(zone, entries, first, day + 1, segs + more)
  {
    IndexStarts(zone, nominal, entries, day, false, more);
    StartsOfSum(segs, more);
    forall i, j | 0 <= i < |segs| && 0 <= j < |more|
      ensures segs[i].start < more[j].start
    {
      assert segs[i].start in StartSet(segs) && more[j].start in StartSet(more);
      if segs[i].start >= more[j].start {
        DayIsMonotone(zone, more[j].start, segs[i].start);
      }
    }
    StrictSum(segs, more);
  }

  lemma StartsOfSum(a: seq<Segment>, b: seq<Segment>)
    ensures forall t :: t in StartSet(a + b) <==> t in StartSet(a) || t in StartSet(b)
  {
    forall t
      ensures t in StartSet(a + b) <==> t in StartSet(a) || t in StartSet(b)
    {
      if t in StartSet(a) {
        var s :| s in a && s.start == t;
        assert s in a + b;
      }
      if t in StartSet(b) {
        var s :| s in b && s.start == t;
        assert s in a + b;
      }
    }
  }

  lemma StrictSum(a: seq<Segment>, b: seq<Segment>)
    requires Strict(a) && Strict(b)
    requires forall i, j :: 0 <= i < |a| && 0 <= j < |b| ==> a[i].start < b[j].start
    ensures Strict(a + b)
  {
  }

  /** The files of the band: those that start within a nominal length of the range. */
  ghost predicate InBand(files: set<int>, lo: int, hi: int, segs: seq<Segment>) {
    Strict(segs) && forall t :: t in StartSet(segs) <==> t in files && lo <= t <= hi
  }

  method IsFile(entries: seq<Entry>, start: int) returns (ok: bool)
    ensures ok <==> start in Files(entries)
  {
    for i := 0 to |entries|
      invariant forall j :: 0 <= j < i ==> !(entries[j].start == start && !entries[j].isDir)
    {
      if entries[i].start == start && !entries[i].isDir {
        assert entries[i] in entries;
        return true;
      }
    }
    return false;
  }

  method KeepBand(entries: seq<Entry>, segs: seq<Segment>, lo: int, hi: int) returns (kept: seq<Segment>)
    requires Strict(segs)
    ensures Strict(kept)
    ensures forall t :: t in StartSet(kept) <==> t in StartSet(segs) && t in Files(entries) && lo <= t <= hi
    ensures forall s :: s in kept ==> s in segs
  {
    kept := [];
    for i := 0 to |segs|
      invariant Strict(kept) && forall j :: 0 <= j < |kept| && i < |segs| ==> kept[j].start < segs[i].start
      invariant forall s :: s in kept <==> s in segs[..i] && s.start in Files(entries) && lo <= s.start <= hi
    {
      assert segs[..i + 1] == segs[..i] + [segs[i]];
      if !(segs[i].start < lo || segs[i].start > hi) {
        var ok := IsFile(entries, segs[i].start);
        if ok {
          kept := kept + [segs[i]];
        }
      }
    }
    assert segs[..|segs|] == segs;
  }

  method KeepOverlaps(segs: seq<Segment>, start: int, end: int) returns (out: seq<Segment>)
    requires Strict(segs)
    ensures Strict(out)
    ensures forall s :: s in out <==> s in segs && Overlaps(s, start, end)
  {
    out := [];
    for i := 0 to |segs|
      invariant Strict(out) && forall j :: 0 <= j < |out| && i < |segs| ==> out[j].start < segs[i].start
      invariant forall s :: s in out <==> s in segs[..i] && Overlaps(s, start, end)
    {
      assert segs[..i + 1] == segs[..i] + [segs[i]];
      if segs[i].start < end && segs[i].start + segs[i].dur > start {
        out := out + [segs[i]];
      }
    }
    assert segs[..|segs|] == segs;
  }

  /** The durations of a band, set from its neighbours. */
  ghost predicate TimedBand(nominal: int, band: seq<Segment>, timed: seq<Segment>) {
    |timed| == |band| && forall i :: 0 <= i < |band| ==> timed[i] == band[i].(dur := DurAt(band, nominal, i)) && band[i].size == 0
  }

  lemma BandHasNoMore(files: set<int>, nominal: int, start: int, end: int, band: seq<Segment>, timed: seq<Segment>, s: Segment)
    requires nominal >= 1 && start < end && InBand(files, start - nominal, end + nominal, band) && TimedBand(nominal, band, timed)
    requires s in timed && Overlaps(s, start, end)
    ensures s.start in files && s.dur == DurOf(files, nominal, s.start) && s.size == 0
  {
    var i :| 0 <= i < |timed| && timed[i] == s;
    assert band[i] in band && band[i].start in StartSet(band);
    DurAtIsDurOf(files, nominal, band, i);
  }

  lemma BandHasAll(files: set<int>, nominal: int, start: int, end: int, band: seq<Segment>, timed: seq<Segment>, s: Segment)
    requires nominal >= 1 && start < end && InBand(files, start - nominal, end + nominal, band) && TimedBand(nominal, band, timed)
    requires s.start in files && s.dur == DurOf(files, nominal, s.start) && s.size == 0 && Overlaps(s, start, end)
    ensures s in timed
  {
    assert s.start in StartSet(band);
    var b :| b in band && b.start == s.start;
    var i :| 0 <= i < |band| && band[i] == b;
    DurAtIsDurOf(files, nominal, band, i);
    assert timed[i] == s;
  }

  /** The band is enough: with its durations, it gives what all recordings would give. */
  lemma BandIsEnough(files: set<int>, nominal: int, start: int, end: int, band: seq<Segment>, timed: seq<Segment>, out: seq<Segment>)
    requires nominal >= 1 && start < end
    requires InBand(files, start - nominal, end + nominal, band)
    requires forall s :: s in band ==> s.size == 0
    requires |timed| == |band| && forall i :: 0 <= i < |band| ==> timed[i] == band[i].(dur := DurAt(band, nominal, i))
    requires Strict(out) && forall s :: s in out <==> s in timed && Overlaps(s, start, end)
    ensures IsExport(files, nominal, start, end, out)
  {
    assert TimedBand(nominal, band, timed);
    hide InBand, TimedBand, DurAt, DurOf, Strict;
    forall s
      ensures s in out <==>
                s.start in files && s.dur == DurOf(files, nominal, s.start) && s.size == 0 && Overlaps(s, start, end)
    {
      if s in timed && Overlaps(s, start, end) {
        BandHasNoMore(files, nominal, start, end, band, timed, s);
      }
      if s.start in files && s.dur == DurOf(files, nominal, s.start) && s.size == 0 && Overlaps(s, start, end) {
        BandHasAll(files, nominal, start, end, band, timed, s);
      }
    }
  }

  // ---------------------------------------------------------------- the object

  class Recorder {
    const zone: int
    const segSecs: int
    var dirs: map<string, Directory>
    var segCache: map<CacheKey, CacheEntry>

    function Dir(stream: string): Directory
      reads this
    {
      if stream in dirs then dirs[stream] else Directory([], None)
    }

    /** An entry whose time is that of its directory holds that directory's index. */
    ghost predicate EntryFits(k: CacheKey, e: CacheEntry)
      reads this
    {
      var d := Dir(k.stream);
      && d.mtime.Some?
      && (e.mtime == d.mtime.value ==> IsIndex(zone, Nominal(segSecs), d.entries, k.day, k.withSize, e.segs))
    }

    ghost predicate Valid()
      reads this
    {
      && (forall stream :: stream in dirs ==> DistinctStarts(dirs[stream].entries))
      && (forall k :: k in segCache ==> EntryFits(k, segCache[k]))
      && |segCache| <= INDEX_CAP
    }

    constructor (zoneOffset: int, seconds: int)
      ensures Valid() && zone == zoneOffset && segSecs == seconds && dirs == map[]
    {
      zone, segSecs := zoneOffset, seconds;
      dirs, segCache := map[], map[];
    }

    /** No directory's time has gone back since what is cached was cached. */
    ghost predicate Forward()
      reads this
    {
      forall k :: k in segCache ==> Dir(k.stream).mtime.Some? && segCache[k].mtime <= Dir(k.stream).mtime.value
    }

    /**
     The recorder begins a new file, or one is deleted, or the clock is set. The caches are right
     exactly when those kept with the directory's new time happen to be right for the new entries
     too; if the time has moved on and never went back, they are.
     */
    method ChangeDirectory(stream: string, entries: seq<Entry>, mtime: int)
      requires Valid() && DistinctStarts(entries)
      modifies this`dirs
      ensures dirs == old(dirs)[stream := Directory(entries, Some(mtime))] && segCache == old(segCache)
      ensures Valid() <==> forall k :: k in segCache && k.stream == stream && segCache[k].mtime == mtime ==>
                IsIndex(zone, Nominal(segSecs), entries, k.day, k.withSize, segCache[k].segs)
      ensures old(Forward()) && (old(Dir(stream)).mtime.Some? ==> old(Dir(stream)).mtime.value < mtime) ==> Valid() && Forward()
    {
      dirs := dirs[stream := Directory(entries, Some(mtime))];
      forall k | k in segCache
        ensures EntryFits(k, segCache[k]) <==>
                  (k.stream == stream && segCache[k].mtime == mtime ==>
                     IsIndex(zone, Nominal(segSecs), entries, k.day, k.withSize, segCache[k].segs))
      {
        assert old(EntryFits(k, segCache[k]));
      }
    }

    /** A day's entries with their durations: from the cache if it was filled at the directory's present time. */
    method IndexedSegments(stream: string, day: int, withSize: bool) returns (segs: seq<Segment>)
      requires Valid()
      modifies this`segCache
      ensures Valid() && (old(Forward()) ==> Forward())
      ensures IsIndex(zone, Nominal(segSecs), Dir(stream).entries, day, withSize, segs)
    {
      var d := Dir(stream);
      var key := CacheKey(stream, day, withSize);
      if d.mtime.Some? && key in segCache && segCache[key].mtime == d.mtime.value {
        assert EntryFits(key, segCache[key]);
        return segCache[key].segs;
      }
      var picked := PickDay(zone, d.entries, day, withSize);
      var sorted := SortByStart(picked);
      segs := SetDurations(sorted, Nominal(segSecs));
      TimedIsIndex(zone, Nominal(segSecs), d.entries, day, withSize, sorted, segs);
      if d.mtime.Some? {
        Remember(key, CacheEntry(d.mtime.value, segs));
      }
    }

    method Remember(key: CacheKey, e: CacheEntry)
      requires Valid() && EntryFits(key, e)
      modifies this`segCache
      ensures Valid() && (old(Forward()) && Dir(key.stream).mtime == Some(e.mtime) ==> Forward())
      ensures segCache == (if |old(segCache)| >= INDEX_CAP then map[] else old(segCache))[key := e]
    {
      if |segCache| >= INDEX_CAP {
        segCache := map[];
      }
      segCache := segCache[key := e];
    }

    method GatherDays(stream: string, lo: int, hi: int) returns (segs: seq<Segment>)
      requires Valid() && lo < hi
      modifies this`segCache
      ensures Valid() && (old(Forward()) ==> Forward())
      ensures Strict(segs) && forall s :: s in segs ==> s.size == 0
      ensures forall t :: t in StartSet(segs) <==>
                t in AllStarts(Dir(stream).entries) && Day(zone, lo) <= Day(zone, t) <= Day(zone, hi)
    {
      ghost var entries := Dir(stream).entries;
      segs := [];
      var days := DaysInRange(zone, lo, hi);
      for k := 0 to |days|
        invariant Valid() && (old(Forward()) ==> Forward())
        invariant Gathered(zone, entries, Day(zone, lo), Day(zone, lo) + k, segs)
        invariant forall s :: s in segs ==> s.size == 0
      {
        var more := IndexedSegments(stream, days[k], false);
        GatherDay(zone, Nominal(segSecs), entries, Day(zone, lo), days[k], segs, more);
        segs := segs + more;
      }
    }

    /**
     Only the days around the range are read, and only entries within a nominal length of it are
     looked at; the result is that of the full lookup over all recordings.
     */
    method SegmentsForExport(stream: string, start: int, end: int) returns (out: seq<Segment>)
      requires Valid()
      modifies this`segCache
      ensures Valid() && (old(Forward()) ==> Forward())
      ensures IsExport(Files(Dir(stream).entries), Nominal(segSecs), start, end, out)
    {
      if end <= start {
        return [];
      }
      var nominal := Nominal(segSecs);
      var entries := Dir(stream).entries;
      var segs := GatherDays(stream, start - nominal, end + nominal);
      var band := KeepBand(entries, segs, start - nominal, end + nominal);
      BandIsComplete(zone, entries, start - nominal, end + nominal, segs, band);
      var timed := SetDurations(band, nominal);
      TimedIsStrict(band, timed);
      out := KeepOverlaps(timed, start, end);
      BandIsEnough(Files(entries), nominal, start, end, band, timed, out);
    }

    /** The recording that contains a moment, for a preview of it. */
    method SegmentAt(stream: string, t: int) returns (found: Option<Segment>)
      requires Valid()
      modifies this`segCache
      ensures Valid() && (old(Forward()) ==> Forward())
      ensures var files := Files(Dir(stream).entries);
              if found.Some?
              then found.value.start in files && found.value.dur == DurOf(files, Nominal(segSecs), found.value.start) &&
                   found.value.start <= t < found.value.start + found.value.dur
              else forall s :: s in files ==> !(s <= t < s + DurOf(files, Nominal(segSecs), s))
    {
      var segs := SegmentsForExport(stream, t, t + 1);
      ghost var files := Files(Dir(stream).entries);
      for i := 0 to |segs|
        invariant forall j :: 0 <= j < i ==> !(segs[j].start <= t < segs[j].start + segs[j].dur)
      {
        assert segs[i] in segs;
        if segs[i].start <= t && t < segs[i].start + segs[i].dur {
          return Some(segs[i]);
        }
      }
      forall s | s in files
        ensures !(s <= t < s + DurOf(files, Nominal(segSecs), s))
      {
        var seg := Segment(s, DurOf(files, Nominal(segSecs), s), 0);
        assert Overlaps(seg, t, t + 1) <==> s <= t < s + seg.dur;
        assert Overlaps(seg, t, t + 1) ==> seg in segs;
      }
      return None;
    }
  }

  lemma BandIsComplete(zone: int, entries: seq<Entry>, lo: int, hi: int, segs: seq<Segment>, band: seq<Segment>)
    requires Strict(band)
    requires forall t :: t in StartSet(segs) <==> t in AllStarts(entries) && Day(zone, lo) <= Day(zone, t) <= Day(zone, hi)
    requires forall t :: t in StartSet(band) <==> t in StartSet(segs) && t in Files(entries) && lo <= t <= hi
    ensures InBand(Files(entries), lo, hi, band)
  {
    forall t | t in Files(entries) && lo <= t <= hi
      ensures t in StartSet(segs)
    {
      var e :| e in entries && !e.isDir && e.start == t;
      assert t in AllStarts(entries);
      DayIsMonotone(zone, lo, t);
      DayIsMonotone(zone, t, hi);
    }
  }

  lemma TimedIsStrict(band: seq<Segment>, timed: seq<Segment>)
    requires Strict(band) && |timed| == |band|
    requires forall i :: 0 <= i < |band| ==> timed[i].start == band[i].start
    ensures Strict(timed)
  {
  }
}
