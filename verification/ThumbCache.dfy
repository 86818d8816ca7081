/** The thumbnail cache: bounded in bytes and in entries, the least recently used going first. */
module ThumbCache {
  import opened Bytes

  const CACHE_BYTES := 33554432
  const CACHE_CAP := 512
  const MAX_IMAGE := 2097152

  /** A file as it was when its image was read. */
  datatype FileInfo = FileInfo(file: int, mtime: int, size: int)

  datatype Entry = Entry(key: string, img: Blob, info: Option<FileInfo>)

  /** Most recently used first. */
  type Lru = seq<Entry>

  function TotalBytes(lru: Lru): nat {
    if lru == [] then 0 else TotalBytes(lru[..|lru| - 1]) + |lru[|lru| - 1].img|
  }

  predicate Holds(lru: Lru, key: string) {
    exists e :: e in lru && e.key == key
  }

  predicate DistinctKeys(lru: Lru) {
    lru == [] || (DistinctKeys(lru[..|lru| - 1]) && !Holds(lru[..|lru| - 1], lru[|lru| - 1].key))
  }

  predicate Fits(img: Blob) {
    0 < |img| <= MAX_IMAGE
  }

  predicate Inv(lru: Lru) {
    && DistinctKeys(lru)
    && TotalBytes(lru) <= CACHE_BYTES
    && |lru| <= CACHE_CAP
    && forall e :: e in lru ==> Fits(e.img)
  }

  function Find(lru: Lru, key: string): Option<Entry> {
    if lru == [] then None
    else if lru[|lru| - 1].key == key then Some(lru[|lru| - 1])
    else Find(lru[..|lru| - 1], key)
  }

  function Without(lru: Lru, key: string): Lru {
    if lru == [] then []
    else if lru[|lru| - 1].key == key then lru[..|lru| - 1]
    else Without(lru[..|lru| - 1], key) + [lru[|lru| - 1]]
  }

  predicate MustEvict(lru: Lru, room: nat) {
    TotalBytes(lru) + room > CACHE_BYTES || |lru| >= CACHE_CAP
  }

  /** Entries go from the back until there is room. */
  function Evict(lru: Lru, room: nat): (r: Lru)
    requires room <= CACHE_BYTES
    ensures r <= lru && !MustEvict(r, room)
    ensures |r| < |lru| ==> MustEvict(lru[..|r| + 1], room)
  {
    if !MustEvict(lru, room) then lru
    else
      var r := Evict(lru[..|lru| - 1], room);
      assert |r| < |lru| - 1 ==> lru[..|lru| - 1][..|r| + 1] == lru[..|r| + 1];
      assert lru[..|lru|] == lru;
      r
  }

  lemma EvictStep(lru: Lru, room: nat)
    requires room <= CACHE_BYTES && MustEvict(lru, room)
    ensures lru != [] && Evict(lru, room) == Evict(lru[..|lru| - 1], room)
  {
  }

  datatype Op = Put(key: string, img: Blob, info: Option<FileInfo>) | Get(key: string, info: Option<FileInfo>)

  /** Whether a lookup finds the entry and may use it. */
  predicate Hit(lru: Lru, key: string, info: Option<FileInfo>) {
    Find(lru, key).Some? && Find(lru, key).value.info == info
  }

  function Step(lru: Lru, op: Op): Lru {
    match op
    case Put(key, img, info) =>
      if !Fits(img) then lru else [Entry(key, img, info)] + Evict(Without(lru, key), |img|)
    case Get(key, info) =>
      if Hit(lru, key, info) then [Find(lru, key).value] + Without(lru, key) else Without(lru, key)
  }

  function Answer(lru: Lru, op: Op): Option<Blob> {
    if op.Get? && Hit(lru, op.key, op.info) then Some(Find(lru, op.key).value.img) else None
  }

  // ---------------------------------------------------------------- lists

  lemma InSnoc(lru: Lru, e: Entry)
    requires lru != []
    ensures e in lru <==> e in lru[..|lru| - 1] || e == lru[|lru| - 1]
  {
    assert lru == lru[..|lru| - 1] + [lru[|lru| - 1]];
  }

  lemma {:induction false} FindMeaning(lru: Lru, key: string)
    ensures Find(lru, key).Some? <==> Holds(lru, key)
    ensures Find(lru, key).Some? ==> Find(lru, key).value in lru && Find(lru, key).value.key == key
    decreases |lru|
  {
    if lru != [] {
      var front, last := lru[..|lru| - 1], lru[|lru| - 1];
      assert lru == front + [last];
      FindMeaning(front, key);
      if Holds(front, key) {
        var e :| e in front && e.key == key;
        assert e in lru;
      }
    }
  }

  lemma {:induction false} FindIsUnique(lru: Lru, e: Entry)
    requires DistinctKeys(lru) && e in lru
    ensures Find(lru, e.key) == Some(e)
    decreases |lru|
  {
    var front, last := lru[..|lru| - 1], lru[|lru| - 1];
    InSnoc(lru, e);
    if e in front {
      assert Holds(front, e.key);
      FindIsUnique(front, e);
    }
  }

  lemma {:induction false} InWithout(lru: Lru, key: string, e: Entry)
    requires DistinctKeys(lru)
    ensures e in Without(lru, key) <==> e in lru && e.key != key
    decreases |lru|
  {
    if lru != [] {
      var front, last := lru[..|lru| - 1], lru[|lru| - 1];
      InSnoc(lru, e);
      InWithout(front, key, e);
      if last.key == key && e in front {
        assert e.key == key ==> Holds(front, key);
      }
    }
  }

  lemma NotHeld(lru: Lru, key: string)
    requires DistinctKeys(lru)
    ensures forall k :: Holds(Without(lru, key), k) ==> Holds(lru, k) && k != key
  {
    forall k | Holds(Without(lru, key), k)
      ensures Holds(lru, k) && k != key
    {
      var e :| e in Without(lru, key) && e.key == k;
      InWithout(lru, key, e);
    }
  }

  lemma {:induction false} WithoutIsDistinct(lru: Lru, key: string)
    requires DistinctKeys(lru)
    ensures DistinctKeys(Without(lru, key))
    decreases |lru|
  {
    if lru != [] && lru[|lru| - 1].key != key {
      var front, last := lru[..|lru| - 1], lru[|lru| - 1];
      WithoutIsDistinct(front, key);
      NotHeld(front, key);
      assert (Without(front, key) + [last])[..|Without(front, key)|] == Without(front, key);
    }
  }

  lemma BytesSnoc(lru: Lru, e: Entry)
    ensures TotalBytes(lru + [e]) == TotalBytes(lru) + |e.img|
  {
    assert (lru + [e])[..|lru|] == lru;
  }

  lemma {:induction false} WithoutSize(lru: Lru, key: string)
    ensures |Without(lru, key)| == |lru| - if Find(lru, key).Some? then 1 else 0
    ensures TotalBytes(Without(lru, key)) == TotalBytes(lru) - if Find(lru, key).Some? then |Find(lru, key).value.img| else 0
    ensures Find(lru, key).None? ==> Without(lru, key) == lru
    decreases |lru|
  {
    if lru != [] && lru[|lru| - 1].key != key {
      var front, last := lru[..|lru| - 1], lru[|lru| - 1];
      assert lru == front + [last];
      WithoutSize(front, key);
      BytesSnoc(Without(front, key), last);
    }
  }

  lemma {:induction false} BytesOfCons(e: Entry, lru: Lru)
    ensures TotalBytes([e] + lru) == |e.img| + TotalBytes(lru)
    decreases |lru|
  {
    if lru == [] {
      assert [e] + lru == [e] && [e][..0] == [];
    } else {
      var n := |lru| - 1;
      assert ([e] + lru)[..|lru|] == [e] + lru[..n];
      BytesOfCons(e, lru[..n]);
    }
  }

  lemma {:induction false} DistinctCons(e: Entry, lru: Lru)
    requires DistinctKeys(lru) && !Holds(lru, e.key)
    ensures DistinctKeys([e] + lru)
    decreases |lru|
  {
    if lru == [] {
      assert [e] + lru == [e] && [e][..0] == [];
    } else {
      var front, last := lru[..|lru| - 1], lru[|lru| - 1];
      assert ([e] + lru)[..|lru|] == [e] + front;
      assert last in lru && forall x :: x in front ==> x in lru;
      DistinctCons(e, front);
    }
  }

  lemma {:induction false} PrefixIsDistinct(lru: Lru, n: nat)
    requires DistinctKeys(lru) && n <= |lru|
    ensures DistinctKeys(lru[..n])
    decreases |lru|
  {
    if n == |lru| {
      assert lru[..n] == lru;
    } else {
      PrefixIsDistinct(lru[..|lru| - 1], n);
      assert lru[..|lru| - 1][..n] == lru[..n];
    }
  }

  /** Every step keeps the bounds. */
  lemma StepKeepsInv(lru: Lru, op: Op)
    requires Inv(lru)
    ensures Inv(Step(lru, op))
  {
    var rest := Without(lru, op.key);
    RestKeepsInv(lru, op.key);
    match op
    case Put(key, img, info) =>
      if Fits(img) {
        var kept := Evict(rest, |img|);
        PrefixIsDistinct(rest, |kept|);
        assert kept == rest[..|kept|] && forall e :: e in kept ==> e in rest;
        FrontKeepsInv(Entry(key, img, info), kept);
      }
    case Get(key, info) =>
      if Hit(lru, key, info) {
        FindMeaning(lru, key);
        WithoutSize(lru, key);
        FrontKeepsInv(Find(lru, key).value, rest);
      }
  }

  lemma RestKeepsInv(lru: Lru, key: string)
    requires Inv(lru)
    ensures Inv(Without(lru, key)) && !Holds(Without(lru, key), key)
  {
    WithoutIsDistinct(lru, key);
    WithoutSize(lru, key);
    NotHeld(lru, key);
    forall e | e in Without(lru, key)
      ensures Fits(e.img)
    {
      InWithout(lru, key, e);
    }
  }

  lemma FrontKeepsInv(e: Entry, rest: Lru)
    requires DistinctKeys(rest) && !Holds(rest, e.key) && Fits(e.img)
    requires forall x :: x in rest ==> Fits(x.img)
    requires TotalBytes(rest) + |e.img| <= CACHE_BYTES && |rest| < CACHE_CAP
    ensures Inv([e] + rest)
  {
    DistinctCons(e, rest);
    BytesOfCons(e, rest);
  }

  // ---------------------------------------------------------------- what becomes of an entry

  /**
   An operation crowds the entry out: it stores an image under another key, and the entries that
   were used no earlier than this one leave it no room, in bytes or in number.
   */
  ghost predicate CrowdsOut(lru: Lru, op: Op, e: Entry) {
    && op.Put? && op.key != e.key && 0 < |op.img| <= 2097152
    && exists j :: 0 <= j < |Without(lru, op.key)| && Without(lru, op.key)[j] == e &&
         (TotalBytes(Without(lru, op.key)[..j + 1]) + |op.img| > 33554432 || j + 1 >= 512)
  }

  /** An operation that is not about this entry, or finds it, or stores nothing. */
  predicate Spares(op: Op, e: Entry) {
    match op
    case Put(key, img, _) => key != e.key || !(0 < |img| <= 2097152)
    case Get(key, info) => key != e.key || info == e.info
  }

  lemma {:induction false} BytesOfFront(lru: Lru, m: nat, n: nat)
    requires m <= n <= |lru|
    ensures TotalBytes(lru[..m]) <= TotalBytes(lru[..n])
    decreases n - m
  {
    if m < n {
      BytesOfFront(lru, m, n - 1);
      assert lru[..n][..n - 1] == lru[..n - 1];
    }
  }

  lemma StillNoRoom(rest: Lru, room: nat, n: nat, j: nat)
    requires n <= j < |rest| && MustEvict(rest[..n + 1], room)
    ensures TotalBytes(rest[..j + 1]) + room > CACHE_BYTES || j + 1 >= CACHE_CAP
  {
    hide TotalBytes;
    BytesOfFront(rest, n + 1, j + 1);
  }

  lemma EvictedAt(rest: Lru, room: nat, e: Entry) returns (j: nat)
    requires room <= CACHE_BYTES && e in rest && e !in Evict(rest, room)
    ensures j < |rest| && rest[j] == e && (TotalBytes(rest[..j + 1]) + room > CACHE_BYTES || j + 1 >= CACHE_CAP)
  {
    var kept := Evict(rest, room);
    hide *;
    j :| j < |rest| && rest[j] == e;
    NotInFront(rest, kept, j);
    StillNoRoom(rest, room, |kept|, j);
  }

  lemma EvictedIsCrowdedOut(lru: Lru, op: Op, e: Entry)
    requires Inv(lru) && e in lru && op.Put? && op.key != e.key && Fits(op.img)
    requires e !in Evict(Without(lru, op.key), |op.img|)
    ensures CrowdsOut(lru, op, e)
  {
    InWithout(lru, op.key, e);
    hide Inv, TotalBytes, Without, Evict;
    var j := EvictedAt(Without(lru, op.key), |op.img|, e);
  }

  lemma NotInFront(all: Lru, front: Lru, j: nat)
    requires front <= all && j < |all| && all[j] !in front
    ensures j >= |front|
  {
    assert forall x :: 0 <= x < |front| ==> front[x] == all[x] && all[x] in front;
  }

  lemma StepSpares(lru: Lru, op: Op, e: Entry)
    requires Inv(lru) && e in lru && Spares(op, e)
    ensures e in Step(lru, op) || CrowdsOut(lru, op, e)
  {
    InWithout(lru, op.key, e);
    FindIsUnique(lru, e);
    if op.Put? && op.key != e.key && Fits(op.img) && e !in Evict(Without(lru, op.key), |op.img|) {
      EvictedIsCrowdedOut(lru, op, e);
    }
  }

  // ---------------------------------------------------------------- whole histories

  function Run(history: seq<Op>): Lru {
    if history == [] then [] else Step(Run(history[..|history| - 1]), history[|history| - 1])
  }

  lemma {:induction false} RunKeepsInv(history: seq<Op>)
    ensures Inv(Run(history))
    decreases |history|
  {
    if history != [] {
      RunKeepsInv(history[..|history| - 1]);
      StepKeepsInv(Run(history[..|history| - 1]), history[|history| - 1]);
    }
  }

  lemma RunSnoc(history: seq<Op>, op: Op)
    ensures Run(history + [op]) == Step(Run(history), op)
  {
    assert (history + [op])[..|history|] == history;
    hide Step;
  }

  lemma {:induction false} StaysUntilCrowdedOut(first: seq<Op>, e: Entry, more: seq<Op>)
    requires e in Run(first)
    requires forall i :: 0 <= i < |more| ==> Spares(more[i], e)
    requires forall i :: 0 <= i < |more| ==> !CrowdsOut(Run(first + more[..i]), more[i], e)
    ensures e in Run(first + more)
    decreases |more|
  {
    hide *;
    if more == [] {
      assert first + more == first;
    } else {
      var n := |more| - 1;
      forall i | 0 <= i < n
        ensures !CrowdsOut(Run(first + more[..n][..i]), more[..n][i], e)
      {
        assert more[..n][..i] == more[..i] && more[..n][i] == more[i];
      }
      StaysUntilCrowdedOut(first, e, more[..n]);
      RunKeepsInv(first + more[..n]);
      StepSpares(Run(first + more[..n]), more[n], e);
      RunSnoc(first + more[..n], more[n]);
      assert first + more == (first + more[..n]) + [more[n]];
    }
  }

  /**
   An image of at most 2 MiB that was stored is found, by whoever asks with the same file identity,
   until it is replaced, asked for with another identity, or crowded out by more recent ones.
   */
  lemma FoundUntilCrowdedOut(history: seq<Op>, key: string, img: Blob, info: Option<FileInfo>, more: seq<Op>)
    requires 0 < |img| <= 2097152
    requires forall i :: 0 <= i < |more| ==> Spares(more[i], Entry(key, img, info))
    requires forall i :: 0 <= i < |more| ==>
               !CrowdsOut(Run(history + [Put(key, img, info)] + more[..i]), more[i], Entry(key, img, info))
    ensures Entry(key, img, info) in Run(history + [Put(key, img, info)] + more)
    ensures Answer(Run(history + [Put(key, img, info)] + more), Get(key, info)) == Some(img)
  {
    var e, first := Entry(key, img, info), history + [Put(key, img, info)];
    RunSnoc(history, Put(key, img, info));
    assert e in Run(first);
    hide *;
    StaysUntilCrowdedOut(first, e, more);
    RunKeepsInv(first + more);
    FoundOnceThere(Run(first + more), e);
  }

  lemma FoundOnceThere(lru: Lru, e: Entry)
    requires Inv(lru) && e in lru
    ensures Answer(lru, Get(e.key, e.info)) == Some(e.img)
  {
    FindIsUnique(lru, e);
  }

  /** The latest image that was accepted for a key. */
  function LatestPut(history: seq<Op>, key: string): Option<Entry> {
    if history == [] then None
    else
      var op := history[|history| - 1];
      if op.Put? && op.key == key && Fits(op.img) then Some(Entry(key, op.img, op.info))
      else LatestPut(history[..|history| - 1], key)
  }

  /** Whether an operation makes its entry the most recently used one. */
  predicate Uses(lru: Lru, op: Op) {
    match op
    case Put(key, img, info) => Fits(img)
    case Get(key, info) => Hit(lru, key, info)
  }

  /** When a key was last put or found. */
  function LastUse(history: seq<Op>, key: string): (t: int)
    ensures -1 <= t < |history|
  {
    if history == [] then -1
    else
      var n := |history| - 1;
      if history[n].key == key && Uses(Run(history[..n]), history[n]) then n else LastUse(history[..n], key)
  }

  /** An entry of the cache is the latest that was put under its key. */
  lemma {:induction false} EntriesAreLatest(history: seq<Op>, e: Entry)
    requires e in Run(history)
    ensures LatestPut(history, e.key) == Some(e)
    decreases |history|
  {
    var n := |history| - 1;
    var lru, op := Run(history[..n]), history[n];
    RunKeepsInv(history[..n]);
    InWithout(lru, op.key, e);
    FindMeaning(lru, op.key);
    match op
    case Put(key, img, info) =>
      if !Fits(img) {
        EntriesAreLatest(history[..n], e);
      } else if e != Entry(key, img, info) {
        assert e in Evict(Without(lru, key), |img|);
        assert e in Without(lru, key);
        EntriesAreLatest(history[..n], e);
      }
    case Get(key, info) =>
      EntriesAreLatest(history[..n], e);
  }

  /** A lookup returns the latest image put under its key, and only for the file as it was then. */
  lemma LookupIsLatest(history: seq<Op>, key: string, info: Option<FileInfo>)
    requires Answer(Run(history), Get(key, info)).Some?
    ensures LatestPut(history, key) == Some(Entry(key, Answer(Run(history), Get(key, info)).value, info))
  {
    FindMeaning(Run(history), key);
    EntriesAreLatest(history, Find(Run(history), key).value);
  }

  /** Only storing an image under a key brings the key back. */
  lemma NotBroughtBack(lru: Lru, op: Op, key: string)
    requires Inv(lru) && !Holds(lru, key) && (op.Put? && op.key == key ==> !Fits(op.img))
    ensures !Holds(Step(lru, op), key)
  {
    NotHeld(lru, op.key);
    FindMeaning(lru, op.key);
    var rest := Without(lru, op.key);
    assert !Holds(rest, key);
    forall e | e in Step(lru, op)
      ensures e.key != key
    {
      assert e in rest ==> Holds(rest, e.key);
    }
  }

  /**
   An image that was asked for with another file identity is forgotten: nobody finds anything under
   its key until an image is stored there again.
   */
  lemma {:induction false} AskedOtherwiseIsForgotten(history: seq<Op>, key: string, info: Option<FileInfo>, more: seq<Op>,
                                                     asked: Option<FileInfo>)
    requires LatestPut(history, key).Some? ==> LatestPut(history, key).value.info != info
    requires forall i :: 0 <= i < |more| && more[i].Put? && more[i].key == key ==> !(0 < |more[i].img| <= 2097152)
    ensures !Holds(Run(history + [Get(key, info)] + more), key)
    ensures Answer(Run(history + [Get(key, info)] + more), Get(key, asked)) == None
    decreases |more|
  {
    var first := history + [Get(key, info)];
    if more == [] {
      assert first + more == first && first[..|history|] == history;
      RunKeepsInv(history);
      FindMeaning(Run(history), key);
      if Find(Run(history), key).Some? {
        EntriesAreLatest(history, Find(Run(history), key).value);
      }
      RestKeepsInv(Run(history), key);
    } else {
      var n := |more| - 1;
      assert (first + more)[..|first| + n] == first + more[..n];
      AskedOtherwiseIsForgotten(history, key, info, more[..n], asked);
      RunKeepsInv(first + more[..n]);
      NotBroughtBack(Run(first + more[..n]), more[n], key);
    }
    FindMeaning(Run(first + more), key);
  }

  /** Earlier entries were used later. */
  predicate RecentFirst(history: seq<Op>, lru: Lru) {
    lru == [] ||
    (var front, last := lru[..|lru| - 1], lru[|lru| - 1];
     RecentFirst(history, front) && forall e :: e in front ==> LastUse(history, e.key) > LastUse(history, last.key))
  }

  lemma {:induction false} RecentPrefix(history: seq<Op>, lru: Lru, n: nat)
    requires RecentFirst(history, lru) && n <= |lru|
    ensures RecentFirst(history, lru[..n])
    decreases |lru|
  {
    if n == |lru| {
      assert lru[..n] == lru;
    } else {
      RecentPrefix(history, lru[..|lru| - 1], n);
      assert lru[..|lru| - 1][..n] == lru[..n];
    }
  }

  lemma {:induction false} RecentWithout(history: seq<Op>, lru: Lru, key: string)
    requires DistinctKeys(lru) && RecentFirst(history, lru)
    ensures RecentFirst(history, Without(lru, key))
    decreases |lru|
  {
    if lru != [] && lru[|lru| - 1].key != key {
      var front, last := lru[..|lru| - 1], lru[|lru| - 1];
      RecentWithout(history, front, key);
      var w := Without(front, key);
      assert (w + [last])[..|w|] == w;
      forall e | e in w
        ensures LastUse(history, e.key) > LastUse(history, last.key)
      {
        InWithout(front, key, e);
      }
    }
  }

  /** The uses of other keys stay as they are. */
  lemma {:induction false} RecentStays(before: seq<Op>, after: seq<Op>, lru: Lru)
    requires RecentFirst(before, lru)
    requires forall e :: e in lru ==> LastUse(after, e.key) == LastUse(before, e.key)
    ensures RecentFirst(after, lru)
    decreases |lru|
  {
    if lru != [] {
      assert forall e :: e in lru[..|lru| - 1] ==> e in lru;
      RecentStays(before, after, lru[..|lru| - 1]);
    }
  }

  lemma {:induction false} RecentCons(history: seq<Op>, e: Entry, lru: Lru)
    requires RecentFirst(history, lru)
    requires forall x :: x in lru ==> LastUse(history, e.key) > LastUse(history, x.key)
    ensures RecentFirst(history, [e] + lru)
    decreases |lru|
  {
    if lru == [] {
      assert [e] + lru == [e] && [e][..0] == [];
    } else {
      var front := lru[..|lru| - 1];
      assert ([e] + lru)[..|lru|] == [e] + front;
      assert forall x :: x in front ==> x in lru;
      RecentCons(history, e, front);
    }
  }

  /** The list is always in the order of use, so what is evicted from its end is the least recently used. */
  lemma {:induction false} RunIsRecentFirst(history: seq<Op>)
    ensures RecentFirst(history, Run(history))
    decreases |history|
  {
    if history != [] {
      var n := |history| - 1;
      var before, lru, op := history[..n], Run(history[..n]), history[n];
      RunIsRecentFirst(before);
      RunKeepsInv(before);
      var rest := Without(lru, op.key);
      RecentWithout(before, lru, op.key);
      NotHeld(lru, op.key);
      assert forall e :: e in rest ==> Holds(rest, e.key);
      RecentStays(before, history, rest);
      if !Uses(lru, op) {
        NoUse(history);
      } else {
        UseGoesFirst(history, rest);
      }
    }
  }

  lemma NoUse(history: seq<Op>)
    requires history != []
    requires var n := |history| - 1; !Uses(Run(history[..n]), history[n])
    requires RecentFirst(history[..|history| - 1], Run(history[..|history| - 1]))
    requires RecentFirst(history, Without(Run(history[..|history| - 1]), history[|history| - 1].key))
    ensures RecentFirst(history, Run(history))
  {
    var n := |history| - 1;
    if history[n].Put? {
      RecentStays(history[..n], history, Run(history[..n]));
    }
  }

  lemma UseGoesFirst(history: seq<Op>, rest: Lru)
    requires history != []
    requires var n := |history| - 1; Uses(Run(history[..n]), history[n]) && rest == Without(Run(history[..n]), history[n].key)
    requires RecentFirst(history, rest) && !Holds(rest, history[|history| - 1].key)
    ensures RecentFirst(history, Run(history))
  {
    var n := |history| - 1;
    var lru, op := Run(history[..n]), history[n];
    FindMeaning(lru, op.key);
    if op.Put? {
      FirstIsRecent(history, Entry(op.key, op.img, op.info), rest, Evict(rest, |op.img|));
    } else {
      FirstIsRecent(history, Find(lru, op.key).value, rest, rest);
    }
  }

  lemma FirstIsRecent(history: seq<Op>, first: Entry, rest: Lru, kept: Lru)
    requires history != [] && LastUse(history, first.key) == |history| - 1
    requires RecentFirst(history, rest) && !Holds(rest, first.key) && kept <= rest
    requires forall k :: k != first.key ==> LastUse(history, k) < |history| - 1
    ensures RecentFirst(history, [first] + kept)
  {
    assert kept == rest[..|kept|];
    RecentPrefix(history, rest, |kept|);
    forall x | x in kept
      ensures LastUse(history, first.key) > LastUse(history, x.key)
    {
      assert x in rest && Holds(rest, x.key);
    }
    RecentCons(history, first, kept);
  }

  /** What eviction takes from a list in the order of use was used before everything it leaves. */
  lemma EvictsFromTheEnd(history: seq<Op>, lru: Lru, room: nat, gone: Entry, left: Entry)
    requires RecentFirst(history, lru) && room <= CACHE_BYTES
    requires gone in lru && gone !in Evict(lru, room) && left in Evict(lru, room)
    ensures LastUse(history, gone.key) < LastUse(history, left.key)
  {
    var kept := Evict(lru, room);
    var i :| 0 <= i < |lru| && lru[i] == gone;
    var j :| 0 <= j < |kept| && kept[j] == left;
    assert forall x :: 0 <= x < |kept| ==> kept[x] == lru[x];
    OrderOfUse(history, lru, j, i);
  }

  /**
   Whatever an operation evicts, that is, takes out although it is about another key, was
   used before everything that is left of the other keys. This holds for an image that is new
   and for one that replaces its key's smaller image.
   */
  lemma EvictsLeastRecentlyUsed(history: seq<Op>, op: Op, gone: Entry, left: Entry)
    requires gone in Run(history) && gone.key != op.key && gone !in Step(Run(history), op)
    requires left in Step(Run(history), op) && left.key != op.key
    ensures op.Put? && LastUse(history, gone.key) < LastUse(history, left.key)
  {
    var lru := Run(history);
    var rest := Without(lru, op.key);
    RunKeepsInv(history);
    RunIsRecentFirst(history);
    RecentWithout(history, lru, op.key);
    InWithout(lru, op.key, gone);
    if op.Put? && Fits(op.img) {
      EvictsFromTheEnd(history, rest, |op.img|, gone, left);
    }
  }

  lemma {:induction false} OrderOfUse(history: seq<Op>, lru: Lru, i: nat, j: nat)
    requires RecentFirst(history, lru) && i < j < |lru|
    ensures LastUse(history, lru[i].key) > LastUse(history, lru[j].key)
    decreases |lru|
  {
    var n := |lru| - 1;
    if j < n {
      OrderOfUse(history, lru[..n], i, j);
    } else {
      assert lru[..n][i] in lru[..n];
    }
  }

  // ---------------------------------------------------------------- the object

  /** Map and list hold the same entries. */
  ghost predicate MapFits(entries: map<string, Entry>, lru: Lru) {
    && |entries| == |lru|
    && (forall e {:trigger e in lru} :: e in lru ==> e.key in entries && entries[e.key] == e)
    && (forall k {:trigger Holds(lru, k)} :: k in entries ==> Holds(lru, k))
  }

  lemma MapAgrees(entries: map<string, Entry>, lru: Lru, key: string)
    requires MapFits(entries, lru) && DistinctKeys(lru)
    ensures key in entries <==> Find(lru, key).Some?
    ensures key in entries ==> Find(lru, key) == Some(entries[key])
  {
    FindMeaning(lru, key);
    if key in entries {
      assert Holds(lru, key);
      FindIsUnique(lru, Find(lru, key).value);
    }
  }

  lemma MapWithout(entries: map<string, Entry>, lru: Lru, e: Entry)
    requires MapFits(entries, lru) && DistinctKeys(lru) && e in lru
    ensures MapFits(entries - {e.key}, Without(lru, e.key))
  {
    var rest, fewer := Without(lru, e.key), entries - {e.key};
    FindIsUnique(lru, e);
    WithoutSize(lru, e.key);
    assert entries.Keys == fewer.Keys + {e.key};
    forall x | x in rest
      ensures x.key in fewer && fewer[x.key] == x
    {
      InWithout(lru, e.key, x);
    }
    forall k | k in fewer
      ensures Holds(rest, k)
    {
      assert Holds(lru, k);
      var x :| x in lru && x.key == k;
      InWithout(lru, e.key, x);
    }
  }

  lemma InCons(lru: Lru, e: Entry, x: Entry)
    ensures x in [e] + lru <==> x == e || x in lru
  {
  }

  lemma MapCons(entries: map<string, Entry>, lru: Lru, e: Entry)
    requires MapFits(entries, lru) && e.key !in entries
    ensures MapFits(entries[e.key := e], [e] + lru) && !Holds(lru, e.key)
  {
    var more, all := entries[e.key := e], [e] + lru;
    assert more.Keys == entries.Keys + {e.key};
    assert |more| == |more.Keys| && |entries| == |entries.Keys|;
    forall x {:trigger x in all} | x in all
      ensures x.key in more && more[x.key] == x
    {
      InCons(lru, e, x);
    }
    forall k {:trigger Holds(all, k)} | k in more
      ensures Holds(all, k)
    {
      HoldsInCons(lru, e, k);
    }
  }

  lemma HoldsInCons(lru: Lru, e: Entry, k: string)
    ensures Holds([e] + lru, k) <==> k == e.key || Holds(lru, k)
  {
    var all := [e] + lru;
    assert all[0] == e;
    if Holds(lru, k) {
      var x :| x in lru && x.key == k;
      assert x in all;
    }
  }

  lemma EvictStops(lru: Lru, room: nat)
    requires room <= CACHE_BYTES && !MustEvict(lru, room)
    ensures Evict(lru, room) == lru
  {
  }

  /** The map finds an entry by its key, the list keeps the order of use. */
  class ThumbnailCache {
    var entries: map<string, Entry>
    var lru: Lru
    var bytes: int

    ghost predicate Valid()
      reads this
    {
      Inv(lru) && bytes == TotalBytes(lru) && MapFits(entries, lru)
    }

    constructor ()
      ensures Valid() && lru == []
    {
      entries, lru, bytes := map[], [], 0;
    }

    /** Takes one entry out of the map and out of the list. */
    method Remove(e: Entry)
      requires Valid() && e in lru
      modifies this
      ensures Valid() && lru == Without(old(lru), e.key) && entries == old(entries) - {e.key}
    {
      RestKeepsInv(lru, e.key);
      WithoutSize(lru, e.key);
      FindIsUnique(lru, e);
      MapWithout(entries, lru, e);
      bytes := bytes - |e.img|;
      entries := entries - {e.key};
      lru := Without(lru, e.key);
    }

    method PushFront(e: Entry)
      requires Valid() && e.key !in entries && Fits(e.img)
      requires TotalBytes(lru) + |e.img| <= CACHE_BYTES && |lru| < CACHE_CAP
      modifies this
      ensures Valid() && lru == [e] + old(lru) && entries == old(entries)[e.key := e]
    {
      MapCons(entries, lru, e);
      FrontKeepsInv(e, lru);
      BytesOfCons(e, lru);
      entries := entries[e.key := e];
      lru := [e] + lru;
      bytes := bytes + |e.img|;
    }

    method Lookup(key: string, info: Option<FileInfo>) returns (img: Option<Blob>)
      requires Valid()
      modifies this
      ensures Valid() && lru == Step(old(lru), Get(key, info)) && img == Answer(old(lru), Get(key, info))
    {
      MapAgrees(entries, lru, key);
      WithoutSize(lru, key);
      if key !in entries {
        return None;
      }
      var v := entries[key];
      FindMeaning(lru, key);
      Remove(v);
      if v.info != info {
        return None;
      }
      PushFront(v);
      return Some(v.img);
    }

    method RemoveBack()
      requires Valid() && lru != []
      modifies this
      ensures Valid() && lru == old(lru)[..|old(lru)| - 1]
    {
      var last := lru[|lru| - 1];
      assert last in lru;
      Remove(last);
    }

    predicate Crowded(room: nat)
      reads this
    {
      bytes + room > CACHE_BYTES || |entries| >= CACHE_CAP
    }

    lemma CrowdedIs(room: nat)
      requires Valid()
      ensures Crowded(room) <==> MustEvict(lru, room)
    {
    }

    /** Makes room by removing from the back; the list is never empty then. */
    method MakeRoom(room: nat)
      requires Valid() && room <= MAX_IMAGE
      modifies this
      ensures Valid() && lru == Evict(old(lru), room)
    {
      ghost var all := Evict(lru, room);
      CrowdedIs(room);
      while Crowded(room)
        invariant Valid() && (Crowded(room) <==> MustEvict(lru, room))
        invariant Evict(lru, room) == all
        decreases |lru|
      {
        EvictStep(lru, room);
        RemoveBack();
        CrowdedIs(room);
      }
      EvictStops(lru, room);
    }

    method Store(key: string, img: Blob, info: Option<FileInfo>)
      requires Valid()
      modifies this
      ensures Valid() && lru == Step(old(lru), Put(key, img, info))
    {
      if |img| == 0 || |img| > MAX_IMAGE {
        return;
      }
      MapAgrees(entries, lru, key);
      WithoutSize(lru, key);
      RestKeepsInv(lru, key);
      if key in entries {
        FindMeaning(lru, key);
        Remove(entries[key]);
      }
      ghost var rest := lru;
      MakeRoom(|img|);
      assert key !in entries by {
        MapAgrees(entries, lru, key);
        FindMeaning(lru, key);
        assert forall e :: e in lru ==> e in rest;
      }
      PushFront(Entry(key, img, info));
    }
  }
}
