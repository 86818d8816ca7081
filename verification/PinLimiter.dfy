/** The throttle on PIN guesses: how many wrong guesses an address gets, and that pruning is never noticed. */
module PinLimiter {
  import opened Bytes

  /** Times are integers on one clock. */
  datatype Config = Config(maxFails: int, window: int, block: int, maxIPs: int)

  const DEFAULTS := Config(5, 60, 300, 10000)

  datatype Attempts = Attempts(fails: int, windowStart: int, blockedUntil: Option<int>)

  predicate Blocked(a: Attempts, now: int) {
    a.blockedUntil.Some? && now < a.blockedUntil.value
  }

  predicate Open(a: Option<Attempts>, now: int) {
    a.Some? ==> !Blocked(a.value, now)
  }

  /** One wrong guess of an address with this record. */
  function Fail(cfg: Config, a: Option<Attempts>, now: int): Attempts {
    var known := if a.None? then Attempts(0, now, None) else a.value;
    var current := if now - known.windowStart > cfg.window then known.(fails := 0, windowStart := now) else known;
    if current.fails + 1 >= cfg.maxFails then Attempts(0, now, Some(now + cfg.block))
    else current.(fails := current.fails + 1)
  }

  // ---------------------------------------------------------------- one address

  /** The record of an address after wrong guesses at these times. */
  function After(cfg: Config, times: seq<int>): (a: Option<Attempts>)
    ensures a.None? <==> times == []
  {
    if times == [] then None
    else Some(Fail(cfg, After(cfg, times[..|times| - 1]), times[|times| - 1]))
  }

  /**
   What happens to one address since it last guessed right: a connection is let in, a guess
   on one turns out wrong, or one goes away without a guess.
   */
  datatype Mark = LetIn(now: int) | Wrong(now: int) | Gone(now: int)

  /** When the wrong guesses were recorded. */
  function Times(h: seq<Mark>): seq<int> {
    if h == [] then []
    else
      var front, m := Times(h[..|h| - 1]), h[|h| - 1];
      if m.Wrong? then front + [m.now] else front
  }

  /** How many connections have been let in and not been heard of since. */
  function Waiting(h: seq<Mark>): int {
    if h == [] then 0 else Waiting(h[..|h| - 1]) + if h[|h| - 1].LetIn? then 1 else -1
  }

  /**
   The clock never runs back, a connection is let in only while the address is not blocked,
   and at most `n` of them are waiting at any time. A guess is recorded in any case.
   */
  predicate Proper(cfg: Config, n: nat, h: seq<Mark>) {
    h == [] ||
    (var k := |h| - 1;
     && Proper(cfg, n, h[..k])
     && (k > 0 ==> h[k - 1].now <= h[k].now)
     && 0 <= Waiting(h) <= n
     && (h[k].LetIn? ==> Open(After(cfg, Times(h[..k])), h[k].now)))
  }

  predicate Sorted(times: seq<int>) {
    forall i, j :: 0 <= i <= j < |times| ==> times[i] <= times[j]
  }

  lemma SortedSnoc(times: seq<int>, t: int)
    requires Sorted(times) && (times != [] ==> times[|times| - 1] <= t)
    ensures Sorted(times + [t])
  {
  }

  lemma {:induction false} ProperTimes(cfg: Config, n: nat, h: seq<Mark>)
    requires Proper(cfg, n, h)
    ensures Sorted(Times(h))
    ensures Times(h) != [] ==> Times(h)[|Times(h)| - 1] <= h[|h| - 1].now
    ensures 0 <= Waiting(h) <= n
    decreases |h|
  {
    if h != [] {
      var front, m := h[..|h| - 1], h[|h| - 1];
      ProperTimes(cfg, n, front);
      if m.Wrong? { SortedSnoc(Times(front), m.now); }
    }
  }

  /** With no room for mistakes at all, a single wrong guess blocks. */
  function Threshold(cfg: Config): (m: nat)
    ensures m >= 1
  {
    if cfg.maxFails < 1 then 1 else cfg.maxFails
  }

  /** How many earlier guesses still count at this moment. */
  function Count(cfg: Config, a: Option<Attempts>, t: int): int {
    if a.None? || t - a.value.windowStart > cfg.window then 0 else a.value.fails
  }

  /** Whether this guess is one too many. */
  predicate Blocks(cfg: Config, times: seq<int>, x: nat)
    requires x < |times|
  {
    Count(cfg, After(cfg, times[..x]), times[x]) + 1 >= cfg.maxFails
  }

  /** Whether this guess begins a window of its own. */
  predicate Restarts(cfg: Config, times: seq<int>, x: nat)
    requires x < |times|
  {
    x > 0 ==> times[x] - After(cfg, times[..x]).value.windowStart > cfg.window
  }

  /** The guess at which the window of the record began. */
  function WindowIndex(cfg: Config, times: seq<int>): (d: nat)
    requires times != []
    ensures d < |times|
  {
    var k := |times| - 1;
    if Blocks(cfg, times, k) || Restarts(cfg, times, k) then k else WindowIndex(cfg, times[..k])
  }

  lemma EarlierGuess(cfg: Config, times: seq<int>, k: nat, x: nat)
    requires x < k <= |times|
    ensures Blocks(cfg, times[..k], x) == Blocks(cfg, times, x)
    ensures Restarts(cfg, times[..k], x) == Restarts(cfg, times, x)
  {
    assert times[..k][..x] == times[..x];
  }

  /** What the record says about the guesses. The one that blocks does not count any more. */
  ghost predicate Counted(cfg: Config, times: seq<int>)
    requires times != []
  {
    var k, d, a := |times|, WindowIndex(cfg, times), After(cfg, times).value;
    && a.windowStart == times[d]
    && 0 <= a.fails < Threshold(cfg)
    && a.fails == k - d - (if Blocks(cfg, times, d) then 1 else 0)
    && (Blocks(cfg, times, d) || Restarts(cfg, times, d))
    && times[k - 1] - times[d] <= cfg.window
  }

  lemma {:induction false} GuessesAreCounted(cfg: Config, times: seq<int>)
    requires cfg.window >= 0 && Sorted(times) && times != []
    ensures Counted(cfg, times)
    decreases |times|
  {
    var k := |times| - 1;
    if k > 0 {
      var front := times[..k];
      GuessesAreCounted(cfg, front);
      EarlierGuess(cfg, times, k, WindowIndex(cfg, front));
    }
  }

  /** An address that is not blocked now has had its last block long enough ago. */
  lemma {:induction false} OpenAgain(cfg: Config, times: seq<int>, x: nat, now: int)
    requires Sorted(times) && x < |times| && Blocks(cfg, times, x) && Open(After(cfg, times), now)
    ensures times[x] + cfg.block <= now
    decreases |times|
  {
    var k := |times| - 1;
    if !Blocks(cfg, times, k) {
      EarlierGuess(cfg, times, k, x);
      OpenAgain(cfg, times[..k], x, now);
    }
  }

  /** While an address is blocked, only connections that were let in before can still guess. */
  lemma {:induction false} OnlyThoseInFlight(cfg: Config, n: nat, h: seq<Mark>, x: nat)
    requires Proper(cfg, n, h) && x < |Times(h)| && Blocks(cfg, Times(h), x)
    requires h[|h| - 1].now < Times(h)[x] + cfg.block
    ensures |Times(h)| - x + Waiting(h) <= n
    decreases |h|
  {
    var k := |h| - 1;
    var front, times := h[..k], Times(h);
    ProperTimes(cfg, n, front);
    if x < |Times(front)| {
      assert Times(front) == times[..|Times(front)|];
      EarlierGuess(cfg, times, |Times(front)|, x);
      if h[k].LetIn? {
        OpenAgain(cfg, Times(front), x, h[k].now);
      } else {
        OnlyThoseInFlight(cfg, n, front, x);
      }
    }
  }

  /** The history up to a wrong guess. */
  lemma {:induction false} UpToGuess(cfg: Config, n: nat, h: seq<Mark>, j: nat) returns (p: nat)
    requires Proper(cfg, n, h) && j < |Times(h)|
    ensures 0 < p <= |h| && Proper(cfg, n, h[..p])
    ensures Times(h[..p]) == Times(h)[..j + 1] && h[p - 1].now == Times(h)[j]
    decreases |h|
  {
    var k := |h| - 1;
    if h[k].Wrong? && j == |Times(h)| - 1 {
      p := |h|;
      assert h[..p] == h;
    } else {
      p := UpToGuess(cfg, n, h[..k], j);
      assert h[..k][..p] == h[..p];
    }
  }

  /** The most wrong guesses within one window length, if at most `n` connections are let in at a time. */
  function Most(cfg: Config, n: nat): nat {
    var m := Threshold(cfg);
    if m == 1 then n
    else if n >= m && cfg.block <= 2 * cfg.window then 2 * m - 2 + n
    else 2 * m - 3 + n
  }

  /** Any more guesses than that span more than a window. */
  ghost predicate Spread(cfg: Config, most: nat, times: seq<int>) {
    forall i, j :: 0 <= i && i + most == j && j < |times| ==> times[j] - times[i] > cfg.window
  }

  ghost predicate Quiet(cfg: Config, times: seq<int>, i: nat, x: nat)
    requires x <= |times|
  {
    forall y :: i <= y < x ==> !Blocks(cfg, times, y)
  }

  /**
   Guesses within one window length that do not block: they belong to one counting window, or
   to two. If there are as many as two windows can hold, the first of them began with a guess
   that blocked.
   */
  lemma QuietGuesses(cfg: Config, times: seq<int>, i: nat, x: nat) returns (c: nat, e: nat)
    requires cfg.window >= 0 && Sorted(times) && i < x <= |times|
    requires Quiet(cfg, times, i, x) && times[x - 1] - times[i] <= cfg.window
    ensures Threshold(cfg) > 1
    ensures x - i <= 2 * Threshold(cfg) - 3 || (x - i == 2 * Threshold(cfg) - 2 && e < i < c < x && c - i == Threshold(cfg) - 1)
    ensures e < i < c < x ==> Blocks(cfg, times, e) && c - e - 1 <= Threshold(cfg) - 1 && times[c - 1] - times[e] <= cfg.window
  {
    c, e := 0, 0;
    var last := times[..x];
    GuessesAreCounted(cfg, last);
    var d := WindowIndex(cfg, last);
    EarlierGuess(cfg, times, x, d);
    if d > i {
      assert !Blocks(cfg, times, d);
      var before := times[..d];
      GuessesAreCounted(cfg, before);
      var w := WindowIndex(cfg, before);
      EarlierGuess(cfg, times, d, w);
      assert times[d] - times[w] > cfg.window;
      if Blocks(cfg, times, w) {
        c, e := d, w;
      }
    } else if d == i {
      assert !Blocks(cfg, times, d);
    }
  }

  /** Guesses within one window length of which none blocks. */
  lemma QuietIsSpread(cfg: Config, n: nat, times: seq<int>, i: nat, j: nat)
    requires cfg.window >= 0 && n >= 1 && Sorted(times)
    requires i + Most(cfg, n) == j < |times| && Quiet(cfg, times, i, j + 1)
    ensures times[j] - times[i] > cfg.window
  {
    if times[j] - times[i] <= cfg.window {
      var c, e := QuietGuesses(cfg, times, i, j + 1);
    }
  }

  lemma FirstToBlock(cfg: Config, times: seq<int>, i: nat, j: nat) returns (x: nat)
    requires i <= j < |times| && !Quiet(cfg, times, i, j + 1)
    ensures i <= x <= j && Blocks(cfg, times, x) && Quiet(cfg, times, i, x)
  {
    x := i;
    while !Blocks(cfg, times, x)
      invariant i <= x <= j && Quiet(cfg, times, i, x)
      decreases j - x
    {
      x := x + 1;
    }
  }

  /** Guesses within one window length of which one blocks: behind the first such there are only those in flight. */
  lemma BlockedIsSpread(cfg: Config, n: nat, h: seq<Mark>, i: nat)
    requires cfg.block > cfg.window >= 0 && n >= 1 && Proper(cfg, n, h) && Times(h) != []
    requires h[|h| - 1].now == Times(h)[|Times(h)| - 1]
    requires i + Most(cfg, n) == |Times(h)| - 1 && !Quiet(cfg, Times(h), i, |Times(h)|)
    ensures Times(h)[|Times(h)| - 1] - Times(h)[i] > cfg.window
  {
    var times, j := Times(h), |Times(h)| - 1;
    ProperTimes(cfg, n, h);
    if times[j] - times[i] <= cfg.window {
      var x := FirstToBlock(cfg, times, i, j);
      OnlyThoseInFlight(cfg, n, h, x);
      assert j - x < n;
      if i < x {
        var c, e := QuietGuesses(cfg, times, i, x);
        if e < i < c < x {
          SecondWindow(cfg, n, h, i, c, e);
        }
      }
    }
  }

  /** A window that began with a block holds only guesses that were in flight then. */
  lemma SecondWindow(cfg: Config, n: nat, h: seq<Mark>, i: nat, c: nat, e: nat)
    requires cfg.block > cfg.window >= 0 && Proper(cfg, n, h) && e < i < c < |Times(h)|
    requires h[|h| - 1].now == Times(h)[|Times(h)| - 1]
    requires Blocks(cfg, Times(h), e) && Times(h)[c - 1] - Times(h)[e] <= cfg.window
    requires Times(h)[|Times(h)| - 1] - Times(h)[i] <= cfg.window
    ensures c - e <= n
    ensures cfg.block > 2 * cfg.window ==> |Times(h)| - e <= n
  {
    var times := Times(h);
    ProperTimes(cfg, n, h);
    var p := UpToGuess(cfg, n, h, c - 1);
    EarlierGuess(cfg, times, c, e);
    ProperTimes(cfg, n, h[..p]);
    OnlyThoseInFlight(cfg, n, h[..p], e);
    if cfg.block > 2 * cfg.window {
      OnlyThoseInFlight(cfg, n, h, e);
    }
  }

  lemma PartIsNotQuiet(cfg: Config, times: seq<int>, i: nat, j: nat)
    requires i <= j < |times| && !Quiet(cfg, times, i, j + 1)
    ensures !Quiet(cfg, times[..j + 1], i, j + 1)
  {
    var x := FirstToBlock(cfg, times, i, j);
    EarlierGuess(cfg, times, j + 1, x);
  }

  lemma ApartByMost(cfg: Config, n: nat, h: seq<Mark>, i: nat, j: nat)
    requires cfg.block > cfg.window >= 0 && n >= 1 && Proper(cfg, n, h)
    requires i + Most(cfg, n) == j < |Times(h)|
    ensures Times(h)[j] - Times(h)[i] > cfg.window
  {
    hide *;
    var times := Times(h);
    ProperTimes(cfg, n, h);
    if Quiet(cfg, times, i, j + 1) {
      QuietIsSpread(cfg, n, times, i, j);
    } else {
      var p := UpToGuess(cfg, n, h, j);
      PartIsNotQuiet(cfg, times, i, j);
      BlockedIsSpread(cfg, n, h[..p], i);
    }
  }

  /** Between two right guesses, an address gets at most so many wrong ones in any window length. */
  lemma GuessesAreSpread(cfg: Config, n: nat, h: seq<Mark>)
    requires cfg.block > cfg.window >= 0 && n >= 1 && Proper(cfg, n, h)
    ensures Spread(cfg, Most(cfg, n), Times(h))
  {
    hide Proper, Most, After, Times;
    forall i, j | 0 <= i && i + Most(cfg, n) == j && j < |Times(h)|
      ensures Times(h)[j] - Times(h)[i] > cfg.window
    {
      ApartByMost(cfg, n, h, i, j);
    }
  }

  // ---------------------------------------------------------------- the bound is exact

  /** `n` more guesses, all at one moment. */
  function Burst(times: seq<int>, t: int, n: nat): (s: seq<int>)
    ensures |s| == |times| + n
    decreases n
  {
    if n == 0 then times else Burst(times + [t], t, n - 1)
  }

  lemma {:induction false} BurstAt(times: seq<int>, t: int, n: nat, i: nat)
    requires i < |times| + n
    ensures Burst(times, t, n)[i] == if i < |times| then times[i] else t
    decreases n
  {
    if n > 0 {
      BurstAt(times + [t], t, n - 1, i);
    }
  }

  lemma {:induction false} BurstTwice(times: seq<int>, t: int, a: nat, b: nat)
    ensures Burst(Burst(times, t, a), t, b) == Burst(times, t, a + b)
    decreases a
  {
    if a > 0 {
      BurstTwice(times + [t], t, a - 1, b);
    }
  }

  /** A history that can go on at this time. */
  predicate Ready(cfg: Config, n: nat, h: seq<Mark>, t: int) {
    Proper(cfg, n, h) && (h != [] ==> h[|h| - 1].now <= t)
  }

  lemma OneMore(cfg: Config, n: nat, h: seq<Mark>, m: Mark)
    requires Ready(cfg, n, h, m.now) && 0 <= Waiting(h) + (if m.LetIn? then 1 else -1) <= n
    requires m.LetIn? ==> Open(After(cfg, Times(h)), m.now)
    ensures Ready(cfg, n, h + [m], m.now)
    ensures Times(h + [m]) == if m.Wrong? then Times(h) + [m.now] else Times(h)
    ensures Waiting(h + [m]) == Waiting(h) + if m.LetIn? then 1 else -1
  {
    assert (h + [m])[..|h|] == h;
  }

  /** `k` connections are let in at one moment. */
  function Enter(h: seq<Mark>, t: int, k: nat): seq<Mark>
    decreases k
  {
    if k == 0 then h else Enter(h + [LetIn(t)], t, k - 1)
  }

  lemma {:induction false} EnterMeaning(cfg: Config, n: nat, h: seq<Mark>, t: int, k: nat)
    requires Ready(cfg, n, h, t) && 0 <= Waiting(h) && Waiting(h) + k <= n && Open(After(cfg, Times(h)), t)
    ensures Ready(cfg, n, Enter(h, t, k), t)
    ensures Times(Enter(h, t, k)) == Times(h) && Waiting(Enter(h, t, k)) == Waiting(h) + k
    decreases k
  {
    if k > 0 {
      OneMore(cfg, n, h, LetIn(t));
      EnterMeaning(cfg, n, h + [LetIn(t)], t, k - 1);
    }
  }

  /** `k` of those waiting guess wrong at one moment. */
  function Miss(h: seq<Mark>, t: int, k: nat): seq<Mark>
    decreases k
  {
    if k == 0 then h else Miss(h + [Wrong(t)], t, k - 1)
  }

  lemma {:induction false} MissMeaning(cfg: Config, n: nat, h: seq<Mark>, t: int, k: nat)
    requires Ready(cfg, n, h, t) && k <= Waiting(h) <= n
    ensures Ready(cfg, n, Miss(h, t, k), t)
    ensures Times(Miss(h, t, k)) == Burst(Times(h), t, k) && Waiting(Miss(h, t, k)) == Waiting(h) - k
    decreases k
  {
    if k > 0 {
      OneMore(cfg, n, h, Wrong(t));
      MissMeaning(cfg, n, h + [Wrong(t)], t, k - 1);
    }
  }

  /** One connection after the other is let in and guesses wrong, `k` in all. */
  function Singles(h: seq<Mark>, t: int, k: nat): seq<Mark>
    decreases k
  {
    if k == 0 then h else Singles(h + [LetIn(t)] + [Wrong(t)], t, k - 1)
  }

  lemma OneGuess(cfg: Config, a: Option<Attempts>, t: int)
    requires cfg.window >= 0 && Open(a, t) && 0 <= Count(cfg, a, t) < Threshold(cfg)
    ensures var r := Fail(cfg, a, t);
            if Count(cfg, a, t) + 1 == Threshold(cfg) then r == Attempts(0, t, Some(t + cfg.block))
            else Open(Some(r), t) && Count(cfg, Some(r), t) == Count(cfg, a, t) + 1
  {
  }

  lemma AfterSnoc(cfg: Config, times: seq<int>, t: int)
    ensures After(cfg, times + [t]) == Some(Fail(cfg, After(cfg, times), t))
  {
    assert (times + [t])[..|times|] == times;
  }

  lemma OneSingle(cfg: Config, n: nat, h: seq<Mark>, t: int)
    requires Ready(cfg, n, h, t) && 0 <= Waiting(h) < n && Open(After(cfg, Times(h)), t)
    ensures var g := h + [LetIn(t)] + [Wrong(t)];
            Ready(cfg, n, g, t) && Times(g) == Times(h) + [t] && Waiting(g) == Waiting(h)
  {
    OneMore(cfg, n, h, LetIn(t));
    OneMore(cfg, n, h + [LetIn(t)], Wrong(t));
  }

  lemma {:induction false} SinglesMeaning(cfg: Config, n: nat, h: seq<Mark>, t: int, k: nat)
    requires cfg.window >= 0 && Ready(cfg, n, h, t) && 0 <= Waiting(h) < n && Open(After(cfg, Times(h)), t)
    requires var count := Count(cfg, After(cfg, Times(h)), t); 0 <= count && count + k <= Threshold(cfg)
    ensures Ready(cfg, n, Singles(h, t, k), t)
    ensures Times(Singles(h, t, k)) == Burst(Times(h), t, k) && Waiting(Singles(h, t, k)) == Waiting(h)
    ensures var count, a := Count(cfg, After(cfg, Times(h)), t), After(cfg, Burst(Times(h), t, k));
            if k > 0 && count + k == Threshold(cfg) then a == Some(Attempts(0, t, Some(t + cfg.block)))
            else Open(a, t) && Count(cfg, a, t) == count + k
    decreases k
  {
    if k > 0 {
      OneSingle(cfg, n, h, t);
      AfterSnoc(cfg, Times(h), t);
      OneGuess(cfg, After(cfg, Times(h)), t);
      if k > 1 { SinglesMeaning(cfg, n, h + [LetIn(t)] + [Wrong(t)], t, k - 1); }
    }
  }

  /** All but one of the guesses that block, then `n` connections let in together, which all guess wrong. */
  function FullBurst(cfg: Config, n: nat, h: seq<Mark>, t: int): seq<Mark> {
    Miss(Enter(Singles(h, t, Threshold(cfg) - 1), t, n), t, n)
  }

  lemma AllTogether(cfg: Config, n: nat, h: seq<Mark>, t: int)
    requires Ready(cfg, n, h, t) && Waiting(h) == 0 && Open(After(cfg, Times(h)), t)
    ensures Proper(cfg, n, Miss(Enter(h, t, n), t, n))
    ensures Times(Miss(Enter(h, t, n), t, n)) == Burst(Times(h), t, n)
  {
    assert Ready(cfg, n, Miss(Enter(h, t, n), t, n), t) ==> Proper(cfg, n, Miss(Enter(h, t, n), t, n));
    hide *;
    EnterMeaning(cfg, n, h, t, n);
    MissMeaning(cfg, n, Enter(h, t, n), t, n);
  }

  lemma FullBurstMeaning(cfg: Config, n: nat, h: seq<Mark>, t: int)
    requires cfg.window >= 0 && n >= 1 && Ready(cfg, n, h, t) && Waiting(h) == 0
    requires Open(After(cfg, Times(h)), t) && Count(cfg, After(cfg, Times(h)), t) == 0
    ensures Proper(cfg, n, FullBurst(cfg, n, h, t))
    ensures Times(FullBurst(cfg, n, h, t)) == Burst(Times(h), t, Threshold(cfg) - 1 + n)
  {
    var m := Threshold(cfg);
    assert FullBurst(cfg, n, h, t) == Miss(Enter(Singles(h, t, m - 1), t, n), t, n);
    hide *;
    SinglesMeaning(cfg, n, h, t, m - 1);
    AllTogether(cfg, n, Singles(h, t, m - 1), t);
    BurstTwice(Times(h), t, m - 1, n);
  }

  /** Guesses that are counted leave the start of the window where it was. */
  lemma {:induction false} WindowKept(cfg: Config, times: seq<int>, t: int, n: nat)
    requires After(cfg, times).Some? && t - After(cfg, times).value.windowStart <= cfg.window
    requires After(cfg, times).value.fails + n < cfg.maxFails
    ensures After(cfg, Burst(times, t, n)) ==
              Some(After(cfg, times).value.(fails := After(cfg, times).value.fails + n))
    decreases n
  {
    if n > 0 {
      AfterSnoc(cfg, times, t);
      FailKept(cfg, After(cfg, times).value, t);
      WindowKept(cfg, times + [t], t, n - 1);
    }
  }

  lemma FailKept(cfg: Config, a: Attempts, t: int)
    requires t - a.windowStart <= cfg.window && a.fails + 1 < cfg.maxFails
    ensures Fail(cfg, Some(a), t) == a.(fails := a.fails + 1)
  {
  }

  /** A guess at 0 and, just before its window ends, all but one of the others. */
  lemma SlowStart(cfg: Config, n: nat) returns (h: seq<Mark>)
    requires cfg.maxFails >= 2 && cfg.window >= 1 && n >= 1
    ensures Ready(cfg, n, h, cfg.window) && Waiting(h) == 0
    ensures Times(h) == Burst([0], cfg.window, cfg.maxFails - 2)
    ensures After(cfg, Times(h)) == Some(Attempts(cfg.maxFails - 1, 0, None))
  {
    SinglesMeaning(cfg, n, [], 0, 1);
    var one := Singles([], 0, 1);
    assert Times(one) == Burst([], 0, 1) == Burst([] + [0], 0, 0) == [0];
    AfterSnoc(cfg, [], 0);
    h := Singles(one, cfg.window, cfg.maxFails - 2);
    SinglesMeaning(cfg, n, one, cfg.window, cfg.maxFails - 2);
    WindowKept(cfg, [0], cfg.window, cfg.maxFails - 2);
  }

  /** One guess short of a block at 0, `m` more connections are let in, and one of them blocks. */
  lemma BlockedByOne(cfg: Config, n: nat) returns (h: seq<Mark>)
    requires cfg.block > cfg.window >= 1 && n >= Threshold(cfg)
    ensures Ready(cfg, n, h, 0) && Waiting(h) == Threshold(cfg) - 1
    ensures Times(h) == Burst([], 0, Threshold(cfg))
    ensures After(cfg, Times(h)) == Some(Attempts(0, 0, Some(cfg.block)))
  {
    var m := Threshold(cfg);
    SinglesMeaning(cfg, n, [], 0, m - 1);
    var g := Singles([], 0, m - 1);
    EnterMeaning(cfg, n, g, 0, m);
    var waiting := Enter(g, 0, m);
    MissMeaning(cfg, n, waiting, 0, 1);
    BurstTwice([], 0, m - 1, 1);
    assert Burst(Times(g), 0, 1) == Times(g) + [0];
    AfterSnoc(cfg, Times(g), 0);
    OneGuess(cfg, After(cfg, Times(g)), 0);
    h := Miss(waiting, 0, 1);
  }

  /** A block at 0 while others are in flight, which guess wrong just before the window ends. */
  lemma BlockedStart(cfg: Config, n: nat) returns (h: seq<Mark>)
    requires cfg.block > cfg.window >= 1 && n >= Threshold(cfg)
    ensures Ready(cfg, n, h, cfg.window) && Waiting(h) == 0
    ensures Times(h) == Burst(Burst([], 0, Threshold(cfg)), cfg.window, Threshold(cfg) - 1)
    ensures After(cfg, Times(h)) == Some(Attempts(Threshold(cfg) - 1, 0, Some(cfg.block)))
  {
    var m := Threshold(cfg);
    var blocked := BlockedByOne(cfg, n);
    h := Miss(blocked, cfg.window, m - 1);
    MissMeaning(cfg, n, blocked, cfg.window, m - 1);
    if m > 1 {
      WindowKept(cfg, Times(blocked), cfg.window, m - 1);
    }
  }

  /** Guesses shortly before a moment at which none of them counts any more. */
  ghost predicate LeadsUp(cfg: Config, n: nat, h: seq<Mark>, t: int) {
    var most, k := Most(cfg, n), |Times(h)| + Threshold(cfg) - 1 + n - Most(cfg, n);
    && Ready(cfg, n, h, t) && Waiting(h) == 0
    && Open(After(cfg, Times(h)), t) && Count(cfg, After(cfg, Times(h)), t) == 0
    && 0 <= k <= |Times(h)|
    && (k < |Times(h)| ==> t - Times(h)[k] <= cfg.window)
  }

  lemma BlockedLeadUp(cfg: Config, n: nat) returns (h: seq<Mark>)
    requires 2 * cfg.window >= cfg.block > cfg.window >= 1 && n >= Threshold(cfg) > 1
    ensures LeadsUp(cfg, n, h, cfg.block)
  {
    h := BlockedStart(cfg, n);
    BurstAt(Burst([], 0, Threshold(cfg)), cfg.window, Threshold(cfg) - 1, Threshold(cfg));
  }

  lemma SlowLeadUp(cfg: Config, n: nat) returns (h: seq<Mark>)
    requires cfg.block > cfg.window >= 1 && n >= 1 && Threshold(cfg) > 1
    requires n < Threshold(cfg) || cfg.block > 2 * cfg.window
    ensures LeadsUp(cfg, n, h, cfg.window + 1)
  {
    h := SlowStart(cfg, n);
    if Threshold(cfg) > 2 { BurstAt([0], cfg.window, Threshold(cfg) - 2, 1); }
  }

  lemma LeadUp(cfg: Config, n: nat) returns (h: seq<Mark>, t: int)
    requires cfg.block > cfg.window >= 1 && n >= 1
    ensures LeadsUp(cfg, n, h, t)
  {
    if Threshold(cfg) == 1 {
      h, t := [], 0;
    } else if n >= Threshold(cfg) && cfg.block <= 2 * cfg.window {
      h := BlockedLeadUp(cfg, n);
      t := cfg.block;
    } else {
      h := SlowLeadUp(cfg, n);
      t := cfg.window + 1;
    }
  }

  /**
   The window does not slide: it is fixed by its first guess, and connections in flight are not
   stopped. So more than the threshold can fall into one window length, and the bound is reached.
   */
  lemma BoundIsReached(cfg: Config, n: nat) returns (h: seq<Mark>)
    requires cfg.block > cfg.window >= 1 && n >= 1
    ensures Proper(cfg, n, h)
    ensures var times, k := Times(h), |Times(h)| - Most(cfg, n);
            k >= 0 && times[|times| - 1] - times[k] <= cfg.window
  {
    var before, t := LeadUp(cfg, n);
    h := FullBurst(cfg, n, before, t);
    FullBurstMeaning(cfg, n, before, t);
    var more, k := Threshold(cfg) - 1 + n, |Times(h)| - Most(cfg, n);
    hide Proper, Ready, FullBurst, After, Times, Burst, Most, Threshold;
    BurstAt(Times(before), t, more, k);
    BurstAt(Times(before), t, more, |Times(h)| - 1);
  }

  /** A block no longer than the window: two full bursts fit into one window. */
  lemma ShortBlockBreaksTheBound(cfg: Config, n: nat) returns (h: seq<Mark>)
    requires cfg.window >= 0 && cfg.block <= cfg.window && n >= 1
    ensures Proper(cfg, n, h) && !Spread(cfg, Most(cfg, n), Times(h))
  {
    var m, t := Threshold(cfg), if cfg.block < 0 then 0 else cfg.block;
    SinglesMeaning(cfg, n, [], 0, m);
    var first := Singles([], 0, m);
    h := FullBurst(cfg, n, first, t);
    FullBurstMeaning(cfg, n, first, t);
    TwoBurstsAreNotSpread(cfg, n, t);
  }

  lemma TwoBurstsAreNotSpread(cfg: Config, n: nat, t: int)
    requires t <= cfg.window && n >= 1
    ensures !Spread(cfg, Most(cfg, n), Burst(Burst([], 0, Threshold(cfg)), t, Threshold(cfg) - 1 + n))
  {
    var m, most := Threshold(cfg), Most(cfg, n);
    assert m <= most < 2 * m - 1 + n;
    hide Threshold, Most, Burst;
    var times := Burst(Burst([], 0, m), t, m - 1 + n);
    BurstAt([], 0, m, 0);
    BurstAt(Burst([], 0, m), t, m - 1 + n, 0);
    BurstAt(Burst([], 0, m), t, m - 1 + n, most);
    assert 0 + most == most && most < |times| && times[most] - times[0] <= cfg.window;
  }

  /** More guesses in a window than a smaller bound allows. */
  lemma BreaksSmallerBound(cfg: Config, n: nat, bound: nat) returns (h: seq<Mark>)
    requires cfg.block > cfg.window >= 1 && n >= 1 && bound < Most(cfg, n)
    ensures Proper(cfg, n, h) && !Spread(cfg, bound, Times(h))
  {
    h := BoundIsReached(cfg, n);
    ProperTimes(cfg, n, h);
    var times, k := Times(h), |Times(h)| - Most(cfg, n);
    assert times[k + bound] <= times[|times| - 1];
    assert 0 <= k && k + bound < |times| && times[k + bound] - times[k] <= cfg.window;
  }

  // ---------------------------------------------------------------- all addresses

  type Table = map<string, Attempts>

  /** Which address each connection that was let in and has not guessed yet belongs to. */
  type Callers = map<nat, string>

  /**
   Between asking and the guess lies a wait for the network, so other connections can ask and
   answer in between. A connection that asks has a number of its own.
   */
  datatype Event = Ask(conn: nat, ip: string, now: int) | Answer(conn: nat, right: bool, now: int) | Leave(conn: nat, now: int)

  datatype Desk = Desk(table: Table, callers: Callers)

  function Lookup(l: Table, ip: string): Option<Attempts> {
    if ip in l then Some(l[ip]) else None
  }

  predicate Stale(cfg: Config, a: Attempts, now: int) {
    (a.blockedUntil.None? || now > a.blockedUntil.value) && now - a.windowStart > cfg.window
  }

  function Pruned(cfg: Config, l: Table, now: int): Table {
    map ip | ip in l && !Stale(cfg, l[ip], now) :: l[ip]
  }

  function Failed(cfg: Config, prune: bool, l: Table, ip: string, now: int): Table {
    var kept := if prune && ip !in l && |l| >= cfg.maxIPs then Pruned(cfg, l, now) else l;
    kept[ip := Fail(cfg, Lookup(l, ip), now)]
  }

  function Guessed(cfg: Config, prune: bool, l: Table, ip: string, right: bool, now: int): Table {
    if right then l - {ip} else Failed(cfg, prune, l, ip, now)
  }

  function Step(cfg: Config, prune: bool, d: Desk, ev: Event): Desk {
    match ev
    case Ask(conn, ip, now) =>
      if conn in d.callers || !Open(Lookup(d.table, ip), now) then d else d.(callers := d.callers[conn := ip])
    case Answer(conn, right, now) =>
      if conn !in d.callers then d
      else Desk(Guessed(cfg, prune, d.table, d.callers[conn], right, now), d.callers - {conn})
    case Leave(conn, _) => d.(callers := d.callers - {conn})
  }

  function Run(cfg: Config, prune: bool, events: seq<Event>): Desk {
    if events == [] then Desk(map[], map[])
    else Step(cfg, prune, Run(cfg, prune, events[..|events| - 1]), events[|events| - 1])
  }

  predicate Monotone(events: seq<Event>) {
    forall i, j :: 0 <= i <= j < |events| ==> events[i].now <= events[j].now
  }

  /** Records that answer alike from now on: a pruned one is as good as a stale one. */
  ghost predicate Alike(cfg: Config, a: Option<Attempts>, b: Option<Attempts>, now: int) {
    if a.None? then b.Some? ==> !Blocked(b.value, now) && now - b.value.windowStart > cfg.window
    else
      && b.Some?
      && a.value.fails == b.value.fails
      && a.value.windowStart == b.value.windowStart
      && (a.value.blockedUntil == b.value.blockedUntil || (!Blocked(a.value, now) && !Blocked(b.value, now)))
  }

  ghost predicate AllAlike(cfg: Config, l: Table, u: Table, now: int) {
    forall ip :: Alike(cfg, Lookup(l, ip), Lookup(u, ip), now)
  }

  lemma AlikeAnswers(cfg: Config, a: Option<Attempts>, b: Option<Attempts>, now: int, later: int)
    requires Alike(cfg, a, b, now) && now <= later
    ensures Alike(cfg, a, b, later)
    ensures Open(a, later) <==> Open(b, later)
    ensures Alike(cfg, Some(Fail(cfg, a, later)), Some(Fail(cfg, b, later)), later)
  {
  }

  lemma AllAlikeLater(cfg: Config, l: Table, u: Table, now: int, later: int)
    requires AllAlike(cfg, l, u, now) && now <= later
    ensures AllAlike(cfg, l, u, later)
  {
    forall ip
      ensures Alike(cfg, Lookup(l, ip), Lookup(u, ip), later)
    {
      assert Alike(cfg, Lookup(l, ip), Lookup(u, ip), now);
      AlikeAnswers(cfg, Lookup(l, ip), Lookup(u, ip), now, later);
    }
  }

  lemma PruneIsAlike(cfg: Config, l: Table, u: Table, now: int)
    requires AllAlike(cfg, l, u, now)
    ensures AllAlike(cfg, Pruned(cfg, l, now), u, now)
  {
    forall ip
      ensures Alike(cfg, Lookup(Pruned(cfg, l, now), ip), Lookup(u, ip), now)
    {
      assert Alike(cfg, Lookup(l, ip), Lookup(u, ip), now);
    }
  }

  lemma GuessIsAlike(cfg: Config, l: Table, u: Table, ip: string, right: bool, now: int)
    requires AllAlike(cfg, l, u, now)
    ensures AllAlike(cfg, Guessed(cfg, true, l, ip, right, now), Guessed(cfg, false, u, ip, right, now), now)
  {
    PruneIsAlike(cfg, l, u, now);
    assert Alike(cfg, Lookup(l, ip), Lookup(u, ip), now);
    AlikeAnswers(cfg, Lookup(l, ip), Lookup(u, ip), now, now);
    var l', u' := Guessed(cfg, true, l, ip, right, now), Guessed(cfg, false, u, ip, right, now);
    forall k
      ensures Alike(cfg, Lookup(l', k), Lookup(u', k), now)
    {
      assert Alike(cfg, Lookup(l, k), Lookup(u, k), now);
      assert Alike(cfg, Lookup(Pruned(cfg, l, now), k), Lookup(u, k), now);
    }
  }

  lemma StepIsAlike(cfg: Config, l: Desk, u: Desk, ev: Event)
    requires AllAlike(cfg, l.table, u.table, ev.now) && l.callers == u.callers
    ensures AllAlike(cfg, Step(cfg, true, l, ev).table, Step(cfg, false, u, ev).table, ev.now)
    ensures Step(cfg, true, l, ev).callers == Step(cfg, false, u, ev).callers
  {
    match ev
    case Ask(conn, ip, now) =>
      assert Alike(cfg, Lookup(l.table, ip), Lookup(u.table, ip), now);
      AlikeAnswers(cfg, Lookup(l.table, ip), Lookup(u.table, ip), now, now);
    case Answer(conn, right, now) =>
      if conn in l.callers { GuessIsAlike(cfg, l.table, u.table, l.callers[conn], right, now); }
    case Leave(conn, now) =>
  }

  lemma {:induction false} RunsAreAlike(cfg: Config, events: seq<Event>, now: int)
    requires Monotone(events) && (events != [] ==> events[|events| - 1].now <= now)
    ensures AllAlike(cfg, Run(cfg, true, events).table, Run(cfg, false, events).table, now)
    ensures Run(cfg, true, events).callers == Run(cfg, false, events).callers
    decreases |events|
  {
    if events != [] {
      var n := |events| - 1;
      var front, ev := events[..n], events[n];
      RunsAreAlike(cfg, front, ev.now);
      StepIsAlike(cfg, Run(cfg, true, front), Run(cfg, false, front), ev);
      AllAlikeLater(cfg, Run(cfg, true, events).table, Run(cfg, false, events).table, ev.now, now);
    }
  }

  /** Whether address `ip` would be let in at time `now` is answered the same with pruning and without. */
  lemma PruningIsNeverNoticed(cfg: Config, events: seq<Event>, ip: string, now: int)
    requires Monotone(events) && (events != [] ==> events[|events| - 1].now <= now)
    ensures Open(Lookup(Run(cfg, true, events).table, ip), now) <==> Open(Lookup(Run(cfg, false, events).table, ip), now)
    ensures Run(cfg, true, events).callers == Run(cfg, false, events).callers
  {
    RunsAreAlike(cfg, events, now);
    var l, u := Run(cfg, true, events).table, Run(cfg, false, events).table;
    assert Alike(cfg, Lookup(l, ip), Lookup(u, ip), now);
    AlikeAnswers(cfg, Lookup(l, ip), Lookup(u, ip), now, now);
  }

  // ---------------------------------------------------------------- connections in flight

  function Of(callers: Callers, ip: string): set<nat> {
    set c | c in callers && callers[c] == ip
  }

  /** How many connections of the address have been let in and have not guessed yet. */
  function InFlight(callers: Callers, ip: string): nat {
    |Of(callers, ip)|
  }

  /** At no moment has the address more connections in flight. */
  ghost predicate AtMost(cfg: Config, n: nat, events: seq<Event>, ip: string) {
    forall k :: 0 <= k <= |events| ==> InFlight(Run(cfg, true, events[..k]).callers, ip) <= n
  }

  lemma OneMoreCaller(callers: Callers, conn: nat, ip: string, who: string)
    requires conn !in callers
    ensures InFlight(callers[conn := who], ip) == InFlight(callers, ip) + if who == ip then 1 else 0
  {
    assert Of(callers[conn := who], ip) == Of(callers, ip) + if who == ip then {conn} else {};
  }

  lemma OneCallerLess(callers: Callers, conn: nat, ip: string)
    ensures InFlight(callers - {conn}, ip) == InFlight(callers, ip) - if conn in callers && callers[conn] == ip then 1 else 0
  {
    assert Of(callers - {conn}, ip) == Of(callers, ip) - {conn};
  }

  /** What one event means for the address. */
  function MarkOf(d: Desk, ev: Event, ip: string): Option<Mark> {
    match ev
    case Ask(conn, who, now) =>
      if who != ip || conn in d.callers || !Open(Lookup(d.table, ip), now) then None else Some(LetIn(now))
    case Answer(conn, right, now) =>
      if conn !in d.callers || d.callers[conn] != ip || right then None else Some(Wrong(now))
    case Leave(conn, now) =>
      if conn !in d.callers || d.callers[conn] != ip then None else Some(Gone(now))
  }

  predicate GuessesRight(d: Desk, ev: Event, ip: string) {
    ev.Answer? && ev.right && ev.conn in d.callers && d.callers[ev.conn] == ip
  }

  /** One event more. After a right guess only the connections still in flight are left of the history. */
  function Continue(d: Desk, h: seq<Mark>, ev: Event, ip: string): seq<Mark> {
    if GuessesRight(d, ev, ip) then Enter([], ev.now, InFlight(d.callers - {ev.conn}, ip))
    else
      var m := MarkOf(d, ev, ip);
      if m.None? then h else h + [m.value]
  }

  /** What has happened to the address since it last guessed right. */
  function Since(cfg: Config, events: seq<Event>, ip: string): seq<Mark> {
    if events == [] then []
    else
      var front, ev := events[..|events| - 1], events[|events| - 1];
      Continue(Run(cfg, true, front), Since(cfg, front, ip), ev, ip)
  }

  lemma AtMostBefore(cfg: Config, n: nat, events: seq<Event>, ip: string)
    requires events != [] && AtMost(cfg, n, events, ip)
    ensures AtMost(cfg, n, events[..|events| - 1], ip)
    ensures InFlight(Run(cfg, true, events).callers, ip) <= n
  {
    var front := events[..|events| - 1];
    assert forall k :: 0 <= k <= |front| ==> front[..k] == events[..k];
    assert events[..|events|] == events;
  }

  /** The table without pruning knows the address by its history. */
  ghost predicate Follows(cfg: Config, n: nat, d: Desk, h: seq<Mark>, ip: string, now: int) {
    && Ready(cfg, n, h, now)
    && Lookup(d.table, ip) == After(cfg, Times(h))
    && InFlight(d.callers, ip) == Waiting(h)
  }

  lemma FollowsAsk(cfg: Config, n: nat, d: Desk, h: seq<Mark>, ip: string, conn: nat, now: int)
    requires Follows(cfg, n, d, h, ip, now) && conn !in d.callers && Open(Lookup(d.table, ip), now)
    requires InFlight(d.callers[conn := ip], ip) <= n
    ensures Follows(cfg, n, Desk(d.table, d.callers[conn := ip]), h + [LetIn(now)], ip, now)
  {
    OneMoreCaller(d.callers, conn, ip, ip);
    OneMore(cfg, n, h, LetIn(now));
  }

  lemma FollowsWrong(cfg: Config, n: nat, d: Desk, h: seq<Mark>, ip: string, conn: nat, now: int)
    requires Follows(cfg, n, d, h, ip, now) && conn in d.callers && d.callers[conn] == ip
    ensures Follows(cfg, n, Desk(Failed(cfg, false, d.table, ip, now), d.callers - {conn}), h + [Wrong(now)], ip, now)
  {
    OneCallerLess(d.callers, conn, ip);
    ProperTimes(cfg, n, h);
    OneMore(cfg, n, h, Wrong(now));
    AfterSnoc(cfg, Times(h), now);
  }

  lemma FollowsGone(cfg: Config, n: nat, d: Desk, h: seq<Mark>, ip: string, conn: nat, now: int)
    requires Follows(cfg, n, d, h, ip, now) && conn in d.callers && d.callers[conn] == ip
    ensures Follows(cfg, n, Desk(d.table, d.callers - {conn}), h + [Gone(now)], ip, now)
  {
    OneCallerLess(d.callers, conn, ip);
    ProperTimes(cfg, n, h);
    OneMore(cfg, n, h, Gone(now));
  }

  /** What other addresses do is not noticed. */
  lemma FollowsOthers(cfg: Config, n: nat, d: Desk, h: seq<Mark>, ev: Event, ip: string)
    requires Follows(cfg, n, d, h, ip, ev.now) && !GuessesRight(d, ev, ip) && MarkOf(d, ev, ip).None?
    ensures Follows(cfg, n, Step(cfg, false, d, ev), h, ip, ev.now)
  {
    match ev
    case Ask(conn, who, now) => if conn !in d.callers { OneMoreCaller(d.callers, conn, ip, who); }
    case Answer(conn, right, now) => OneCallerLess(d.callers, conn, ip);
    case Leave(conn, now) => OneCallerLess(d.callers, conn, ip);
  }

  lemma FollowsMark(cfg: Config, n: nat, d: Desk, h: seq<Mark>, ev: Event, m: Mark, ip: string)
    requires Follows(cfg, n, d, h, ip, ev.now) && MarkOf(d, ev, ip) == Some(m)
    requires InFlight(Step(cfg, false, d, ev).callers, ip) <= n
    ensures Follows(cfg, n, Step(cfg, false, d, ev), h + [m], ip, ev.now)
  {
    match ev
    case Ask(conn, _, now) => FollowsAsk(cfg, n, d, h, ip, conn, now);
    case Answer(conn, _, now) => FollowsWrong(cfg, n, d, h, ip, conn, now);
    case Leave(conn, now) => FollowsGone(cfg, n, d, h, ip, conn, now);
  }

  /** `d` prunes and `u` does not. */
  lemma FollowsOn(cfg: Config, n: nat, d: Desk, u: Desk, h: seq<Mark>, ev: Event, ip: string)
    requires Follows(cfg, n, u, h, ip, ev.now) && d.callers == u.callers
    requires Open(Lookup(d.table, ip), ev.now) <==> Open(Lookup(u.table, ip), ev.now)
    requires InFlight(Step(cfg, false, u, ev).callers, ip) <= n
    ensures Follows(cfg, n, Step(cfg, false, u, ev), Continue(d, h, ev, ip), ip, ev.now)
  {
    if GuessesRight(u, ev, ip) {
      OneCallerLess(u.callers, ev.conn, ip);
      EnterMeaning(cfg, n, [], ev.now, InFlight(u.callers - {ev.conn}, ip));
    } else {
      var m := MarkOf(u, ev, ip);
      assert MarkOf(d, ev, ip) == m;
      if m.None? { FollowsOthers(cfg, n, u, h, ev, ip); } else { FollowsMark(cfg, n, u, h, ev, m.value, ip); }
    }
  }

  lemma {:induction false} RecordIsHistory(cfg: Config, n: nat, events: seq<Event>, ip: string, now: int)
    requires Monotone(events) && AtMost(cfg, n, events, ip)
    requires events != [] ==> events[|events| - 1].now <= now
    ensures Follows(cfg, n, Run(cfg, false, events), Since(cfg, events, ip), ip, now)
    decreases |events|
  {
    if events == [] {
      assert Of(map[], ip) == {};
    } else {
      var front, ev := events[..|events| - 1], events[|events| - 1];
      AtMostBefore(cfg, n, events, ip);
      RecordIsHistory(cfg, n, front, ip, ev.now);
      PruningIsNeverNoticed(cfg, front, ip, ev.now);
      PruningIsNeverNoticed(cfg, events, ip, now);
      FollowsOn(cfg, n, Run(cfg, true, front), Run(cfg, false, front), Since(cfg, front, ip), ev, ip);
    }
  }

  /**
   The limiter as it is, with pruning, any mixture of addresses and any number of connections
   under way at once: between two right guesses, no address gets more wrong guesses into one
   window length than the bound for the number of its connections in flight.
   */
  lemma GuessingIsBounded(cfg: Config, n: nat, events: seq<Event>, ip: string)
    requires Monotone(events) && cfg.block > cfg.window >= 0
    requires n >= 1 && AtMost(cfg, n, events, ip)
    ensures Spread(cfg, Most(cfg, n), Times(Since(cfg, events, ip)))
  {
    RecordIsHistory(cfg, n, events, ip, if events == [] then 0 else events[|events| - 1].now);
    GuessesAreSpread(cfg, n, Since(cfg, events, ip));
  }

  // ---------------------------------------------------------------- every history happens

  /** A connection of the address, if one is in flight; otherwise a number not in use. */
  lemma SomeCaller(callers: Callers, ip: string) returns (conn: nat)
    ensures InFlight(callers, ip) > 0 ==> conn in callers && callers[conn] == ip
  {
    conn := 0;
    if InFlight(callers, ip) > 0 {
      conn :| conn in Of(callers, ip);
    }
  }

  lemma NewCaller(callers: Callers) returns (conn: nat)
    ensures conn !in callers
  {
    conn := Above(callers.Keys);
  }

  ghost function Above(s: set<nat>): (n: nat)
    ensures forall x :: x in s ==> x < n
  {
    if s == {} then 0
    else
      var x :| x in s;
      var n := Above(s - {x});
      assert forall y :: y in s ==> y == x || y in s - {x};
      if x < n then n else x + 1
  }

  /** Some event that makes this mark. */
  lemma EventFor(cfg: Config, d: Desk, m: Mark, ip: string) returns (ev: Event)
    requires m.LetIn? ==> Open(Lookup(d.table, ip), m.now)
    requires !m.LetIn? ==> InFlight(d.callers, ip) > 0
    ensures ev.now == m.now && MarkOf(d, ev, ip) == Some(m) && !GuessesRight(d, ev, ip)
    ensures InFlight(Step(cfg, true, d, ev).callers, ip) == InFlight(d.callers, ip) + if m.LetIn? then 1 else -1
  {
    var known := SomeCaller(d.callers, ip);
    var unused := NewCaller(d.callers);
    match m
    case LetIn(now) =>
      ev := Ask(unused, ip, now);
      OneMoreCaller(d.callers, unused, ip, ip);
    case Wrong(now) =>
      ev := Answer(known, false, now);
      OneCallerLess(d.callers, known, ip);
    case Gone(now) =>
      ev := Leave(known, now);
      OneCallerLess(d.callers, known, ip);
  }

  lemma RunSnoc(cfg: Config, events: seq<Event>, ev: Event)
    ensures Run(cfg, true, events + [ev]) == Step(cfg, true, Run(cfg, true, events), ev)
  {
    assert (events + [ev])[..|events|] == events;
  }

  lemma AtMostSnoc(cfg: Config, n: nat, events: seq<Event>, ev: Event, ip: string)
    requires AtMost(cfg, n, events, ip)
    requires InFlight(Run(cfg, true, events + [ev]).callers, ip) <= n
    ensures AtMost(cfg, n, events + [ev], ip)
  {
    var all := events + [ev];
    forall k | 0 <= k <= |all|
      ensures InFlight(Run(cfg, true, all[..k]).callers, ip) <= n
    {
      assert all[..k] == if k <= |events| then events[..k] else all;
    }
  }

  /** A run in which this has happened to the address. */
  ghost predicate Tells(cfg: Config, n: nat, events: seq<Event>, h: seq<Mark>, ip: string) {
    && Monotone(events) && AtMost(cfg, n, events, ip)
    && Since(cfg, events, ip) == h
    && (h == [] ==> events == [])
    && (h != [] ==> events != [] && events[|events| - 1].now == h[|h| - 1].now)
  }

  lemma SinceSnoc(cfg: Config, events: seq<Event>, ev: Event, ip: string)
    ensures Since(cfg, events + [ev], ip) == Continue(Run(cfg, true, events), Since(cfg, events, ip), ev, ip)
  {
    assert (events + [ev])[..|events|] == events;
  }

  lemma MonotoneSnoc(events: seq<Event>, ev: Event)
    requires Monotone(events) && (events != [] ==> events[|events| - 1].now <= ev.now)
    ensures Monotone(events + [ev])
  {
  }

  /** An event that makes the mark, behind a run that tells what was before. */
  lemma TellsOn(cfg: Config, n: nat, events: seq<Event>, h: seq<Mark>, ev: Event, m: Mark, ip: string)
    requires Tells(cfg, n, events, h, ip) && ev.now == m.now && (h != [] ==> h[|h| - 1].now <= m.now)
    requires MarkOf(Run(cfg, true, events), ev, ip) == Some(m) && !GuessesRight(Run(cfg, true, events), ev, ip)
    requires InFlight(Step(cfg, true, Run(cfg, true, events), ev).callers, ip) <= n
    ensures Tells(cfg, n, events + [ev], h + [m], ip)
  {
    RunSnoc(cfg, events, ev);
    MonotoneSnoc(events, ev);
    AtMostSnoc(cfg, n, events, ev, ip);
    SinceSnoc(cfg, events, ev, ip);
  }

  lemma NextEvent(cfg: Config, n: nat, events: seq<Event>, h: seq<Mark>, m: Mark, ip: string) returns (ev: Event)
    requires Tells(cfg, n, events, h, ip) && Ready(cfg, n, h, m.now)
    requires 0 <= Waiting(h) + (if m.LetIn? then 1 else -1) <= n
    requires m.LetIn? ==> Open(After(cfg, Times(h)), m.now)
    ensures var d := Run(cfg, true, events);
            ev.now == m.now && MarkOf(d, ev, ip) == Some(m) && !GuessesRight(d, ev, ip) &&
            InFlight(Step(cfg, true, d, ev).callers, ip) <= n
  {
    RecordIsHistory(cfg, n, events, ip, m.now);
    PruningIsNeverNoticed(cfg, events, ip, m.now);
    ev := EventFor(cfg, Run(cfg, true, events), m, ip);
  }

  /** What the last mark of a history asks of those before it. */
  lemma LastMark(cfg: Config, n: nat, front: seq<Mark>, m: Mark)
    requires Proper(cfg, n, front + [m])
    ensures Ready(cfg, n, front, m.now) && 0 <= Waiting(front) + (if m.LetIn? then 1 else -1) <= n
    ensures m.LetIn? ==> Open(After(cfg, Times(front)), m.now)
  {
    hide After, Times, Open;
    assert (front + [m])[..|front|] == front && (front + [m])[|front|] == m;
  }

  /** Every history of one address is that of some run. */
  lemma {:induction false} Happens(cfg: Config, n: nat, h: seq<Mark>, ip: string) returns (events: seq<Event>)
    requires Proper(cfg, n, h)
    ensures Tells(cfg, n, events, h, ip)
    decreases |h|, 0
  {
    if h == [] {
      events := [];
      assert Of(map[], ip) == {};
    } else {
      var front, m := h[..|h| - 1], h[|h| - 1];
      assert h == front + [m];
      LastMark(cfg, n, front, m);
      events := HappensNext(cfg, n, front, m, ip);
    }
  }

  lemma {:induction false} HappensNext(cfg: Config, n: nat, front: seq<Mark>, m: Mark, ip: string) returns (events: seq<Event>)
    requires Ready(cfg, n, front, m.now) && 0 <= Waiting(front) + (if m.LetIn? then 1 else -1) <= n
    requires m.LetIn? ==> Open(After(cfg, Times(front)), m.now)
    ensures Tells(cfg, n, events, front + [m], ip)
    decreases |front|, 1
  {
    hide Proper, After, Waiting, Open, Times, Tells, Run, MarkOf, GuessesRight, InFlight;
    var before := Happens(cfg, n, front, ip);
    var ev := NextEvent(cfg, n, before, front, m, ip);
    TellsOn(cfg, n, before, front, ev, m, ip);
    events := before + [ev];
  }

  // ---------------------------------------------------------------- exactly when

  /** In every run with at most `n` connections of an address in flight, at most `most` wrong guesses fall into a window. */
  ghost predicate Bounds(cfg: Config, n: nat, most: nat) {
    forall events, ip :: Monotone(events) && AtMost(cfg, n, events, ip) ==> Spread(cfg, most, Times(Since(cfg, events, ip)))
  }

  lemma NotBounds(cfg: Config, n: nat, most: nat, h: seq<Mark>)
    requires Proper(cfg, n, h) && !Spread(cfg, most, Times(h))
    ensures !Bounds(cfg, n, most)
  {
    var events := Happens(cfg, n, h, "");
    assert !Spread(cfg, most, Times(Since(cfg, events, "")));
  }

  lemma MoreIsSpreadToo(cfg: Config, most: nat, more: nat, n: nat, h: seq<Mark>)
    requires Proper(cfg, n, h) && Spread(cfg, most, Times(h)) && most <= more
    ensures Spread(cfg, more, Times(h))
  {
    ProperTimes(cfg, n, h);
    var times := Times(h);
    forall i, j | 0 <= i && i + more == j && j < |times|
      ensures times[j] - times[i] > cfg.window
    {
      assert 0 <= i && i + most < |times| ==> times[i + most] - times[i] > cfg.window;
    }
  }

  lemma BoundsEnough(cfg: Config, n: nat, most: nat)
    requires cfg.block > cfg.window >= 0 && n >= 1 && most >= Most(cfg, n)
    ensures Bounds(cfg, n, most)
  {
    forall events: seq<Event>, ip | Monotone(events) && AtMost(cfg, n, events, ip)
      ensures Spread(cfg, most, Times(Since(cfg, events, ip)))
    {
      GuessingIsBounded(cfg, n, events, ip);
      RecordIsHistory(cfg, n, events, ip, if events == [] then 0 else events[|events| - 1].now);
      MoreIsSpreadToo(cfg, Most(cfg, n), most, n, Since(cfg, events, ip));
    }
  }

  /** The bound holds in every run exactly when a block outlasts the window. */
  lemma BoundHoldsIff(cfg: Config, n: nat)
    requires cfg.window >= 0 && n >= 1
    ensures Bounds(cfg, n, Most(cfg, n)) <==> cfg.block > cfg.window
    ensures DEFAULTS.block > DEFAULTS.window && Most(DEFAULTS, n) == 7 + n
  {
    if cfg.block > cfg.window {
      BoundsEnough(cfg, n, Most(cfg, n));
    } else {
      var h := ShortBlockBreaksTheBound(cfg, n);
      NotBounds(cfg, n, Most(cfg, n), h);
    }
  }

  /** And it is the best one: nothing smaller holds in every run. */
  lemma BoundIsBest(cfg: Config, n: nat, most: nat)
    requires cfg.block > cfg.window >= 1 && n >= 1
    ensures Bounds(cfg, n, most) <==> most >= Most(cfg, n)
  {
    if most >= Most(cfg, n) {
      BoundsEnough(cfg, n, most);
    } else {
      var h := BreaksSmallerBound(cfg, n, most);
      NotBounds(cfg, n, most, h);
    }
  }

  /**
   A window that slid would let in no more than the threshold. This one does so in every run
   exactly when the block outlasts the window, the threshold is at most two, and connections
   of one address come one at a time.
   */
  lemma SlidesExactlyWhen(cfg: Config, n: nat)
    requires cfg.window >= 1 && n >= 1
    ensures Bounds(cfg, n, Threshold(cfg)) <==> cfg.block > cfg.window && cfg.maxFails <= 2 && n == 1
  {
    if cfg.block > cfg.window {
      BoundIsBest(cfg, n, Threshold(cfg));
    } else {
      var h := ShortBlockBreaksTheBound(cfg, n);
      if Spread(cfg, Threshold(cfg), Times(h)) {
        MoreIsSpreadToo(cfg, Threshold(cfg), Most(cfg, n), n, h);
      }
      NotBounds(cfg, n, Threshold(cfg), h);
    }
  }

  /** Connections that are opened together are all let in, however many they are, and all their guesses are recorded at once. */
  lemma OpenedTogether(cfg: Config, k: nat, ip: string) returns (events: seq<Event>)
    ensures Monotone(events) && AtMost(cfg, k, events, ip)
    ensures Times(Since(cfg, events, ip)) == Burst([], 0, k)
  {
    AllTogether(cfg, k, [], 0);
    events := Happens(cfg, k, Miss(Enter([], 0, k), 0, k), ip);
  }

  // ---------------------------------------------------------------- the object

  class PinLimiter {
    const cfg: Config
    var attempts: Table

    constructor (config: Config)
      ensures cfg == config && attempts == map[]
    {
      cfg, attempts := config, map[];
    }

    method Allowed(ip: string, now: int) returns (ok: bool)
      ensures ok == Open(Lookup(attempts, ip), now)
    {
      if ip !in attempts {
        return true;
      }
      var until := attempts[ip].blockedUntil;
      return until.None? || now >= until.value;
    }

    method Prune(now: int)
      modifies this
      ensures attempts == Pruned(cfg, old(attempts), now)
    {
      var left := attempts.Keys;
      ghost var before := attempts;
      while left != {}
        invariant left <= attempts.Keys
        invariant forall ip :: ip in attempts ==> ip in before && attempts[ip] == before[ip]
        invariant forall ip :: ip in before ==> (ip in attempts <==> ip in left || !Stale(cfg, before[ip], now))
        decreases |left|
      {
        var ip :| ip in left;
        var a := attempts[ip];
        if (a.blockedUntil.None? || now > a.blockedUntil.value) && now - a.windowStart > cfg.window {
          attempts := attempts - {ip};
        }
        left := left - {ip};
      }
    }

    method RecordFailure(ip: string, now: int)
      modifies this
      ensures attempts == Failed(cfg, true, old(attempts), ip, now)
    {
      var a := Attempts(0, now, None);
      if ip in attempts {
        a := attempts[ip];
      } else if |attempts| >= cfg.maxIPs {
        Prune(now);
      }
      if now - a.windowStart > cfg.window {
        a := a.(fails := 0, windowStart := now);
      }
      a := a.(fails := a.fails + 1);
      if a.fails >= cfg.maxFails {
        a := Attempts(0, now, Some(now + cfg.block));
      }
      attempts := attempts[ip := a];
    }

    method RecordSuccess(ip: string)
      modifies this
      ensures attempts == old(attempts) - {ip}
    {
      attempts := attempts - {ip};
    }
  }

  /** The two handlers that ask for a PIN or a password, with their connections under way. */
  class Door {
    const limiter: PinLimiter
    var callers: Callers

    ghost function Abs(): Desk
      reads this, limiter
    {
      Desk(limiter.attempts, callers)
    }

    constructor (config: Config)
      ensures Abs() == Desk(map[], map[]) && limiter.cfg == config && fresh(limiter)
    {
      limiter := new PinLimiter(config);
      callers := map[];
    }

    /** The handler's beginning: a blocked address is turned away, anybody else is waited for. */
    method Arrive(conn: nat, ip: string, now: int) returns (ok: bool)
      requires conn !in callers
      modifies this`callers
      ensures Abs() == Step(limiter.cfg, true, old(Abs()), Ask(conn, ip, now))
      ensures ok == (conn in callers)
    {
      ok := limiter.Allowed(ip, now);
      if ok {
        callers := callers[conn := ip];
      }
    }

    /** What was waited for has come: the limiter is told, without being asked again. */
    method TakeGuess(conn: nat, right: bool, now: int)
      requires conn in callers
      modifies this`callers, limiter
      ensures Abs() == Step(limiter.cfg, true, old(Abs()), Answer(conn, right, now))
    {
      if right {
        limiter.RecordSuccess(callers[conn]);
      } else {
        limiter.RecordFailure(callers[conn], now);
      }
      callers := callers - {conn};
    }

    /** A connection that broke off, or said something else, is not counted. */
    method Dismiss(conn: nat, now: int)
      modifies this`callers
      ensures Abs() == Step(limiter.cfg, true, old(Abs()), Leave(conn, now))
    {
      callers := callers - {conn};
    }
  }
}
