/**
 The Annex-B byte stream of ITU-T H.264: cutting it into NAL units and grouping
 the units into access units.
 */
module AnnexB {
  import opened Bytes

  type Nal = seq<byte>

  type AccessUnit = seq<Nal>

  const AUD := 9

  /** The NAL unit type: the low five bits of the first byte. */
  function NalType(nal: Nal): int {
    if |nal| == 0 then 0 else nal[0] % 32
  }

  // ---------------------------------------------------------------- start codes

  predicate StartsAt(data: seq<byte>, i: nat) {
    i + 2 < |data| && data[i] == 0 && data[i + 1] == 0 && data[i + 2] == 1
  }

  /** The first start code at or after position i, or the end when there is none. */
  function NextStart(data: seq<byte>, i: nat): (p: nat)
    requires i <= |data|
    ensures i <= p <= |data|
    ensures p < |data| ==> StartsAt(data, p)
    decreases |data| - i
  {
    if i == |data| || StartsAt(data, i) then i else NextStart(data, i + 1)
  }

  /** No start code is passed over. */
  lemma {:induction false} NextStartIsFirst(data: seq<byte>, i: nat)
    requires i <= |data|
    ensures forall q: nat :: i <= q < NextStart(data, i) ==> !StartsAt(data, q)
    decreases |data| - i
  {
    if i < |data| && !StartsAt(data, i) {
      NextStartIsFirst(data, i + 1);
    }
  }

  lemma {:induction false} NextStartUnique(data: seq<byte>, i: nat, p: nat)
    requires i <= p <= |data|
    requires p < |data| ==> StartsAt(data, p)
    requires forall q: nat :: i <= q < p ==> !StartsAt(data, q)
    ensures NextStart(data, i) == p
    decreases p - i
  {
    if i < p {
      assert !StartsAt(data, i);
      NextStartUnique(data, i + 1, p);
    }
  }

  // ---------------------------------------------------------------- splitting

  /** Where the bytes i..j end once their trailing zeros are dropped. */
  function UnitEnd(data: seq<byte>, i: nat, j: nat): (e: nat)
    requires i <= j <= |data|
    ensures i <= e <= j
  {
    if i < j && data[j - 1] == 0 then UnitEnd(data, i, j - 1) else j
  }

  /** What the bytes behind one start code contribute: nothing when they are all zero. */
  function UnitAt(data: seq<byte>, i: nat, j: nat): seq<Nal>
    requires i <= j <= |data|
  {
    var e := UnitEnd(data, i, j);
    if e == i then [] else [data[i..e]]
  }

  /** The units closed by a later start code, and where the last start code is. */
  datatype Scan = Scan(nals: seq<Nal>, last: nat)

  function ScanFrom(data: seq<byte>, f: nat): (scan: Scan)
    requires StartsAt(data, f)
    ensures f <= scan.last < |data|
    decreases |data| - f
  {
    var g := NextStart(data, f + 3);
    if g == |data| then Scan([], f)
    else var scan := ScanFrom(data, g); Scan(UnitAt(data, f + 3, g) + scan.nals, scan.last)
  }

  datatype Cut = Cut(nals: seq<Nal>, rest: seq<byte>)

  /** The complete units of a byte run, and the unterminated tail with its start code. */
  function Split(data: seq<byte>): Cut {
    var f := NextStart(data, 0);
    if f == |data| then Cut([], data)
    else var scan := ScanFrom(data, f); Cut(scan.nals, data[scan.last..])
  }

  /** The start codes a scan has collected, each the next one after its predecessor. */
  predicate Chain(data: seq<byte>, starts: seq<nat>) {
    starts == [] ||
    (var n := |starts| - 1;
     && StartsAt(data, starts[n])
     && Chain(data, starts[..n])
     && (n > 0 ==> starts[n - 1] + 3 <= |data| && starts[n] == NextStart(data, starts[n - 1] + 3)))
  }

  lemma ChainSnoc(data: seq<byte>, starts: seq<nat>, i: nat)
    requires Chain(data, starts) && StartsAt(data, i)
    requires starts != [] ==> starts[|starts| - 1] + 3 <= |data| && NextStart(data, starts[|starts| - 1] + 3) == i
    ensures Chain(data, starts + [i])
  {
    assert (starts + [i])[..|starts|] == starts;
  }

  lemma {:induction false} ChainAt(data: seq<byte>, starts: seq<nat>, k: nat)
    requires Chain(data, starts) && k < |starts|
    ensures StartsAt(data, starts[k])
    ensures k + 1 < |starts| ==> starts[k + 1] == NextStart(data, starts[k] + 3)
    decreases |starts|
  {
    var n := |starts| - 1;
    if k < n {
      ChainAt(data, starts[..n], k);
    }
  }

  predicate Spaced(data: seq<byte>, starts: seq<nat>) {
    && (forall k :: 0 <= k < |starts| ==> starts[k] + 3 <= |data|)
    && (forall j, k :: 0 <= j < |starts| && k == j + 1 < |starts| ==> starts[j] + 3 <= starts[k])
  }

  lemma SpacedAt(data: seq<byte>, starts: seq<nat>, k: nat)
    requires Spaced(data, starts) && k + 1 < |starts|
    ensures starts[k] + 3 <= starts[k + 1] <= |data|
  {
    assert starts[k + 1] + 3 <= |data|;
  }

  function UnitsOfChain(data: seq<byte>, starts: seq<nat>, k: nat): seq<Nal>
    requires k < |starts| && Spaced(data, starts)
    decreases |starts| - k
  {
    if k + 1 == |starts| then []
    else UnitAt(data, starts[k] + 3, starts[k + 1]) + UnitsOfChain(data, starts, k + 1)
  }

  lemma ChainIsSpaced(data: seq<byte>, starts: seq<nat>)
    requires Chain(data, starts)
    ensures Spaced(data, starts)
  {
    forall k | 0 <= k < |starts|
      ensures starts[k] + 3 <= |data| && (k + 1 < |starts| ==> starts[k] + 3 <= starts[k + 1])
    {
      ChainAt(data, starts, k);
    }
  }

  lemma {:induction false} ChainIsScan(data: seq<byte>, starts: seq<nat>, k: nat)
    requires Chain(data, starts) && Spaced(data, starts) && k < |starts|
    requires NextStart(data, starts[|starts| - 1] + 3) == |data|
    ensures StartsAt(data, starts[k])
    ensures ScanFrom(data, starts[k]) == Scan(UnitsOfChain(data, starts, k), starts[|starts| - 1])
    decreases |starts| - k
  {
    ChainAt(data, starts, k);
    if k + 1 < |starts| {
      ChainIsScan(data, starts, k + 1);
    }
  }

  method FindStarts(data: seq<byte>) returns (starts: seq<nat>)
    ensures Chain(data, starts)
    ensures NextStart(data, 0) == if starts == [] then |data| else starts[0]
    ensures starts != [] ==> NextStart(data, starts[|starts| - 1] + 3) == |data|
  {
    starts := [];
    assert Chain(data, starts);
    hide Chain;
    var i: nat := 0;
    while i + 2 < |data|
      invariant i <= |data|
      invariant Chain(data, starts)
      invariant |starts| > 0 ==> starts[0] == NextStart(data, 0) && starts[|starts| - 1] + 3 <= i
      invariant NextStart(data, i) == NextStart(data, if starts == [] then 0 else starts[|starts| - 1] + 3)
    {
      if data[i] == 0 && data[i + 1] == 0 && data[i + 2] == 1 {
        ChainSnoc(data, starts, i);
        starts := starts + [i];
        i := i + 3;
      } else {
        i := i + 1;
      }
    }
    NextStartUnique(data, i, |data|);
  }

  method SplitNALUnits(data: seq<byte>) returns (nals: seq<Nal>, rest: seq<byte>)
    ensures Cut(nals, rest) == Split(data)
  {
    var starts := FindStarts(data);
    if |starts| == 0 {
      return [], data;
    }
    ChainIsSpaced(data, starts);
    ChainIsScan(data, starts, 0);
    nals := CutUnits(data, starts);
    rest := data[starts[|starts| - 1]..];
  }

  method CutUnits(data: seq<byte>, starts: seq<nat>) returns (nals: seq<Nal>)
    requires starts != [] && Spaced(data, starts)
    ensures nals == UnitsOfChain(data, starts, 0)
  {
    hide Spaced, UnitAt;
    nals := [];
    var k := 0;
    while k + 1 < |starts|
      invariant 0 <= k < |starts|
      invariant nals + UnitsOfChain(data, starts, k) == UnitsOfChain(data, starts, 0)
    {
      SpacedAt(data, starts, k);
      var unit := CutUnit(data, starts[k] + 3, starts[k + 1]);
      Assoc(nals, unit, UnitsOfChain(data, starts, k + 1));
      nals := nals + unit;
      k := k + 1;
    }
    assert UnitsOfChain(data, starts, k) == [] && nals + [] == nals;
  }

  /** One unit, or none if nothing is left of it without its trailing zeros. */
  method CutUnit(data: seq<byte>, i: nat, j: nat) returns (unit: seq<Nal>)
    requires i <= j <= |data|
    ensures unit == UnitAt(data, i, j)
  {
    unit := [];
    var end := TrimTrailingZeros(data, i, j);
    if end > i {
      unit := [data[i..end]];
    }
  }

  method TrimTrailingZeros(data: seq<byte>, i: nat, j: nat) returns (end: nat)
    requires i <= j <= |data|
    ensures end == UnitEnd(data, i, j)
  {
    end := j;
    while end > i && data[end - 1] == 0
      invariant i <= end <= j
      invariant UnitEnd(data, i, end) == UnitEnd(data, i, j)
    {
      end := end - 1;
    }
  }

  // ---------------------------------------------------------------- chunk independence

  /** A start code found in a prefix is found at the same place in the whole. */
  lemma {:induction false} NextStartExtend(data: seq<byte>, n: nat, i: nat)
    requires i <= n <= |data| && NextStart(data[..n], i) < n
    ensures NextStart(data, i) == NextStart(data[..n], i)
    decreases n - i
  {
    if !StartsAt(data[..n], i) {
      assert !StartsAt(data, i);
      NextStartExtend(data, n, i + 1);
    }
  }

  lemma {:induction false} UnitExtend(data: seq<byte>, n: nat, i: nat, j: nat)
    requires i <= j <= n <= |data|
    ensures UnitEnd(data, i, j) == UnitEnd(data[..n], i, j)
    ensures UnitAt(data, i, j) == UnitAt(data[..n], i, j)
  {
    if i < j { UnitExtend(data, n, i, j - 1); }
    SliceOfTake(data, n, i, UnitEnd(data, i, j));
  }

  /** `tail` is what `data` holds from position k on. */
  predicate IsTail(data: seq<byte>, k: nat, tail: seq<byte>) {
    k + |tail| == |data| && forall i {:trigger tail[i]} :: 0 <= i < |tail| ==> tail[i] == data[k + i]
  }

  lemma StartsInTail(data: seq<byte>, k: nat, tail: seq<byte>, i: nat)
    requires IsTail(data, k, tail)
    ensures StartsAt(data, k + i) <==> StartsAt(tail, i)
  {
    if i + 2 < |tail| {
      assert tail[i] == data[k + i] && tail[i + 1] == data[k + (i + 1)] && tail[i + 2] == data[k + (i + 2)];
    }
  }

  lemma {:induction false} NextStartShift(data: seq<byte>, k: nat, tail: seq<byte>, i: nat)
    requires IsTail(data, k, tail) && i <= |tail|
    ensures NextStart(data, k + i) == k + NextStart(tail, i)
    decreases |tail| - i
  {
    if i < |tail| {
      StartsInTail(data, k, tail, i);
      if !StartsAt(tail, i) {
        NextStartShift(data, k, tail, i + 1);
      }
    }
  }

  lemma {:induction false} UnitEndShift(data: seq<byte>, k: nat, tail: seq<byte>, i: nat, j: nat)
    requires IsTail(data, k, tail) && i <= j <= |tail|
    ensures UnitEnd(data, k + i, k + j) == k + UnitEnd(tail, i, j)
  {
    if i < j {
      assert tail[j - 1] == data[k + (j - 1)];
      UnitEndShift(data, k, tail, i, j - 1);
    }
  }

  lemma UnitShift(data: seq<byte>, k: nat, tail: seq<byte>, i: nat, j: nat)
    requires IsTail(data, k, tail) && i <= j <= |tail|
    ensures UnitAt(data, k + i, k + j) == UnitAt(tail, i, j)
  {
    UnitEndShift(data, k, tail, i, j);
    SliceOfTail(data, k, tail, i, UnitEnd(tail, i, j));
  }

  lemma SliceOfTail(data: seq<byte>, k: nat, tail: seq<byte>, i: nat, j: nat)
    requires IsTail(data, k, tail) && i <= j <= |tail|
    ensures data[k + i..k + j] == tail[i..j]
    ensures data[k + i..] == tail[i..]
  {
    assert forall x :: i <= x < |tail| ==> tail[i..][x - i] == tail[x] == data[k + x] == data[k + i..][x - i];
  }

  /** What is cut off behind a start code does not depend on the bytes before it. */
  lemma {:induction false} ScanShift(data: seq<byte>, k: nat, tail: seq<byte>, f: nat)
    requires IsTail(data, k, tail) && StartsAt(tail, f)
    ensures StartsAt(data, k + f)
    ensures ScanFrom(data, k + f) == Scan(ScanFrom(tail, f).nals, k + ScanFrom(tail, f).last)
    decreases |tail| - f
  {
    var g := NextStart(tail, f + 3);
    StartShift(data, k, tail, f, g);
    if g < |tail| {
      ScanShift(data, k, tail, g);
      UnitShift(data, k, tail, f + 3, g);
    }
    ScanShiftFrom(data, k, tail, f, g);
  }

  lemma ScanInTail(data: seq<byte>, k: nat, tail: seq<byte>, f: nat) returns (scan: Scan)
    requires IsTail(data, k, tail) && StartsAt(tail, f)
    ensures StartsAt(data, k + f) && f <= scan.last < |tail|
    ensures scan == ScanFrom(tail, f) && ScanFrom(data, k + f) == Scan(scan.nals, k + scan.last)
    ensures data[k + scan.last..] == tail[scan.last..]
  {
    scan := ScanFrom(tail, f);
    ScanShift(data, k, tail, f);
    SliceOfTail(data, k, tail, scan.last, scan.last);
  }

  lemma StartShift(data: seq<byte>, k: nat, tail: seq<byte>, f: nat, g: nat)
    requires IsTail(data, k, tail) && StartsAt(tail, f) && g == NextStart(tail, f + 3)
    ensures StartsAt(data, k + f) && NextStart(data, k + f + 3) == k + g
    ensures g < |tail| ==> StartsAt(tail, g) && StartsAt(data, k + g)
  {
    StartsInTail(data, k, tail, f);
    StartsInTail(data, k, tail, g);
    NextStartShift(data, k, tail, f + 3);
  }

  lemma ScanShiftFrom(data: seq<byte>, k: nat, tail: seq<byte>, f: nat, g: nat)
    requires k + |tail| == |data| && StartsAt(tail, f) && StartsAt(data, k + f)
    requires f + 3 <= g <= |tail| && NextStart(tail, f + 3) == g && NextStart(data, k + f + 3) == k + g
    requires g < |tail| ==>
               && StartsAt(tail, g) && StartsAt(data, k + g)
               && ScanFrom(data, k + g) == Scan(ScanFrom(tail, g).nals, k + ScanFrom(tail, g).last)
               && UnitAt(data, k + (f + 3), k + g) == UnitAt(tail, f + 3, g)
    ensures ScanFrom(data, k + f) == Scan(ScanFrom(tail, f).nals, k + ScanFrom(tail, f).last)
  {
    if g == |tail| {
      ScanEnds(tail, f);
      ScanEnds(data, k + f);
    } else {
      var scan := ScanFrom(tail, g);
      ScanStep(tail, f, g, scan);
      ScanStep(data, k + f, k + g, Scan(scan.nals, k + scan.last));
    }
  }

  lemma ScanEnds(data: seq<byte>, f: nat)
    requires StartsAt(data, f) && NextStart(data, f + 3) == |data|
    ensures ScanFrom(data, f) == Scan([], f)
  {
  }

  lemma {:induction false} ScanExtend(data: seq<byte>, n: nat, f: nat)
    requires n <= |data| && StartsAt(data[..n], f)
    ensures StartsAt(data, f) && StartsAt(data, ScanFrom(data[..n], f).last)
    ensures var scan := ScanFrom(data[..n], f);
            var more := ScanFrom(data, scan.last);
            ScanFrom(data, f) == Scan(scan.nals + more.nals, more.last)
    decreases n - f
  {
    var g := NextStart(data[..n], f + 3);
    if g < n {
      NextStartExtend(data, n, f + 3);
      ScanExtend(data, n, g);
      UnitExtend(data, n, f + 3, g);
      var scan := ScanFrom(data[..n], g);
      Assoc(UnitAt(data, f + 3, g), scan.nals, ScanFrom(data, scan.last).nals);
    }
  }

  /** Cutting bytes that begin with a start code. */
  lemma SplitBehind(tail: seq<byte>, scan: Scan)
    requires StartsAt(tail, 0) && ScanFrom(tail, 0) == scan
    ensures Split(tail) == Cut(scan.nals, tail[scan.last..])
  {
    assert NextStart(tail, 0) == 0;
  }

  /** Cutting the bytes from a start code on, seen from the bytes as a whole. */
  lemma SplitInTail(data: seq<byte>, k: nat, tail: seq<byte>)
    requires IsTail(data, k, tail) && StartsAt(tail, 0)
    ensures StartsAt(data, k)
    ensures Split(tail) == Cut(ScanFrom(data, k).nals, data[ScanFrom(data, k).last..])
  {
    hide *;
    var scan := ScanInTail(data, k, tail, 0);
    SplitBehind(tail, scan);
  }

  lemma RestInSum(a: seq<byte>, b: seq<byte>, k: nat)
    requires k <= |a|
    ensures IsTail(a + b, k, a[k..] + b)
  {
  }

  /** The bytes before the first start code are left out, whatever comes behind. */
  lemma SplitExtend(data: seq<byte>, n: nat, f: nat)
    requires n <= |data| && f < n && NextStart(data[..n], 0) == f
    ensures StartsAt(data[..n], f) && StartsAt(data, ScanFrom(data[..n], f).last)
    ensures var scan := ScanFrom(data[..n], f);
            var more := ScanFrom(data, scan.last);
            Split(data) == Cut(scan.nals + more.nals, data[more.last..])
  {
    NextStartExtend(data, n, 0);
    ScanExtend(data, n, f);
    SplitFrom(data, f, ScanFrom(data, f));
  }

  /** Cutting a + b equals cutting a, then cutting what a left over followed by b. */
  lemma SplitResumes(a: seq<byte>, b: seq<byte>)
    ensures var first, second := Split(a), Split(Split(a).rest + b);
            Split(a + b) == Cut(first.nals + second.nals, second.rest)
  {
    var f := NextStart(a, 0);
    if f < |a| {
      var data, scan := a + b, ScanFrom(a, f);
      assert data[..|a|] == a;
      SplitExtend(data, |a|, f);
      SplitFrom(a, f, scan);
      RestInSum(a, b, scan.last);
      StartsInTail(data, scan.last, a[scan.last..] + b, 0);
      SplitInTail(data, scan.last, a[scan.last..] + b);
    }
  }

  // ---------------------------------------------------------------- round trip

  function Zeros(n: nat): seq<byte> {
    if n == 0 then [] else Zeros(n - 1) + [0]
  }

  lemma {:induction false} ZerosAreZero(n: nat)
    ensures |Zeros(n)| == n && forall i :: 0 <= i < n ==> Zeros(n)[i] == 0
  {
    if n > 0 { ZerosAreZero(n - 1); }
  }

  /** A unit as H.264 allows it: not empty, no trailing zero byte, no start code inside. */
  predicate WellFormed(nal: Nal) {
    nal != [] && nal[|nal| - 1] != 0 && forall i: nat :: i < |nal| ==> !StartsAt(nal, i)
  }

  /** Each unit behind a start code of pad[k] + 2 zero bytes and a one. */
  function Write(nals: seq<Nal>, pad: seq<nat>): seq<byte>
    requires |nals| == |pad|
  {
    if nals == [] then []
    else Zeros(pad[0]) + [0, 0, 1] + nals[0] + Write(nals[1..], pad[1..])
  }

  /** Dropping trailing zeros undoes the padding behind a unit. */
  lemma {:induction false} TrimDropsPadding(data: seq<byte>, i: nat, e: nat, j: nat)
    requires i < e <= j <= |data| && data[e - 1] != 0
    requires forall p :: e <= p < j ==> data[p] == 0
    ensures UnitAt(data, i, j) == [data[i..e]]
  {
    if e < j { TrimDropsPadding(data, i, e, j - 1); }
  }

  /** The first start code of written bytes comes right after the padding. */
  lemma WriteBegins(nals: seq<Nal>, pad: seq<nat>)
    requires |nals| == |pad| && nals != []
    ensures StartsAt(Write(nals, pad), pad[0]) && NextStart(Write(nals, pad), 0) == pad[0]
  {
    ZerosAreZero(pad[0]);
    var data := Write(nals, pad);
    assert data == Zeros(pad[0]) + [0, 0, 1] + (nals[0] + Write(nals[1..], pad[1..]));
    assert forall p :: 0 <= p < pad[0] + 2 ==> data[p] == 0;
    NextStartUnique(data, 0, pad[0]);
  }

  /** No start code begins inside a well-formed unit or straddles its end. */
  lemma {:induction false} UnitHidesNoStart(data: seq<byte>, from: nat, end: nat, i: nat)
    requires from <= i <= end <= |data| && WellFormed(data[from..end])
    ensures NextStart(data, i) == NextStart(data, end)
    decreases end - i
  {
    if i < end {
      var nal := data[from..end];
      assert nal[|nal| - 1] == data[end - 1];
      assert !StartsAt(data, i) by {
        assert !StartsAt(nal, i - from);
        if i + 2 < end {
          assert nal[i - from] == data[i] && nal[i - from + 1] == data[i + 1] && nal[i - from + 2] == data[i + 2];
        }
      }
      UnitHidesNoStart(data, from, end, i + 1);
    }
  }

  /** Every unit but the last comes back byte for byte; the last waits behind its start code. */
  lemma {:induction false} SplitInvertsWrite(nals: seq<Nal>, pad: seq<nat>)
    requires |nals| == |pad| && nals != []
    requires forall k :: 0 <= k < |nals| ==> WellFormed(nals[k])
    ensures Split(Write(nals, pad)) == Cut(nals[..|nals| - 1], [0, 0, 1] + nals[|nals| - 1])
  {
    if |nals| == 1 {
      WriteOfOne(nals[0], pad[0]);
      assert Write(nals, pad) == Zeros(pad[0]) + [0, 0, 1] + nals[0];
    } else {
      WriteResumes(nals, pad);
      SplitInvertsWrite(nals[1..], pad[1..]);
      assert nals[..|nals| - 1] == [nals[0]] + nals[1..][..|nals| - 2];
    }
  }

  lemma WriteOfOne(nal: Nal, n: nat)
    requires WellFormed(nal)
    ensures Split(Zeros(n) + [0, 0, 1] + nal) == Cut([], [0, 0, 1] + nal)
  {
    hide Split, ScanFrom, NextStart, WellFormed;
    var data := Zeros(n) + [0, 0, 1] + nal;
    WriteBegins([nal], [n]);
    ZerosAreZero(n);
    assert Write([nal], [n]) == data;
    assert data[n..] == [0, 0, 1] + nal;
    LastUnit(data, n, nal);
  }

  lemma LastUnit(data: seq<byte>, n: nat, nal: Nal)
    requires WellFormed(nal) && n + 3 <= |data| && data[n + 3..] == nal
    requires StartsAt(data, n) && NextStart(data, 0) == n
    ensures Split(data) == Cut([], data[n..])
  {
    assert data[n + 3..|data|] == nal;
    UnitHidesNoStart(data, n + 3, |data|, n + 3);
    SplitFrom(data, n, Scan([], n));
  }

  /** The first unit is cut off whole, whatever padding follows it. */
  lemma WriteResumes(nals: seq<Nal>, pad: seq<nat>)
    requires |nals| == |pad| && |nals| > 1 && WellFormed(nals[0])
    ensures var after := Split(Write(nals[1..], pad[1..]));
            Split(Write(nals, pad)) == Cut([nals[0]] + after.nals, after.rest)
  {
    var more, pads := nals[1..], pad[1..];
    WriteBegins(nals, pad);
    WriteLayout(nals, pad);
    WriteBegins(more, pads);
    WritePadding(more, pads);
    ResumeBehind(Write(nals, pad), pad[0], pad[0] + 3 + |nals[0]|, nals[0], Write(more, pads), pads[0]);
  }

  lemma WritePadding(nals: seq<Nal>, pad: seq<nat>)
    requires |nals| == |pad| && nals != []
    ensures pad[0] <= |Write(nals, pad)| && forall p :: 0 <= p < pad[0] ==> Write(nals, pad)[p] == 0
  {
    ZerosAreZero(pad[0]);
  }

  lemma ResumeBehind(data: seq<byte>, n: nat, k: nat, nal: Nal, after: seq<byte>, m: nat)
    requires WellFormed(nal) && n + 3 <= k <= |data| && data[n + 3..k] == nal && IsTail(data, k, after)
    requires StartsAt(data, n) && NextStart(data, 0) == n
    requires StartsAt(after, m) && NextStart(after, 0) == m
    requires forall p :: 0 <= p < m ==> after[p] == 0
    ensures Split(data) == Cut([nal] + Split(after).nals, Split(after).rest)
  {
    FirstUnit(data, n, k, nal, after, m);
    CutFirst(data, n, k, after, m, [nal]);
  }

  lemma CutFirst(data: seq<byte>, n: nat, k: nat, after: seq<byte>, m: nat, first: seq<Nal>)
    requires n + 3 <= k && IsTail(data, k, after)
    requires StartsAt(data, n) && NextStart(data, 0) == n
    requires StartsAt(after, m) && NextStart(after, 0) == m
    requires NextStart(data, n + 3) == k + m && UnitAt(data, n + 3, k + m) == first
    ensures Split(data) == Cut(first + Split(after).nals, Split(after).rest)
  {
    hide *;
    var scan := ScanInTail(data, k, after, m);
    SplitFrom(after, m, scan);
    SplitFromNext(data, n, k + m, first, Scan(scan.nals, k + scan.last));
  }

  lemma SplitFromNext(data: seq<byte>, n: nat, g: nat, first: seq<Nal>, scan: Scan)
    requires StartsAt(data, n) && NextStart(data, 0) == n && NextStart(data, n + 3) == g
    requires StartsAt(data, g) && ScanFrom(data, g) == scan && UnitAt(data, n + 3, g) == first
    ensures Split(data) == Cut(first + scan.nals, data[scan.last..])
  {
    ScanStep(data, n, g, scan);
    SplitFrom(data, n, Scan(first + scan.nals, scan.last));
  }

  lemma ScanStep(data: seq<byte>, f: nat, g: nat, scan: Scan)
    requires StartsAt(data, f) && NextStart(data, f + 3) == g && StartsAt(data, g) && ScanFrom(data, g) == scan
    ensures ScanFrom(data, f) == Scan(UnitAt(data, f + 3, g) + scan.nals, scan.last)
  {
  }

  lemma SplitFrom(data: seq<byte>, f: nat, scan: Scan)
    requires StartsAt(data, f) && NextStart(data, 0) == f && ScanFrom(data, f) == scan
    ensures Split(data) == Cut(scan.nals, data[scan.last..])
  {
  }

  lemma FirstUnit(data: seq<byte>, n: nat, k: nat, nal: Nal, after: seq<byte>, m: nat)
    requires WellFormed(nal) && n + 3 <= k <= |data| && data[n + 3..k] == nal && IsTail(data, k, after)
    requires m <= |after| && NextStart(after, 0) == m
    requires forall p :: 0 <= p < m ==> after[p] == 0
    ensures NextStart(data, n + 3) == k + m
    ensures UnitAt(data, n + 3, k + m) == [nal]
  {
    UnitHidesNoStart(data, n + 3, k, n + 3);
    NextStartShift(data, k, after, 0);
    forall p | k <= p < k + m
      ensures data[p] == 0
    {
      assert data[p] == after[p - k];
    }
    assert data[k - 1] == nal[|nal| - 1];
    TrimDropsPadding(data, n + 3, k, k + m);
  }

  lemma WriteLayout(nals: seq<Nal>, pad: seq<nat>)
    requires |nals| == |pad| && nals != []
    ensures var data, k := Write(nals, pad), pad[0] + 3 + |nals[0]|;
            && k <= |data|
            && data[pad[0] + 3..k] == nals[0]
            && IsTail(data, k, Write(nals[1..], pad[1..]))
  {
    ZerosAreZero(pad[0]);
  }

  // ---------------------------------------------------------------- access units

  datatype Grouping = Grouping(done: seq<AccessUnit>, open: AccessUnit)

  function Close(g: Grouping): Grouping {
    if |g.open| > 0 then Grouping(g.done + [g.open], []) else g
  }

  function Take(g: Grouping, nal: Nal): Grouping {
    if NalType(nal) == AUD then Close(g) else g.(open := g.open + [nal])
  }

  function Group(g: Grouping, nals: seq<Nal>): Grouping
    decreases |nals|
  {
    if nals == [] then g else Group(Take(g, nals[0]), nals[1..])
  }

  const EMPTY := Grouping([], [])

  /** The access units of a whole unit sequence, its unterminated last one included. */
  function AccessUnits(nals: seq<Nal>): seq<AccessUnit> {
    Close(Group(EMPTY, nals)).done
  }

  /** The access units that a delimiter has terminated. */
  function Terminated(nals: seq<Nal>): seq<AccessUnit> {
    Group(EMPTY, nals).done
  }

  method GroupNALsIntoAUs(nals: seq<Nal>) returns (aus: seq<AccessUnit>)
    ensures aus == AccessUnits(nals)
  {
    aus := [];
    var cur: AccessUnit := [];
    for i := 0 to |nals|
      invariant Group(Grouping(aus, cur), nals[i..]) == Group(EMPTY, nals)
    {
      assert nals[i..][1..] == nals[i + 1..];
      if NalType(nals[i]) == AUD {
        if |cur| > 0 {
          aus := aus + [cur];
          cur := [];
        }
      } else {
        cur := cur + [nals[i]];
      }
    }
    if |cur| > 0 {
      aus := aus + [cur];
    }
  }

  lemma {:induction false} GroupAppend(g: Grouping, a: seq<Nal>, b: seq<Nal>)
    ensures Group(g, a + b) == Group(Group(g, a), b)
    decreases |a|
  {
    if a == [] {
      assert a + b == b;
    } else {
      GroupAppend(Take(g, a[0]), a[1..], b);
      assert (a + b)[1..] == a[1..] + b;
    }
  }

  lemma {:induction false} GroupKeepsDone(done: seq<AccessUnit>, open: AccessUnit, nals: seq<Nal>)
    ensures Group(Grouping(done, open), nals)
         == Grouping(done + Group(Grouping([], open), nals).done, Group(Grouping([], open), nals).open)
    decreases |nals|
  {
    if nals != [] {
      var g, h := Take(Grouping(done, open), nals[0]), Take(Grouping([], open), nals[0]);
      GroupKeepsDone(g.done, g.open, nals[1..]);
      GroupKeepsDone(h.done, h.open, nals[1..]);
      assert g.done == done + h.done;
    }
  }

  lemma {:induction false} GroupWithoutDelimiter(g: Grouping, nals: seq<Nal>)
    requires forall k :: 0 <= k < |nals| ==> NalType(nals[k]) != AUD
    ensures Group(g, nals) == Grouping(g.done, g.open + nals)
    decreases |nals|
  {
    if nals != [] {
      GroupWithoutDelimiter(Take(g, nals[0]), nals[1..]);
    }
  }

  function Undelimited(nals: seq<Nal>): seq<Nal> {
    if nals == [] then []
    else (if NalType(nals[0]) == AUD then [] else [nals[0]]) + Undelimited(nals[1..])
  }

  predicate NoDelimiter(au: AccessUnit) {
    forall k :: 0 <= k < |au| ==> NalType(au[k]) != AUD
  }

  predicate Grouped(done: seq<AccessUnit>) {
    forall k :: 0 <= k < |done| ==> done[k] != [] && NoDelimiter(done[k])
  }

  lemma FlattenMore(done: seq<AccessUnit>, au: AccessUnit)
    ensures Flatten(done + [au]) == Flatten(done) + au
  {
    FlattenAppend(done, [au]);
    assert Flatten([au]) == au + Flatten([]) == au;
  }

  lemma TakeKeepsUnits(g: Grouping, nal: Nal)
    requires Grouped(g.done) && NoDelimiter(g.open)
    ensures var r := Take(g, nal);
            && Grouped(r.done) && NoDelimiter(r.open)
            && Flatten(r.done) + r.open == Flatten(g.done) + g.open + if NalType(nal) == AUD then [] else [nal]
  {
    FlattenMore(g.done, g.open);
    Assoc(Flatten(g.done), g.open, [nal]);
  }

  lemma {:induction false} GroupKeepsUnits(g: Grouping, nals: seq<Nal>)
    requires Grouped(g.done) && NoDelimiter(g.open)
    ensures var r := Group(g, nals);
            && Grouped(r.done) && NoDelimiter(r.open)
            && Flatten(r.done) + r.open == Flatten(g.done) + g.open + Undelimited(nals)
    decreases |nals|
  {
    if nals == [] {
      assert Flatten(g.done) + g.open + [] == Flatten(g.done) + g.open;
    } else {
      TakeKeepsUnits(g, nals[0]);
      GroupKeepsUnits(Take(g, nals[0]), nals[1..]);
      var one := if NalType(nals[0]) == AUD then [] else [nals[0]];
      Assoc(Flatten(g.done) + g.open, one, Undelimited(nals[1..]));
    }
  }

  /** Access units are not empty, hold no delimiter, and together are all other units in order. */
  lemma GroupingLosesNothing(nals: seq<Nal>)
    ensures Grouped(AccessUnits(nals)) && Flatten(AccessUnits(nals)) == Undelimited(nals)
  {
    GroupKeepsUnits(EMPTY, nals);
    var g := Group(EMPTY, nals);
    FlattenMore(g.done, g.open);
    assert [] + Undelimited(nals) == Undelimited(nals);
    assert Flatten(EMPTY.done) + EMPTY.open == [];
  }

  /**
   The grouping is the one that delimiters mean: units without a delimiter form
   one access unit, and a delimiter separates what is before it from what is after.
   */
  lemma GroupingMeaning(a: seq<Nal>, delimiter: Nal, b: seq<Nal>)
    requires delimiter != [] && delimiter[0] % 32 == 9
    ensures AccessUnits(a + [delimiter] + b) == AccessUnits(a) + AccessUnits(b)
    ensures Terminated(a + [delimiter] + b) == AccessUnits(a) + Terminated(b)
    ensures (forall k :: 0 <= k < |a| ==> a[k] == [] || a[k][0] % 32 != 9) ==> AccessUnits(a) == if a == [] then [] else [a]
  {
    GroupAppend(EMPTY, a + [delimiter], b);
    GroupAppend(EMPTY, a, [delimiter]);
    var g := Group(EMPTY, a);
    assert Group(g, [delimiter]) == Close(g);
    GroupKeepsDone(Close(g).done, [], b);
    if forall k :: 0 <= k < |a| ==> NalType(a[k]) != AUD {
      GroupWithoutDelimiter(EMPTY, a);
      assert [] + a == a;
    }
  }
}
