/**
 From an Annex-B byte stream, read in arbitrary pieces, to the operations on the
 channel's fan-out hub: access units, muxed into an init segment and fragments.
 */
module Ingest {
  import opened Bytes
  import opened AnnexB
  import opened WsHub

  const TIMESCALE := 90000
  const FPS := 15
  const STEP := TIMESCALE / FPS

  datatype Params = Params(vps: Option<Nal>, sps: Option<Nal>, pps: Option<Nal>)

  datatype Sample = Sample(baseTime: int, duration: int, key: bool, payload: Blob)

  /** The codec and the fMP4 library, whose functions may fail. */
  datatype Codec = Codec(
    isH265: bool,
    marshalInit: Params -> Option<Blob>,
    marshalPart: Sample -> Option<Blob>,
    isRandomAccess: AccessUnit -> bool)

  // ---------------------------------------------------------------- AVCC payloads

  function BE32(n: nat): seq<byte> {
    [n / 0x100_0000 % 256, n / 0x1_0000 % 256, n / 0x100 % 256, n % 256]
  }

  /** Each unit behind its length as four big-endian bytes. */
  function Avcc(au: AccessUnit): Blob {
    if au == [] then [] else BE32(|au[0]|) + au[0] + Avcc(au[1..])
  }

  method AnnexBToAVCC(au: AccessUnit) returns (out: Blob)
    ensures out == Avcc(au)
  {
    out := [];
    for i := 0 to |au|
      invariant out + Avcc(au[i..]) == Avcc(au)
    {
      ghost var before, more := out, Avcc(au[i + 1..]);
      assert au[i..][1..] == au[i + 1..];
      out := out + BE32(|au[i]|);
      out := out + au[i];
      assert out == before + (BE32(|au[i]|) + au[i]);
      Assoc(before, BE32(|au[i]|) + au[i], more);
    }
    assert au[|au|..] == [];
    assert out + [] == out;
  }

  /** A length-prefixed sample read back, or None when it is cut short. */
  function ParseAvcc(data: Blob): Option<AccessUnit>
    decreases |data|
  {
    if data == [] then Some([])
    else if |data| < 4 then None
    else
      var n := ((data[0] * 256 + data[1]) * 256 + data[2]) * 256 + data[3];
      if n < 0 || 4 + n > |data| then None
      else match ParseAvcc(data[4 + n..])
        case None => None
        case Some(au) => Some([data[4..4 + n]] + au)
  }

  lemma BE32RoundTrip(n: nat)
    requires n < 0x1_0000_0000
    ensures var d := BE32(n); ((d[0] * 256 + d[1]) * 256 + d[2]) * 256 + d[3] == n
  {
    assert n / 0x100_0000 % 256 == n / 0x100_0000;
    assert n / 0x1_0000 == n / 0x100_0000 * 256 + n / 0x1_0000 % 256;
    assert n / 0x100 == n / 0x1_0000 * 256 + n / 0x100 % 256;
  }

  /** The length that is written, which has 32 bits. */
  lemma BE32Value(n: nat)
    ensures var d := BE32(n); 0 <= ((d[0] * 256 + d[1]) * 256 + d[2]) * 256 + d[3] < 0x1_0000_0000
  {
  }

  predicate ShortUnits(au: AccessUnit) {
    forall k :: 0 <= k < |au| ==> |au[k]| < 0x1_0000_0000
  }

  /** The sample payload keeps every unit and every boundary, exactly when every length fits its four bytes. */
  lemma {:induction false} AvccRoundTrip(au: AccessUnit)
    ensures ParseAvcc(Avcc(au)) == Some(au) <==> ShortUnits(au)
  {
    if au != [] {
      AvccRoundTrip(au[1..]);
      assert ShortUnits(au) <==> |au[0]| < 0x1_0000_0000 && ShortUnits(au[1..]) by {
        assert forall k :: 0 <= k < |au[1..]| ==> au[1..][k] == au[k + 1];
      }
      ParseOne(au[0], Avcc(au[1..]), au[1..]);
      assert [au[0]] + au[1..] == au;
    }
  }

  lemma ParseOne(nal: Nal, more: Blob, rest: AccessUnit)
    ensures ParseAvcc(BE32(|nal|) + nal + more) == Some([nal] + rest) <==> |nal| < 0x1_0000_0000 && ParseAvcc(more) == Some(rest)
  {
    var data := BE32(|nal|) + nal + more;
    BE32Value(|nal|);
    assert data[0] == BE32(|nal|)[0] && data[1] == BE32(|nal|)[1] && data[2] == BE32(|nal|)[2] && data[3] == BE32(|nal|)[3];
    if |nal| < 0x1_0000_0000 {
      BE32RoundTrip(|nal|);
      assert data[4..4 + |nal|] == nal;
      assert data[4 + |nal|..] == more;
    }
    HeadTail(nal, rest);
  }

  lemma HeadTail<T>(x: T, rest: seq<T>)
    ensures forall y, s :: [y] + s == [x] + rest ==> y == x && s == rest
  {
    forall y, s | [y] + s == [x] + rest
      ensures y == x && s == rest
    {
      assert ([y] + s)[0] == y && ([y] + s)[1..] == s;
      assert ([x] + rest)[0] == x && ([x] + rest)[1..] == rest;
    }
  }

  // ---------------------------------------------------------------- the muxer

  datatype Muxer = Muxer(params: Params, init: Option<Blob>, prev: Option<int>)

  const FRESH := Muxer(Params(None, None, None), None, None)

  function TakeParam(codec: Codec, p: Params, nal: Nal): Params {
    if |nal| == 0 then p
    else if codec.isH265 then
      var t := nal[0] / 2 % 64;
      if t == 32 then p.(vps := Some(nal))
      else if t == 33 then p.(sps := Some(nal))
      else if t == 34 then p.(pps := Some(nal))
      else p
    else
      var t := nal[0] % 32;
      if t == 7 then p.(sps := Some(nal)) else if t == 8 then p.(pps := Some(nal)) else p
  }

  function TakeParams(codec: Codec, p: Params, au: AccessUnit): Params {
    if au == [] then p else TakeParam(codec, TakeParams(codec, p, au[..|au| - 1]), au[|au| - 1])
  }

  predicate Complete(codec: Codec, p: Params) {
    p.sps.Some? && p.pps.Some? && (codec.isH265 ==> p.vps.Some?)
  }

  function TryInit(codec: Codec, p: Params): Option<Blob> {
    if Complete(codec, p) then codec.marshalInit(p) else None
  }

  function Duration(prev: Option<int>, pts: int): int {
    if prev.Some? && 0 < pts - prev.value < TIMESCALE * 2 then pts - prev.value else TIMESCALE / 30
  }

  datatype Written = Written(muxer: Muxer, frag: Option<Blob>, key: bool, newInit: Option<Blob>)

  function WriteAU(codec: Codec, m: Muxer, pts: int, au: AccessUnit): Written {
    var params := if m.init.None? then TakeParams(codec, m.params, au) else m.params;
    var newInit := if m.init.None? then TryInit(codec, params) else None;
    var init := if m.init.None? then newInit else m.init;
    if init.None? then Written(Muxer(params, None, m.prev), None, false, None)
    else
      var key := codec.isRandomAccess(au);
      var frag := codec.marshalPart(Sample(pts, Duration(m.prev, pts), key, Avcc(au)));
      Written(Muxer(params, init, Some(pts)), frag, frag.Some? && key, newInit)
  }

  class FragMuxer {
    const codec: Codec
    var vps: Option<Nal>
    var sps: Option<Nal>
    var pps: Option<Nal>
    var initSeg: Option<Blob>
    var lastPTS: int
    var havePrev: bool

    function Abs(): Muxer
      reads this
    {
      Muxer(Params(vps, sps, pps), initSeg, if havePrev then Some(lastPTS) else None)
    }

    /** The muxer for a raw stream, whose parameter sets arrive in band. */
    constructor (codec: Codec)
      ensures Abs() == FRESH && this.codec == codec
    {
      this.codec := codec;
      vps, sps, pps, initSeg, lastPTS, havePrev := None, None, None, None, 0, false;
    }

    method TryBuildInit() returns (newInit: Option<Blob>)
      modifies this`initSeg
      ensures newInit == if old(initSeg).Some? then None else TryInit(codec, Params(vps, sps, pps))
      ensures initSeg == if old(initSeg).Some? then old(initSeg) else newInit
    {
      if initSeg.Some? {
        return None;
      }
      if codec.isH265 {
        if vps.None? || sps.None? || pps.None? {
          return None;
        }
      } else if sps.None? || pps.None? {
        return None;
      }
      initSeg := codec.marshalInit(Params(vps, sps, pps));
      return initSeg;
    }

    method ExtractParams(au: AccessUnit)
      modifies this`vps, this`sps, this`pps
      ensures Params(vps, sps, pps) == TakeParams(codec, old(Params(vps, sps, pps)), au)
    {
      for i := 0 to |au|
        invariant Params(vps, sps, pps) == TakeParams(codec, old(Params(vps, sps, pps)), au[..i])
      {
        var nal := au[i];
        assert au[..i + 1][..i] == au[..i];
        if |nal| == 0 {
          continue;
        }
        if codec.isH265 {
          match nal[0] / 2 % 64
          case 32 => vps := Some(nal);
          case 33 => sps := Some(nal);
          case 34 => pps := Some(nal);
          case _ =>
        } else {
          match nal[0] % 32
          case 7 => sps := Some(nal);
          case 8 => pps := Some(nal);
          case _ =>
        }
      }
      assert au[..|au|] == au;
    }

    method Write(pts: int, au: AccessUnit) returns (frag: Option<Blob>, keyframe: bool, newInit: Option<Blob>)
      modifies this
      ensures Written(Abs(), frag, keyframe, newInit) == WriteAU(codec, old(Abs()), pts, au)
    {
      newInit := None;
      if initSeg.None? {
        ExtractParams(au);
        newInit := TryBuildInit();
      }
      if initSeg.None? {
        return None, false, None;
      }
      var dur := TIMESCALE / 30;
      if havePrev {
        var d := pts - lastPTS;
        if d > 0 && d < TIMESCALE * 2 {
          dur := d;
        }
      }
      lastPTS := pts;
      havePrev := true;
      keyframe := codec.isRandomAccess(au);
      var payload := AnnexBToAVCC(au);
      frag := codec.marshalPart(Sample(pts, dur, keyframe, payload));
      if frag.None? {
        keyframe := false;
      }
    }
  }

  // ---------------------------------------------------------------- feeding the hub

  datatype Stamped = Stamped(pts: int, au: AccessUnit)

  /** The k-th access unit carries k steps. */
  function Stamp(aus: seq<AccessUnit>): seq<Stamped> {
    seq(|aus|, k requires 0 <= k < |aus| => Stamped(k * STEP, aus[k]))
  }

  function Ops<K>(w: Written): seq<Op<K>> {
    (if w.newInit.Some? then [SetInit(w.newInit.value)] else []) +
    (if w.frag.Some? then [Broadcast(Cast(w.frag.value, w.key))] else [])
  }

  /** The hub is handed the init segment, if there is a new one, and then the fragment, if there is one. */
  lemma OpsInTurn<K>(h: Hub<K>, w: Written)
    ensures var ready := if w.newInit.Some? then WsHub.Step(h, SetInit(w.newInit.value)) else h;
            WsHub.Run(h, Ops(w)) == if w.frag.Some? then WsHub.Step(ready, Broadcast(Cast(w.frag.value, w.key))) else ready
  {
    var first: seq<Op<K>> := if w.newInit.Some? then [SetInit(w.newInit.value)] else [];
    var second: seq<Op<K>> := if w.frag.Some? then [Broadcast(Cast(w.frag.value, w.key))] else [];
    RunAppend(h, first, second);
    if w.newInit.Some? { RunOne(h, first[0]); }
    if w.frag.Some? { RunOne(WsHub.Run(h, first), second[0]); }
  }

  lemma RunOne<K>(h: Hub<K>, op: Op<K>)
    ensures WsHub.Run(h, [op]) == WsHub.Step(h, op)
  {
    assert [op][1..] == [];
  }

  /** The muxer after a sequence of access units, and what it had the hub do. */
  function Muxed(codec: Codec, m: Muxer, units: seq<Stamped>): Muxer {
    if units == [] then m
    else WriteAU(codec, Muxed(codec, m, units[..|units| - 1]), units[|units| - 1].pts, units[|units| - 1].au).muxer
  }

  function Feed<K>(codec: Codec, m: Muxer, units: seq<Stamped>): seq<Op<K>> {
    if units == [] then []
    else
      var last, before := units[|units| - 1], units[..|units| - 1];
      Feed(codec, m, before) + Ops(WriteAU(codec, Muxed(codec, m, before), last.pts, last.au))
  }

  /** What a whole byte stream makes of a fresh muxer: its pieces play no part. */
  function FeedOf<K>(codec: Codec, stream: seq<byte>): seq<Op<K>> {
    Feed(codec, FRESH, Stamp(Terminated(Split(stream).nals)))
  }

  lemma {:induction false} RunAppend<K>(h: Hub<K>, a: seq<Op<K>>, b: seq<Op<K>>)
    ensures Run(h, a + b) == Run(Run(h, a), b)
    decreases |a|
  {
    if a == [] {
      assert a + b == b;
    } else {
      assert (a + b)[1..] == a[1..] + b;
      RunAppend(Step(h, a[0]), a[1..], b);
    }
  }

  class StreamEntry {
    const wsHub: SurvWSHub
    var frag: FragMuxer

    constructor (codec: Codec, wsHub: SurvWSHub)
      ensures this.wsHub == wsHub && fresh(frag)
    {
      this.wsHub := wsHub;
      frag := new FragMuxer(codec);
    }

    /** Muxes one access unit and hands the outcome to the hub. */
    method Emit(pts: int, au: AccessUnit)
      requires wsHub.Valid()
      modifies frag, wsHub, wsHub.clients
      ensures wsHub.Valid() && wsHub.clients == old(wsHub.clients)
      ensures var w := WriteAU(frag.codec, old(frag.Abs()), pts, au);
              frag.Abs() == w.muxer && wsHub.Abs() == Run(old(wsHub.Abs()), Ops(w))
    {
      ghost var h := wsHub.Abs();
      var fr, kf, newInit := frag.Write(pts, au);
      OpsInTurn(h, Written(frag.Abs(), fr, kf, newInit));
      if newInit.Some? {
        wsHub.SetInit(newInit.value);
      }
      if fr.Some? {
        wsHub.Broadcast(fr.value, kf);
      }
    }

    /**
     Reads the stream to its end, whatever the pieces it comes in. What the hub was
     made to do, and so every client's history, depends on the bytes alone.
     */
    method IngestAnnexB(codec: Codec, chunks: seq<seq<byte>>)
      requires wsHub.Valid()
      modifies this, wsHub, wsHub.clients
      ensures wsHub.Valid() && wsHub.clients == old(wsHub.clients)
      ensures wsHub.Abs() == WsHub.Run(old(wsHub.Abs()), FeedOf(codec, Flatten(chunks)))
    {
      frag := new FragMuxer(codec);
      var pts := 0;
      var pending: seq<byte> := [];
      var au: AccessUnit := [];
      ghost var consumed: seq<byte>, done: seq<AccessUnit> := [], [];
      for i := 0 to |chunks|
        invariant fresh(frag) && frag.codec == codec
        invariant wsHub.Valid() && wsHub.clients == old(wsHub.clients)
        invariant consumed == Flatten(chunks[..i])
        invariant pending == Split(consumed).rest
        invariant Grouping(done, au) == Group(EMPTY, Split(consumed).nals)
        invariant pts == STEP * |done|
        invariant Fed(codec, frag.Abs(), old(wsHub.Abs()), wsHub.Abs(), done)
      {
        FlattenSnoc(chunks, i);
        if |chunks[i]| > 0 {
          SplitResumes(consumed, chunks[i]);
          pending := pending + chunks[i];
          var nals;
          nals, pending := SplitNALUnits(pending);
          GroupAppend(EMPTY, Split(consumed).nals, nals);
          pts, au, done := TakeUnits(nals, pts, au, done, old(wsHub.Abs()));
        } else {
          assert consumed + chunks[i] == consumed;
        }
        consumed := consumed + chunks[i];
      }
      assert chunks[..|chunks|] == chunks;
    }

    /** Emits one access unit, the next of those fed so far. */
    method EmitNext(pts: int, au: AccessUnit, ghost done: seq<AccessUnit>, ghost start: Hub<SurvWSClient>)
      requires wsHub.Valid() && pts == STEP * |done|
      requires Fed(frag.codec, frag.Abs(), start, wsHub.Abs(), done)
      modifies frag, wsHub, wsHub.clients
      ensures wsHub.Valid() && wsHub.clients == old(wsHub.clients)
      ensures Fed(frag.codec, frag.Abs(), start, wsHub.Abs(), done + [au])
    {
      FedMore(frag.codec, frag.Abs(), start, wsHub.Abs(), done, au);
      Emit(pts, au);
    }

    /** What happens at a delimiter: the open access unit, if there is one, is emitted. */
    method EmitOpen(pts0: int, au0: AccessUnit, ghost done0: seq<AccessUnit>, ghost start: Hub<SurvWSClient>)
      returns (pts: int, au: AccessUnit, ghost done: seq<AccessUnit>)
      requires wsHub.Valid() && pts0 == STEP * |done0|
      requires Fed(frag.codec, frag.Abs(), start, wsHub.Abs(), done0)
      modifies frag, wsHub, wsHub.clients
      ensures wsHub.Valid() && wsHub.clients == old(wsHub.clients)
      ensures pts == STEP * |done| && Grouping(done, au) == Close(Grouping(done0, au0))
      ensures Fed(frag.codec, frag.Abs(), start, wsHub.Abs(), done)
    {
      hide Fed;
      pts, au, done := pts0, au0, done0;
      if |au| > 0 {
        EmitNext(pts, au, done, start);
        pts := pts + STEP;
        done := done + [au];
        au := [];
      }
    }

    /** The loop over the units of one read: a delimiter emits the open access unit. */
    method TakeUnits(nals: seq<Nal>, pts0: int, au0: AccessUnit, ghost done0: seq<AccessUnit>, ghost start: Hub<SurvWSClient>)
      returns (pts: int, au: AccessUnit, ghost done: seq<AccessUnit>)
      requires wsHub.Valid() && pts0 == STEP * |done0|
      requires Fed(frag.codec, frag.Abs(), start, wsHub.Abs(), done0)
      modifies frag, wsHub, wsHub.clients
      ensures wsHub.Valid() && wsHub.clients == old(wsHub.clients)
      ensures pts == STEP * |done| && Grouping(done, au) == Group(Grouping(done0, au0), nals)
      ensures Fed(frag.codec, frag.Abs(), start, wsHub.Abs(), done)
    {
      pts, au, done := pts0, au0, done0;
      for j := 0 to |nals|
        invariant wsHub.Valid() && wsHub.clients == old(wsHub.clients)
        invariant Group(Grouping(done, au), nals[j..]) == Group(Grouping(done0, au0), nals)
        invariant pts == STEP * |done|
        invariant Fed(frag.codec, frag.Abs(), start, wsHub.Abs(), done)
      {
        GroupStep(Grouping(done, au), nals, j);
        if NalType(nals[j]) == AUD {
          pts, au, done := EmitOpen(pts, au, done, start);
          continue;
        }
        au := au + [nals[j]];
      }
    }
  }

  ghost predicate Fed<K>(codec: Codec, m: Muxer, before: Hub<K>, after: Hub<K>, done: seq<AccessUnit>) {
    && m == Muxed(codec, FRESH, Stamp(done))
    && after == WsHub.Run(before, Feed(codec, FRESH, Stamp(done)))
  }

  /** One more access unit at the end of those already fed. */
  lemma FedMore<K>(codec: Codec, m: Muxer, before: Hub<K>, after: Hub<K>, done: seq<AccessUnit>, au: AccessUnit)
    requires Fed(codec, m, before, after, done)
    ensures var w := WriteAU(codec, m, STEP * |done|, au);
            Fed(codec, w.muxer, before, WsHub.Run(after, Ops(w)), done + [au])
  {
    var all := Stamp(done + [au]);
    assert all[..|done|] == Stamp(done);
    var w := WriteAU(codec, m, STEP * |done|, au);
    RunAppend(before, Feed(codec, FRESH, Stamp(done)), Ops(w));
  }

  lemma GroupStep(g: Grouping, nals: seq<Nal>, j: nat)
    requires j < |nals|
    ensures Group(g, nals[j..]) == Group(Take(g, nals[j]), nals[j + 1..])
  {
    assert nals[j..][1..] == nals[j + 1..];
  }

  lemma FlattenSnoc<T>(parts: seq<seq<T>>, i: nat)
    requires i < |parts|
    ensures Flatten(parts[..i + 1]) == Flatten(parts[..i]) + parts[i]
  {
    assert parts[..i + 1] == parts[..i] + [parts[i]];
    FlattenAppend(parts[..i], [parts[i]]);
    assert Flatten([parts[i]]) == parts[i] + Flatten([]);
  }

  // ---------------------------------------------------------------- the hub's run

  lemma {:induction false} FeedSetsInitFirst<K>(codec: Codec, units: seq<Stamped>)
    ensures InitBeforeKey(Feed<K>(codec, FRESH, units))
    ensures Muxed(codec, FRESH, units).init.None? ==> Feed<K>(codec, FRESH, units) == []
    ensures Muxed(codec, FRESH, units).init.Some? ==>
              Feed<K>(codec, FRESH, units) != [] &&
              Feed<K>(codec, FRESH, units)[0] == SetInit(Muxed(codec, FRESH, units).init.value)
    ensures forall i :: 0 < i < |Feed<K>(codec, FRESH, units)| ==> Feed<K>(codec, FRESH, units)[i].Broadcast?
  {
    if units != [] {
      FeedSetsInitFirst<K>(codec, units[..|units| - 1]);
    }
  }

  /**
   End to end: however clients join, leave and receive while a byte stream is being
   ingested, a client that was given anything was given the one init segment of that
   stream, then a keyframe.
   */
  lemma IngestedClientsAreLedIn<K>(codec: Codec, stream: seq<byte>, ops: seq<Op<K>>, k: K)
    requires FeederPart(ops) == FeedOf(codec, stream)
    requires k in WsHub.Run(NewHub(), ops).clients
    ensures var h := WsHub.Run(NewHub(), ops);
            var client := h.clients[k];
            client.started ==>
              && Indexes(h.hist, client.picks)
              && var given := Enqueued(client, h.hist);
              && var muxer := Muxed(codec, FRESH, Stamp(Terminated(Split(stream).nals)));
              && |given| >= 2 && client.picks != []
              && muxer.init == Some(given[0])
              && h.hist[client.picks[0]].key
  {
    var units := Stamp(Terminated(Split(stream).nals));
    FeedSetsInitFirst<K>(codec, units);
    InterleavingKeepsOrder(ops);
    ClientHistory(ops, k);
    InitsAreOne(codec, units, ops);
  }

  /** Whatever is set as init segment, it is the one the muxer built. */
  lemma InitsAreOne<K>(codec: Codec, units: seq<Stamped>, ops: seq<Op<K>>)
    requires FeederPart(ops) == Feed(codec, FRESH, units)
    ensures forall seg :: seg in Inits(ops) ==> Muxed(codec, FRESH, units).init == Some(seg)
  {
    FeedSetsInitFirst<K>(codec, units);
    forall seg | seg in Inits(ops)
      ensures Muxed(codec, FRESH, units).init == Some(seg)
    {
      var i :| 0 <= i < |ops| && ops[i].SetInit? && ops[i].seg == seg;
      FeederPartKeeps(ops, i);
    }
  }

  lemma {:induction false} FeederPartKeeps<K>(ops: seq<Op<K>>, i: nat)
    requires i < |ops| && ops[i].SetInit?
    ensures ops[i] in FeederPart(ops)
  {
    if i > 0 {
      FeederPartKeeps(ops[1..], i - 1);
    }
  }
}
