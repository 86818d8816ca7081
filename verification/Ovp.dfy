/** The OVP wire format: message headers, the message reader, and FRAME_DELTA payloads. */
module Ovp {
  import opened Bytes

  datatype Error =
    | Eof
    | UnexpectedEof
    | HeaderTooShort
    | BadMagic(magic: uint32)
    | BadVersion(version: uint16)
    | PayloadTooLarge(length: uint32)
    | DeltaTooShort
    | TruncatedTileHeader(tile: nat)
    | TruncatedTileData(tile: nat)

  datatype Result<+T> = Ok(value: T) | Err(error: Error)

  // ---------------------------------------------------------------- little-endian fields

  function Pow256(n: nat): (p: nat)
    ensures p > 0
  {
    if n == 0 then 1 else 256 * Pow256(n - 1)
  }

  function Le(v: nat, n: nat): (b: Blob)
    ensures |b| == n && Octets(b)
    decreases n
  {
    if n == 0 then [] else [v % 256] + Le(v / 256, n - 1)
  }

  function FromLe(b: Blob): int {
    if b == [] then 0 else b[0] + 256 * FromLe(b[1..])
  }

  lemma {:induction false} FromLeOfLe(v: nat, n: nat)
    requires v < Pow256(n)
    ensures FromLe(Le(v, n)) == v
    decreases n
  {
    if n > 0 {
      FromLeOfLe(v / 256, n - 1);
      assert Le(v, n)[1..] == Le(v / 256, n - 1);
    }
  }

  lemma {:induction false} LeOfFromLe(b: Blob)
    requires Octets(b)
    ensures 0 <= FromLe(b) < Pow256(|b|) && Le(FromLe(b), |b|) == b
  {
    if b != [] {
      LeOfFromLe(b[1..]);
      var v := FromLe(b);
      assert v % 256 == b[0] && v / 256 == FromLe(b[1..]);
      assert b == [b[0]] + b[1..];
    }
  }

  function Uint(data: Blob, off: nat, n: nat): (v: nat)
    requires Octets(data) && off + n <= |data|
    ensures v < Pow256(n)
  {
    LeOfFromLe(data[off..off + n]);
    FromLe(data[off..off + n])
  }

  function Uint16(data: Blob, off: nat): uint16
    requires Octets(data) && off + 2 <= |data|
  {
    assert Pow256(2) == 0x1_0000;
    Uint(data, off, 2)
  }

  function Uint32(data: Blob, off: nat): uint32
    requires Octets(data) && off + 4 <= |data|
  {
    assert Pow256(4) == 256 * (256 * Pow256(2)) && Pow256(2) == 0x1_0000;
    Uint(data, off, 4)
  }

  function Uint64(data: Blob, off: nat): uint64
    requires Octets(data) && off + 8 <= |data|
  {
    assert Pow256(8) == 256 * (256 * Pow256(6)) && Pow256(6) == 256 * (256 * Pow256(4));
    assert Pow256(4) == 256 * (256 * Pow256(2)) && Pow256(2) == 0x1_0000;
    Uint(data, off, 8)
  }

  /** Fields are little-endian: the first byte is the least significant. */
  lemma Uint16Bytes(data: Blob, off: nat)
    requires Octets(data) && off + 2 <= |data|
    ensures Uint16(data, off) == data[off] + 256 * data[off + 1]
  {
    var b := data[off..off + 2];
    assert b[1..][1..] == [];
    assert FromLe(b) == b[0] + 256 * FromLe(b[1..]) && FromLe(b[1..]) == b[1] + 256 * FromLe(b[1..][1..]);
  }

  lemma Uint32Bytes(data: Blob, off: nat)
    requires Octets(data) && off + 4 <= |data|
    ensures Uint32(data, off) == data[off] + 0x100 * data[off + 1] + 0x1_0000 * data[off + 2] + 0x100_0000 * data[off + 3]
  {
    var b := data[off..off + 4];
    assert FromLe(b) == b[0] + 256 * FromLe(b[1..]);
    assert FromLe(b[1..]) == b[1] + 256 * FromLe(b[1..][1..]);
    assert b[1..][1..] == b[2..] && b[2..][1..] == b[3..] && b[3..][1..] == [];
    assert FromLe(b[2..]) == b[2] + 256 * FromLe(b[3..]);
  }

  lemma Uint64Bytes(data: Blob, off: nat)
    requires Octets(data) && off + 8 <= |data|
    ensures Uint64(data, off) == Uint32(data, off) + 0x1_0000_0000 * Uint32(data, off + 4)
  {
    var b := data[off..off + 8];
    FromLeSplits(b, 4);
    assert Pow256(4) == 256 * (256 * (256 * Pow256(1)));
    assert b[..4] == data[off..off + 4] && b[4..] == data[off + 4..off + 8];
  }

  lemma {:induction false} FromLeSplits(b: Blob, n: nat)
    requires n <= |b|
    ensures FromLe(b) == FromLe(b[..n]) + Pow256(n) * FromLe(b[n..])
    decreases n
  {
    if n == 0 {
      assert b[..0] == [] && b[0..] == b;
    } else {
      FromLeSplits(b[1..], n - 1);
      assert b[1..][..n - 1] == b[..n][1..] && b[1..][n - 1..] == b[n..];
    }
  }

  // ---------------------------------------------------------------- bytes at an offset

  predicate At(data: Blob, off: nat, b: Blob) {
    off + |b| <= |data| && data[off..off + |b|] == b
  }

  lemma AtSplit(data: Blob, off: nat, a: Blob, b: Blob)
    ensures At(data, off, a + b) <==> At(data, off, a) && At(data, off + |a|, b)
  {
    if off + |a| + |b| <= |data| {
      var s := data[off..off + |a| + |b|];
      assert s == data[off..off + |a|] + data[off + |a|..off + |a| + |b|];
      assert (a + b)[..|a|] == a && (a + b)[|a|..] == b;
      assert s[..|a|] == data[off..off + |a|] && s[|a|..] == data[off + |a|..off + |a| + |b|];
    }
  }

  lemma UintAt(data: Blob, off: nat, n: nat, v: nat)
    requires Octets(data) && off + n <= |data| && v < Pow256(n)
    ensures Uint(data, off, n) == v <==> At(data, off, Le(v, n))
  {
    FromLeOfLe(v, n);
    LeOfFromLe(data[off..off + n]);
  }

  lemma Uint16At(data: Blob, off: nat, v: uint16)
    requires Octets(data) && off + 2 <= |data|
    ensures Uint16(data, off) == v <==> At(data, off, Le(v, 2))
  {
    assert Pow256(2) == 0x1_0000;
    UintAt(data, off, 2, v);
  }

  lemma Uint32At(data: Blob, off: nat, v: uint32)
    requires Octets(data) && off + 4 <= |data|
    ensures Uint32(data, off) == v <==> At(data, off, Le(v, 4))
  {
    assert Pow256(4) == 256 * (256 * Pow256(2)) && Pow256(2) == 0x1_0000;
    UintAt(data, off, 4, v);
  }

  lemma Uint64At(data: Blob, off: nat, v: uint64)
    requires Octets(data) && off + 8 <= |data|
    ensures Uint64(data, off) == v <==> At(data, off, Le(v, 8))
  {
    assert Pow256(8) == 256 * (256 * Pow256(6)) && Pow256(6) == 256 * (256 * Pow256(4));
    assert Pow256(4) == 256 * (256 * Pow256(2)) && Pow256(2) == 0x1_0000;
    UintAt(data, off, 8, v);
  }

  method Put(buf: array<byte>, off: nat, n: nat, v: nat)
    requires off + n <= buf.Length
    modifies buf
    ensures buf[..off + n] == old(buf[..off]) + Le(v, n)
    ensures buf[off + n..] == old(buf[off + n..])
    decreases n
  {
    if n > 0 {
      buf[off] := v % 256;
      assert buf[..off + 1] == old(buf[..off]) + [v % 256];
      ghost var before := buf[..off + 1];
      ghost var after := buf[off + n..];
      Put(buf, off + 1, n - 1, v / 256);
      Assoc(old(buf[..off]), [v % 256], Le(v / 256, n - 1));
    }
  }

  method Copy(buf: array<byte>, off: nat, data: Blob)
    requires off + |data| <= buf.Length
    modifies buf
    ensures buf[..off + |data|] == old(buf[..off]) + data
    ensures buf[off + |data|..] == old(buf[off + |data|..])
  {
    var i := 0;
    while i < |data|
      invariant i <= |data|
      invariant buf[..off + i] == old(buf[..off]) + data[..i]
      invariant buf[off + |data|..] == old(buf[off + |data|..])
    {
      buf[off + i] := data[i];
      assert buf[..off + i + 1] == buf[..off + i] + [data[i]];
      assert data[..i + 1] == data[..i] + [data[i]];
      i := i + 1;
    }
  }

  // ---------------------------------------------------------------- messages

  const MAGIC: uint32 := 0x4F565031
  const VERSION: uint16 := 1
  const HEADER_SIZE := 12
  const MAX_PAYLOAD := 67108864

  datatype Header = Header(magic: uint32, version: uint16, kind: uint16, payloadLen: uint32)

  function HeaderBytes(h: Header): (b: Blob)
    ensures |b| == HEADER_SIZE
  {
    Le(h.magic, 4) + Le(h.version, 2) + Le(h.kind, 2) + Le(h.payloadLen, 4)
  }

  /** A message on the wire; the length field keeps only 32 bits. */
  function Message(kind: uint16, payload: Blob): Blob {
    HeaderBytes(Header(MAGIC, VERSION, kind, |payload| % 0x1_0000_0000)) + payload
  }

  function HeaderAt(buf: Blob): Header
    requires Octets(buf) && |buf| >= HEADER_SIZE
  {
    Header(Uint32(buf, 0), Uint16(buf, 4), Uint16(buf, 6), Uint32(buf, 8))
  }

  function DecodeHeader(buf: Blob): (r: Result<Header>)
    requires Octets(buf)
    ensures r.Ok? <==> |buf| >= HEADER_SIZE && HeaderAt(buf).magic == MAGIC && HeaderAt(buf).version == VERSION
  {
    if |buf| < HEADER_SIZE then Err(HeaderTooShort)
    else
      var h := HeaderAt(buf);
      if h.magic != MAGIC then Err(BadMagic(h.magic))
      else if h.version != VERSION then Err(BadVersion(h.version))
      else Ok(h)
  }

  /** Where the fields of a message header are; the first eight bytes of an accepted one are fixed but for the type. */
  lemma HeaderLayout(buf: Blob)
    requires Octets(buf) && |buf| >= 12
    ensures var h := HeaderAt(buf);
            && h.magic == buf[0] + 0x100 * buf[1] + 0x1_0000 * buf[2] + 0x100_0000 * buf[3]
            && h.version == buf[4] + 256 * buf[5]
            && h.kind == buf[6] + 256 * buf[7]
            && h.payloadLen == buf[8] + 0x100 * buf[9] + 0x1_0000 * buf[10] + 0x100_0000 * buf[11]
    ensures DecodeHeader(buf).Ok? <==> buf[..4] == [0x31, 0x50, 0x56, 0x4F] && buf[4..6] == [1, 0]
  {
    Uint32Bytes(buf, 0);
    Uint16Bytes(buf, 4);
    Uint16Bytes(buf, 6);
    Uint32Bytes(buf, 8);
    if HeaderAt(buf).magic == MAGIC {
      assert buf[0] == 0x31 && buf[1] == 0x50 && buf[2] == 0x56 && buf[3] == 0x4F;
    }
  }

  lemma HeaderBytesAt(buf: Blob, h: Header)
    requires Octets(buf) && |buf| >= HEADER_SIZE
    ensures HeaderAt(buf) == h <==> At(buf, 0, HeaderBytes(h))
  {
    var a, b, c, d := Le(h.magic, 4), Le(h.version, 2), Le(h.kind, 2), Le(h.payloadLen, 4);
    AtSplit(buf, 0, a + b + c, d);
    AtSplit(buf, 0, a + b, c);
    AtSplit(buf, 0, a, b);
    Uint32At(buf, 0, h.magic);
    Uint16At(buf, 4, h.version);
    Uint16At(buf, 6, h.kind);
    Uint32At(buf, 8, h.payloadLen);
  }

  /** The header decoder accepts exactly what the header encoder can have written in front. */
  lemma DecodeHeaderAcceptsExactly(buf: Blob, kind: uint16, payloadLen: uint32)
    requires Octets(buf)
    ensures DecodeHeader(buf) == Ok(Header(MAGIC, VERSION, kind, payloadLen)) <==>
            At(buf, 0, HeaderBytes(Header(MAGIC, VERSION, kind, payloadLen)))
  {
    if |buf| >= HEADER_SIZE {
      HeaderBytesAt(buf, Header(MAGIC, VERSION, kind, payloadLen));
    }
  }

  method EncodeHeader(buf: array<byte>, kind: uint16, payloadLen: uint32)
    requires buf.Length >= HEADER_SIZE
    modifies buf
    ensures buf[..HEADER_SIZE] == HeaderBytes(Header(MAGIC, VERSION, kind, payloadLen))
    ensures buf[HEADER_SIZE..] == old(buf[HEADER_SIZE..])
  {
    ghost var rest := buf[HEADER_SIZE..];
    Put(buf, 0, 4, MAGIC);
    assert buf[..4] == Le(MAGIC, 4) && buf[4..][8..] == rest;
    Put(buf, 4, 2, VERSION);
    assert buf[6..][6..] == rest;
    Put(buf, 6, 2, kind);
    assert buf[8..][4..] == rest;
    Put(buf, 8, 4, payloadLen);
  }

  method MarshalMessage(kind: uint16, payload: Blob) returns (msg: array<byte>)
    ensures fresh(msg) && msg[..] == Message(kind, payload)
  {
    msg := new byte[HEADER_SIZE + |payload|];
    EncodeHeader(msg, kind, |payload| % 0x1_0000_0000);
    Copy(msg, HEADER_SIZE, payload);
    assert msg[..] == msg[..HEADER_SIZE + |payload|];
  }

  datatype Received = Received(kind: uint16, payload: Blob)

  /** What a read returned, and what the stream still holds. */
  datatype Reading<+T> = Reading(result: Result<T>, rest: Blob)

  /** A read of exactly `n` bytes; a stream that ends early is used up. */
  function ReadFull(stream: Blob, n: nat): Reading<Blob> {
    if n <= |stream| then Reading(Ok(stream[..n]), stream[n..])
    else Reading(Err(if stream == [] then Eof else UnexpectedEof), [])
  }

  /** The payload that follows an accepted header. */
  function ReadBody(h: Header, stream: Blob): Reading<Received> {
    if h.payloadLen > MAX_PAYLOAD then Reading(Err(PayloadTooLarge(h.payloadLen)), stream)
    else if h.payloadLen == 0 then Reading(Ok(Received(h.kind, [])), stream)
    else
      var body := ReadFull(stream, h.payloadLen);
      if body.result.Err? then Reading(Err(body.result.error), body.rest)
      else Reading(Ok(Received(h.kind, body.result.value)), body.rest)
  }

  function Read(stream: Blob): (r: Reading<Received>)
    requires Octets(stream)
    ensures Octets(r.rest)
  {
    var head := ReadFull(stream, HEADER_SIZE);
    if head.result.Err? then Reading(Err(head.result.error), head.rest)
    else
      var h := DecodeHeader(head.result.value);
      if h.Err? then Reading(Err(h.error), head.rest) else ReadBody(h.value, head.rest)
  }

  /** The fields of the header at the beginning of the stream, whether it is accepted or not. */
  function HeaderOf(stream: Blob): Option<Header>
    requires Octets(stream)
  {
    if |stream| < HEADER_SIZE then None else Some(HeaderAt(stream))
  }

  lemma ReadBodyAcceptsExactly(h: Header, stream: Blob, m: Received, rest: Blob)
    ensures ReadBody(h, stream) == Reading(Ok(m), rest) <==>
            h.kind == m.kind && h.payloadLen == |m.payload| <= MAX_PAYLOAD && stream == m.payload + rest
  {
    if h.payloadLen == |m.payload| <= |stream| {
      SamePrefix(stream[..|m.payload|], stream[|m.payload|..], m.payload, rest);
      assert stream == stream[..|m.payload|] + stream[|m.payload|..];
    }
  }

  lemma MessageSplits(stream: Blob, m: Received, rest: Blob)
    requires |stream| >= HEADER_SIZE
    ensures stream == Message(m.kind, m.payload) + rest <==>
            && stream[..HEADER_SIZE] == HeaderBytes(Header(MAGIC, VERSION, m.kind, |m.payload| % 0x1_0000_0000))
            && stream[HEADER_SIZE..] == m.payload + rest
  {
    var hb := HeaderBytes(Header(MAGIC, VERSION, m.kind, |m.payload| % 0x1_0000_0000));
    Assoc(hb, m.payload, rest);
    SamePrefix(stream[..HEADER_SIZE], stream[HEADER_SIZE..], hb, m.payload + rest);
    assert stream == stream[..HEADER_SIZE] + stream[HEADER_SIZE..];
  }

  lemma ReadSplits(stream: Blob, m: Received, rest: Blob)
    requires Octets(stream) && |stream| >= HEADER_SIZE
    ensures Read(stream) == Reading(Ok(m), rest) <==>
            && |m.payload| <= MAX_PAYLOAD
            && stream[HEADER_SIZE..] == m.payload + rest
            && DecodeHeader(stream[..HEADER_SIZE]) == Ok(Header(MAGIC, VERSION, m.kind, |m.payload|))
  {
    var r := DecodeHeader(stream[..HEADER_SIZE]);
    if r.Ok? {
      ReadBodyAcceptsExactly(r.value, stream[HEADER_SIZE..], m, rest);
    }
  }

  lemma ShortStream(stream: Blob, m: Received, rest: Blob)
    requires Octets(stream) && |stream| < HEADER_SIZE
    ensures Read(stream).result.Err? && stream != Message(m.kind, m.payload) + rest
  {
    var hb := HeaderBytes(Header(MAGIC, VERSION, m.kind, |m.payload| % 0x1_0000_0000));
    assert |hb + m.payload + rest| >= HEADER_SIZE;
  }

  lemma DecodesWholeHeader(head: Blob, kind: uint16, n: uint32)
    requires Octets(head) && |head| == HEADER_SIZE
    ensures DecodeHeader(head) == Ok(Header(MAGIC, VERSION, kind, n)) <==>
            head == HeaderBytes(Header(MAGIC, VERSION, kind, n))
  {
    DecodeHeaderAcceptsExactly(head, kind, n);
    assert head[0..HEADER_SIZE] == head;
  }

  lemma ReadExactly(stream: Blob, m: Received, rest: Blob)
    requires Octets(stream) && |stream| >= HEADER_SIZE && |m.payload| <= MAX_PAYLOAD
    ensures Read(stream) == Reading(Ok(m), rest) <==> stream == Message(m.kind, m.payload) + rest
  {
    var n := |m.payload|;
    assert n % 0x1_0000_0000 == n;
    MessageSplits(stream, m, rest);
    ReadSplits(stream, m, rest);
    DecodesWholeHeader(stream[..HEADER_SIZE], m.kind, n);
  }

  /**
   The reader returns a message exactly when that message, with a payload it allows, is
   what the stream begins with; the stream then continues right behind it.
   */
  lemma ReadAcceptsExactly(stream: Blob, m: Received, rest: Blob)
    requires Octets(stream)
    ensures Read(stream) == Reading(Ok(m), rest) <==>
            |m.payload| <= MAX_PAYLOAD && stream == Message(m.kind, m.payload) + rest
  {
    if |stream| < HEADER_SIZE {
      ShortStream(stream, m, rest);
    } else if |m.payload| <= MAX_PAYLOAD {
      ReadExactly(stream, m, rest);
    } else {
      ReadSplits(stream, m, rest);
    }
  }

  lemma SamePrefix(a: Blob, b: Blob, c: Blob, d: Blob)
    requires |a| == |c|
    ensures a + b == c + d <==> a == c && b == d
  {
    assert (a + b)[..|a|] == a && (a + b)[|a|..] == b;
    assert (c + d)[..|c|] == c && (c + d)[|c|..] == d;
  }

  function Wire(messages: seq<Received>): Blob {
    if messages == [] then [] else Message(messages[0].kind, messages[0].payload) + Wire(messages[1..])
  }

  datatype Drained = Drained(messages: seq<Received>, error: Error)

  /** Reading until the first error. */
  function ReadAll(stream: Blob): Drained
    requires Octets(stream)
    decreases |stream|
  {
    var r := Read(stream);
    if r.result.Err? then Drained([], r.result.error)
    else
      ReadAcceptsExactly(stream, r.result.value, r.rest);
      var more := ReadAll(r.rest);
      Drained([r.result.value] + more.messages, more.error)
  }

  lemma RestIsOctets(a: Blob, b: Blob)
    requires Octets(a + b)
    ensures Octets(b)
  {
    assert forall i :: 0 <= i < |b| ==> b[i] == (a + b)[|a| + i];
  }

  /** Messages written one after the other are read back one by one, and then the stream is at its end. */
  lemma {:induction false} ReadsBackWhatWasWritten(messages: seq<Received>)
    requires forall m <- messages :: |m.payload| <= MAX_PAYLOAD
    requires Octets(Wire(messages))
    ensures ReadAll(Wire(messages)) == Drained(messages, Eof)
  {
    if messages != [] {
      hide Octets, Read, Message;
      var m, rest := messages[0], Wire(messages[1..]);
      ReadAcceptsExactly(Wire(messages), m, rest);
      RestIsOctets(Message(m.kind, m.payload), rest);
      ReadsBackWhatWasWritten(messages[1..]);
      assert messages == [m] + messages[1..];
    }
  }

  /** The source of bytes that messages are read from. */
  lemma HeaderAtFront(stream: Blob, front: Blob)
    requires Octets(stream) && |stream| >= HEADER_SIZE && front == stream[..HEADER_SIZE]
    ensures Octets(front) && HeaderAt(front) == HeaderAt(stream)
  {
    HeaderBytesAt(front, HeaderAt(front));
    HeaderBytesAt(stream, HeaderAt(front));
  }

  class Reader {
    var stream: Blob

    constructor (bytes: Blob)
      ensures stream == bytes
    {
      stream := bytes;
    }

    method Fill(n: nat) returns (r: Result<Blob>)
      modifies this
      ensures Reading(r, stream) == ReadFull(old(stream), n)
    {
      if n <= |stream| {
        r := Ok(stream[..n]);
        stream := stream[n..];
      } else {
        r := Err(if stream == [] then Eof else UnexpectedEof);
        stream := [];
      }
    }

    /** A header that was read is returned beside an error in it or in its payload, too. */
    method ReadMessage() returns (head: Option<Header>, r: Result<Received>)
      requires Octets(stream)
      modifies this
      ensures Reading(r, stream) == Read(old(stream)) && head == HeaderOf(old(stream))
    {
      ghost var all := stream;
      var hbuf := Fill(HEADER_SIZE);
      if hbuf.Err? {
        return None, Err(hbuf.error);
      }
      HeaderAtFront(all, hbuf.value);
      head := Some(HeaderAt(hbuf.value));
      var h := DecodeHeader(hbuf.value);
      if h.Err? {
        return head, Err(h.error);
      }
      if h.value.payloadLen > MAX_PAYLOAD {
        return head, Err(PayloadTooLarge(h.value.payloadLen));
      }
      var payload := [];
      if h.value.payloadLen > 0 {
        var body := Fill(h.value.payloadLen);
        if body.Err? {
          return head, Err(body.error);
        }
        payload := body.value;
      }
      return head, Ok(Received(h.value.kind, payload));
    }
  }
}
