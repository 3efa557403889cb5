// Cyphal/CAN transmit framing as fixed by the transmitter's test vectors: the 29-bit CAN ID
// of a transfer, the tail byte, the split of a payload into frames, the transfer CRC of
// multi-frame transfers and the zero padding to a valid CAN FD frame length (Cyphal
// Specification v1.0, section 4.2; ISO 11898-1 data length codes).
module CanTransmit {
  import opened Wrappers
  import opened TransferCrc

  //
  // Transfer headers
  //

  /** `canadensis_core::Priority`, highest first. */
  datatype Priority = Exceptional | Immediate | Fast | High | Nominal | Low | Slow | Optional

  /** The three-bit code of a priority. */
  function PriorityCode(p: Priority): (r: nat)
    ensures r < 8
    ensures p == Exceptional <==> r == 0
  {
    match p
    case Exceptional => 0
    case Immediate => 1
    case Fast => 2
    case High => 3
    case Nominal => 4
    case Low => 5
    case Slow => 6
    case Optional => 7
  }

  type SubjectId = x: nat | x < 8192
  type ServiceId = x: nat | x < 512
  /** `CanNodeId`: seven bits. */
  type NodeId = x: nat | x < 128
  /** `CanTransferId`: five bits, held in a byte. */
  type TransferId = x: byte | x < 32

  datatype MessageHeader = MessageHeader(
    timestamp: int, transferId: TransferId, priority: Priority, subject: SubjectId,
    source: Option<NodeId>)

  datatype ServiceHeader = ServiceHeader(
    timestamp: int, transferId: TransferId, priority: Priority, service: ServiceId,
    source: NodeId, destination: NodeId)

  datatype Header = Message(message: MessageHeader) | Request(request: ServiceHeader) | Response(response: ServiceHeader)
  {
    function Timestamp(): int
    {
      match this
      case Message(h) => h.timestamp
      case Request(h) => h.timestamp
      case Response(h) => h.timestamp
    }

    function TransferIdOf(): TransferId
    {
      match this
      case Message(h) => h.transferId
      case Request(h) => h.transferId
      case Response(h) => h.transferId
    }
  }

  /** `Mtu`: classic CAN frames carry up to 8 bytes, CAN FD frames up to 64. */
  datatype Mtu = Can8 | CanFd64

  function MtuBytes(mtu: Mtu): nat
  {
    match mtu
    case Can8 => 8
    case CanFd64 => 64
  }

  /** Payload bytes per frame: one byte of every frame is the tail byte. */
  function Capacity(mtu: Mtu): (r: nat)
    ensures r == MtuBytes(mtu) - 1 && r > 0
  {
    MtuBytes(mtu) - 1
  }

  /** A frame as the transmitter queues it: its deadline, its 29-bit ID and its data. */
  datatype Frame = Frame(timestamp: int, id: nat, data: seq<byte>)

  //
  // CAN IDs
  //

  /** The field of `id` that starts at bit value `unit` and holds `count` values: bits
      `k .. k + w - 1` for `unit == 2^k` and `count == 2^w`. */
  function Field(id: nat, unit: nat, count: nat): nat
    requires unit > 0 && count > 0
  {
    (id / unit) % count
  }

  /** The CAN ID of a message transfer: priority in bits 26-28, bit 24 for anonymous
      transfers, bits 21 and 22 set, the subject in bits 8-20 and the source node (or, for an
      anonymous transfer, the pseudo node ID) in bits 0-6. */
  function MessageCanId(h: MessageHeader, pseudoId: NodeId): nat
  {
    var source := if h.source.Some? then h.source.value else pseudoId;
    PriorityCode(h.priority) * 0x400_0000
      + (if h.source.None? then 0x100_0000 else 0)
      + 3 * 0x20_0000
      + h.subject * 0x100
      + source
  }

  /** The CAN ID of a service transfer: priority in bits 26-28, bit 25 set, bit 24 for a
      request, the service in bits 14-22, the destination in bits 7-13 and the source in bits
      0-6. */
  function ServiceCanId(h: ServiceHeader, isRequest: bool): nat
  {
    PriorityCode(h.priority) * 0x400_0000
      + 0x200_0000
      + (if isRequest then 0x100_0000 else 0)
      + h.service * 0x4000
      + h.destination * 0x80
      + h.source
  }

  function CanIdOf(header: Header, pseudoId: NodeId): nat
  {
    match header
    case Message(h) => MessageCanId(h, pseudoId)
    case Request(h) => ServiceCanId(h, true)
    case Response(h) => ServiceCanId(h, false)
  }

  /** `(hi * m + lo) / m == hi` and `(hi * m + lo) % m == lo` for `lo < m`. */
  lemma DivModOfSum(hi: nat, lo: nat, m: nat)
    requires lo < m
    ensures (hi * m + lo) / m == hi && (hi * m + lo) % m == lo
  {
    var x := hi * m + lo;
    var q, r := x / m, x % m;
    assert x == q * m + r;
    // Any other quotient would be off by at least `m`.
    if q > hi {
      MulMonotone(hi + 1, q, m);
      MulSucc(hi, m);
      assert false;
    } else if q < hi {
      MulMonotone(q + 1, hi, m);
      MulSucc(q, m);
      assert false;
    }
  }

  lemma MulMonotone(a: nat, b: nat, m: nat)
    requires a <= b
    ensures a * m <= b * m
  {
    assert b * m == a * m + (b - a) * m;
  }

  lemma MulSucc(a: nat, m: nat)
    ensures (a + 1) * m == a * m + m
  {
  }

  /** A value placed in a field, above a lower part and below a higher part, reads back. */
  lemma FieldOfPlaced(x: nat, above: nat, v: nat, below: nat, unit: nat, count: nat)
    requires v < count && below < unit
    requires x == above * (count * unit) + v * unit + below
    ensures Field(x, unit, count) == v
  {
    assert x == (above * count + v) * unit + below;
    DivModOfSum(above * count + v, below, unit);
    DivModOfSum(above, v, count);
  }

  /** Every field of a message header sits at its place in the CAN ID, and the ID fits in 29
      bits: priority in bits 26-28, bit 25 (service) clear, bit 24 set exactly for anonymous
      transfers, bit 23 clear, bits 21-22 set, the subject in bits 8-20, bit 7 clear and the
      source or pseudo node ID in bits 0-6. */
  lemma MessageCanIdFields(h: MessageHeader, pseudoId: NodeId)
    ensures var id := MessageCanId(h, pseudoId);
      id < 0x2000_0000
      && Field(id, 0x400_0000, 8) == PriorityCode(h.priority)
      && Field(id, 0x200_0000, 2) == 0
      && Field(id, 0x100_0000, 2) == (if h.source.None? then 1 else 0)
      && Field(id, 0x80_0000, 2) == 0
      && Field(id, 0x20_0000, 4) == 3
      && Field(id, 0x100, 0x2000) == h.subject
      && Field(id, 0x80, 2) == 0
      && Field(id, 1, 0x80) == (if h.source.Some? then h.source.value else pseudoId)
  {
    var id := MessageCanId(h, pseudoId);
    var src := if h.source.Some? then h.source.value else pseudoId;
    var p, a := PriorityCode(h.priority), if h.source.None? then 1 else 0;
    var low := h.subject * 0x100 + src;
    FieldOfPlaced(id, 0, p, a * 0x100_0000 + 3 * 0x20_0000 + low, 0x400_0000, 8);
    FieldOfPlaced(id, p, 0, a * 0x100_0000 + 3 * 0x20_0000 + low, 0x200_0000, 2);
    FieldOfPlaced(id, p * 2, a, 3 * 0x20_0000 + low, 0x100_0000, 2);
    FieldOfPlaced(id, p * 4 + a, 0, 3 * 0x20_0000 + low, 0x80_0000, 2);
    FieldOfPlaced(id, p * 8 + a * 2, 3, low, 0x20_0000, 4);
    FieldOfPlaced(id, p * 32 + a * 8 + 3, h.subject, src, 0x100, 0x2000);
    FieldOfPlaced(id, (p * 32 + a * 8 + 3) * 0x2000 + h.subject, 0, src, 0x80, 2);
    FieldOfPlaced(id, (p * 32 + a * 8 + 3) * 0x2000 * 2 + h.subject * 2, src, 0, 1, 0x80);
  }

  /** Every field of a service header sits at its place in the CAN ID, and the ID fits in 29
      bits: priority in bits 26-28, bit 25 (service) set, bit 24 set exactly for requests,
      bit 23 clear, the service in bits 14-22, the destination in bits 7-13 and the source in
      bits 0-6. */
  lemma ServiceCanIdFields(h: ServiceHeader, isRequest: bool)
    ensures var id := ServiceCanId(h, isRequest);
      id < 0x2000_0000
      && Field(id, 0x400_0000, 8) == PriorityCode(h.priority)
      && Field(id, 0x200_0000, 2) == 1
      && Field(id, 0x100_0000, 2) == (if isRequest then 1 else 0)
      && Field(id, 0x80_0000, 2) == 0
      && Field(id, 0x4000, 0x200) == h.service
      && Field(id, 0x80, 0x80) == h.destination
      && Field(id, 1, 0x80) == h.source
  {
    var id := ServiceCanId(h, isRequest);
    var p, r := PriorityCode(h.priority), if isRequest then 1 else 0;
    var low := h.destination * 0x80 + h.source;
    FieldOfPlaced(id, 0, p, 0x200_0000 + r * 0x100_0000 + h.service * 0x4000 + low, 0x400_0000, 8);
    FieldOfPlaced(id, p, 1, r * 0x100_0000 + h.service * 0x4000 + low, 0x200_0000, 2);
    FieldOfPlaced(id, p * 2 + 1, r, h.service * 0x4000 + low, 0x100_0000, 2);
    FieldOfPlaced(id, p * 4 + 2 + r, 0, h.service * 0x4000 + low, 0x80_0000, 2);
    FieldOfPlaced(id, p * 8 + 4 + r * 2, h.service, low, 0x4000, 0x200);
    FieldOfPlaced(id, (p * 8 + 4 + r * 2) * 0x200 + h.service, h.destination, h.source, 0x80, 0x80);
    FieldOfPlaced(id, ((p * 8 + 4 + r * 2) * 0x200 + h.service) * 0x80 + h.destination, h.source, 0, 1, 0x80);
  }

  //
  // The tail byte
  //

  /** The last byte of every frame: start of transfer in bit 7, end of transfer in bit 6,
      the toggle bit in bit 5 and the transfer ID in bits 0-4. */
  function TailByte(start: bool, end: bool, toggle: bool, tid: TransferId): byte
  {
    (if start then 0x80 else 0) | (if end then 0x40 else 0) | (if toggle then 0x20 else 0) | tid
  }

  datatype Tail = Tail(start: bool, end: bool, toggle: bool, transferId: TransferId)

  /** Reads the four fields back out of a tail byte. */
  function ParseTail(b: byte): Tail
  {
    Tail(b & 0x80 != 0, b & 0x40 != 0, b & 0x20 != 0, b & 0x1f)
  }

  /** The four fields of a tail byte do not overlap: each reads back as written. */
  lemma ParseTailByte(start: bool, end: bool, toggle: bool, tid: TransferId)
    ensures ParseTail(TailByte(start, end, toggle, tid)) == Tail(start, end, toggle, tid)
  {
  }

  //
  // Frame lengths
  //

  /** The data lengths a frame can have: any length up to 8 on classic CAN; on CAN FD also
      12, 16, 20, 24, 32, 48 and 64, the lengths of data length codes 9 to 15. */
  predicate ValidLength(mtu: Mtu, n: nat)
  {
    match mtu
    case Can8 => n <= 8
    case CanFd64 => n <= 8 || n == 12 || n == 16 || n == 20 || n == 24 || n == 32 || n == 48 || n == 64
  }

  /** The shortest valid frame length that holds `n` bytes. */
  function RoundUpLength(mtu: Mtu, n: nat): (r: nat)
    requires n <= MtuBytes(mtu)
    ensures n <= r <= MtuBytes(mtu) && ValidLength(mtu, r)
    ensures forall m :: n <= m < r ==> !ValidLength(mtu, m)
  {
    if mtu == Can8 || n <= 8 then n
    else if n <= 12 then 12
    else if n <= 16 then 16
    else if n <= 20 then 20
    else if n <= 24 then 24
    else if n <= 32 then 32
    else if n <= 48 then 48
    else 64
  }

  //
  // Splitting a transfer into frames
  //

  /** The number of frames that carry `n` bytes at `cap` bytes per frame (at least one). */
  function FrameCount(n: nat, cap: nat): (r: nat)
    requires cap > 0
    ensures r >= 1
    decreases n
  {
    if n <= cap then 1 else 1 + FrameCount(n - cap, cap)
  }

  /** The number of bytes in the last of those frames. */
  function LastChunk(n: nat, cap: nat): (r: nat)
    requires cap > 0
    ensures r <= cap && (n > 0 ==> r > 0) && (n <= cap ==> r == n)
    decreases n
  {
    if n <= cap then n else LastChunk(n - cap, cap)
  }

  /** `FrameCount` and `LastChunk` describe `n`: the full frames and the last one add up to it. */
  lemma {:induction false} FrameCountSum(n: nat, cap: nat)
    requires cap > 0
    ensures n == (FrameCount(n, cap) - 1) * cap + LastChunk(n, cap)
    decreases n
  {
    if n > cap {
      FrameCountSum(n - cap, cap);
    }
  }

  /** Bytes added to a last frame that still has room for them do not add a frame. */
  lemma {:induction false} LastChunkGrow(n: nat, cap: nat, extra: nat)
    requires cap > 0 && n > 0 && LastChunk(n, cap) + extra <= cap
    ensures LastChunk(n + extra, cap) == LastChunk(n, cap) + extra
    ensures FrameCount(n + extra, cap) == FrameCount(n, cap)
    decreases n
  {
    if n > cap {
      LastChunkGrow(n - cap, cap, extra);
    }
  }

  /** The zero bytes of padding. */
  function Zeros(n: nat): (r: seq<byte>)
    ensures |r| == n && forall i :: 0 <= i < n ==> r[i] == 0
  {
    seq(n, _ => 0)
  }

  /** The number of zero bytes inserted so that the last frame gets a valid length: on a
      single-frame transfer they follow the payload, on a multi-frame transfer they come
      between the payload and the CRC and are covered by it. */
  function PaddingLength(mtu: Mtu, payloadLength: nat): nat
  {
    var cap := Capacity(mtu);
    var last := if payloadLength <= cap then payloadLength else LastChunk(payloadLength + 2, cap);
    RoundUpLength(mtu, last + 1) - (last + 1)
  }

  /** The payload with its padding. */
  function PaddedPayload(mtu: Mtu, payload: seq<byte>): seq<byte>
  {
    payload + Zeros(PaddingLength(mtu, |payload|))
  }

  /** The bytes carried by the frames of a transfer, tail bytes aside: the padded payload, and
      on a multi-frame transfer its CRC, big-endian. */
  function TransferStream(mtu: Mtu, payload: seq<byte>): seq<byte>
  {
    var padded := PaddedPayload(mtu, payload);
    if |payload| <= Capacity(mtu) then padded else padded + CrcBytes(Crc16(padded))
  }

  /** Cuts a byte stream into frames of `cap` bytes plus a tail byte each; `start` marks the
      first frame, `end` the last, and the toggle bit alternates from `toggle`. */
  function Split(timestamp: int, id: nat, tid: TransferId, cap: nat, stream: seq<byte>,
                 first: bool, toggle: bool): seq<Frame>
    requires cap > 0
    decreases |stream|
  {
    if |stream| <= cap then
      [Frame(timestamp, id, stream + [TailByte(first, true, toggle, tid)])]
    else
      [Frame(timestamp, id, stream[..cap] + [TailByte(first, false, toggle, tid)])]
        + Split(timestamp, id, tid, cap, stream[cap..], false, !toggle)
  }

  /** The frames a transmitter queues for one transfer, in transmission order. The pseudo node
      ID stands in for the source of an anonymous message. */
  function TransferFrames(mtu: Mtu, header: Header, payload: seq<byte>, pseudoId: NodeId): seq<Frame>
  {
    Split(header.Timestamp(), CanIdOf(header, pseudoId), header.TransferIdOf(), Capacity(mtu),
          TransferStream(mtu, payload), true, true)
  }

  /** A frame's data without its tail byte. */
  function Body(f: Frame): seq<byte>
  {
    if |f.data| == 0 then [] else f.data[..|f.data| - 1]
  }

  /** Every frame's body, concatenated: the bytes a receiver collects. */
  function Bodies(frames: seq<Frame>): seq<byte>
  {
    if |frames| == 0 then [] else Body(frames[0]) + Bodies(frames[1..])
  }

  lemma BodiesCons(f: Frame, rest: seq<Frame>)
    ensures Bodies([f] + rest) == Body(f) + Bodies(rest)
  {
    assert ([f] + rest)[1..] == rest;
  }

  /** A stream longer than one frame gives a full first frame followed by the split of the
      rest, with the start bit cleared and the toggle bit flipped. */
  lemma SplitUnfold(timestamp: int, id: nat, tid: TransferId, cap: nat, stream: seq<byte>,
                    first: bool, toggle: bool)
    requires 0 < cap < |stream|
    ensures Split(timestamp, id, tid, cap, stream, first, toggle)
            == [Frame(timestamp, id, stream[..cap] + [TailByte(first, false, toggle, tid)])]
               + Split(timestamp, id, tid, cap, stream[cap..], false, !toggle)
  {
  }

  /** A split has one frame per `cap` bytes of the stream, and at least one. */
  lemma {:induction false} SplitCount(timestamp: int, id: nat, tid: TransferId, cap: nat,
                                      stream: seq<byte>, first: bool, toggle: bool)
    requires cap > 0
    ensures |Split(timestamp, id, tid, cap, stream, first, toggle)| == FrameCount(|stream|, cap)
    decreases |stream|
  {
    if |stream| > cap {
      SplitUnfold(timestamp, id, tid, cap, stream, first, toggle);
      SplitCount(timestamp, id, tid, cap, stream[cap..], false, !toggle);
    }
  }

  /** `SplitUnfold` for a stream given as its first frame's bytes and the rest. */
  lemma SplitChunk(timestamp: int, id: nat, tid: TransferId, cap: nat, chunk: seq<byte>,
                   rest: seq<byte>, first: bool, toggle: bool)
    requires 0 < cap == |chunk| && |rest| > 0
    ensures Split(timestamp, id, tid, cap, chunk + rest, first, toggle)
            == [Frame(timestamp, id, chunk + [TailByte(first, false, toggle, tid)])]
               + Split(timestamp, id, tid, cap, rest, false, !toggle)
  {
    SplitUnfold(timestamp, id, tid, cap, chunk + rest, first, toggle);
    assert (chunk + rest)[..cap] == chunk;
    assert (chunk + rest)[cap..] == rest;
  }

  /** `SplitChunk` for a stream given as a full first chunk, more bytes and a trailer, with
      the first frame's tail byte given outright. */
  lemma SplitFrame(timestamp: int, id: nat, tid: TransferId, cap: nat, chunk: seq<byte>,
                   more: seq<byte>, trailer: seq<byte>, first: bool, toggle: bool, tail: byte)
    requires 0 < cap == |chunk| && |more + trailer| > 0
    requires TailByte(first, false, toggle, tid) == tail
    ensures Split(timestamp, id, tid, cap, chunk + more + trailer, first, toggle)
            == [Frame(timestamp, id, chunk + [tail])]
               + Split(timestamp, id, tid, cap, more + trailer, false, !toggle)
  {
    assert chunk + more + trailer == chunk + (more + trailer);
    SplitChunk(timestamp, id, tid, cap, chunk, more + trailer, first, toggle);
  }

  /** The shape of one frame of a split: the same deadline and ID as every other, a tail with
      the start bit on the first frame only, the end bit on the last only and the toggle bit
      alternating; a full frame unless it is the last, which carries what remains. */
  lemma {:induction false} SplitFrameAt(timestamp: int, id: nat, tid: TransferId, cap: nat,
                                        stream: seq<byte>, first: bool, toggle: bool, i: nat)
    requires cap > 0 && i < |Split(timestamp, id, tid, cap, stream, first, toggle)|
    ensures var r := Split(timestamp, id, tid, cap, stream, first, toggle);
      r[i].timestamp == timestamp && r[i].id == id && |r[i].data| > 0
      && r[i].data[|r[i].data| - 1]
         == TailByte(first && i == 0, i == |r| - 1, toggle == (i % 2 == 0), tid)
      && |r[i].data| == (if i < |r| - 1 then cap else LastChunk(|stream|, cap)) + 1
    decreases |stream|
  {
    if |stream| > cap {
      SplitUnfold(timestamp, id, tid, cap, stream, first, toggle);
      if i > 0 {
        var r := Split(timestamp, id, tid, cap, stream, first, toggle);
        var rest := Split(timestamp, id, tid, cap, stream[cap..], false, !toggle);
        SplitFrameAt(timestamp, id, tid, cap, stream[cap..], false, !toggle, i - 1);
        assert r[i] == rest[i - 1];
        ParityStep(i);
      }
    }
  }

  /** `SplitFrameAt` for every frame at once. */
  lemma SplitShape(timestamp: int, id: nat, tid: TransferId, cap: nat,
                   stream: seq<byte>, first: bool, toggle: bool)
    requires cap > 0
    ensures var r := Split(timestamp, id, tid, cap, stream, first, toggle);
      forall i :: 0 <= i < |r| ==>
        r[i].timestamp == timestamp && r[i].id == id && |r[i].data| > 0
        && r[i].data[|r[i].data| - 1]
           == TailByte(first && i == 0, i == |r| - 1, toggle == (i % 2 == 0), tid)
        && |r[i].data| == (if i < |r| - 1 then cap else LastChunk(|stream|, cap)) + 1
  {
    var r := Split(timestamp, id, tid, cap, stream, first, toggle);
    forall i | 0 <= i < |r|
      ensures r[i].timestamp == timestamp && r[i].id == id && |r[i].data| > 0
      ensures r[i].data[|r[i].data| - 1]
              == TailByte(first && i == 0, i == |r| - 1, toggle == (i % 2 == 0), tid)
      ensures |r[i].data| == (if i < |r| - 1 then cap else LastChunk(|stream|, cap)) + 1
    {
      SplitFrameAt(timestamp, id, tid, cap, stream, first, toggle, i);
    }
  }

  lemma ParityStep(i: nat)
    requires i > 0
    ensures ((i - 1) % 2 == 0) <==> (i % 2 != 0)
  {
  }

  /** Concatenating the frame bodies gives back the stream. */
  lemma {:induction false} SplitBodies(timestamp: int, id: nat, tid: TransferId, cap: nat,
                                       stream: seq<byte>, first: bool, toggle: bool)
    requires cap > 0
    ensures Bodies(Split(timestamp, id, tid, cap, stream, first, toggle)) == stream
    decreases |stream|
  {
    if |stream| <= cap {
      SplitBodiesLast(timestamp, id, tid, cap, stream, first, toggle);
    } else {
      SplitBodiesStep(timestamp, id, tid, cap, stream, first, toggle);
      SplitBodies(timestamp, id, tid, cap, stream[cap..], false, !toggle);
      assert stream[..cap] + stream[cap..] == stream;
    }
  }

  lemma SplitBodiesLast(timestamp: int, id: nat, tid: TransferId, cap: nat,
                        stream: seq<byte>, first: bool, toggle: bool)
    requires 0 < cap && |stream| <= cap
    ensures Bodies(Split(timestamp, id, tid, cap, stream, first, toggle)) == stream
  {
    var f := Frame(timestamp, id, stream + [TailByte(first, true, toggle, tid)]);
    assert Split(timestamp, id, tid, cap, stream, first, toggle) == [f] + [];
    BodiesCons(f, []);
    assert Body(f) == stream;
  }

  lemma SplitBodiesStep(timestamp: int, id: nat, tid: TransferId, cap: nat,
                        stream: seq<byte>, first: bool, toggle: bool)
    requires 0 < cap < |stream|
    ensures Bodies(Split(timestamp, id, tid, cap, stream, first, toggle))
            == stream[..cap] + Bodies(Split(timestamp, id, tid, cap, stream[cap..], false, !toggle))
  {
    var f := Frame(timestamp, id, stream[..cap] + [TailByte(first, false, toggle, tid)]);
    var rest := Split(timestamp, id, tid, cap, stream[cap..], false, !toggle);
    SplitUnfold(timestamp, id, tid, cap, stream, first, toggle);
    BodiesCons(f, rest);
    assert Body(f) == stream[..cap];
  }
  //
  // Whole transfers
  //

  /** The stream's last frame is exactly filled to a valid length by the padding, and the
      padding never adds a frame: a multi-frame transfer takes as many frames as its payload
      and CRC alone would. */
  lemma StreamLastFrame(mtu: Mtu, payload: seq<byte>)
    ensures var cap, n := Capacity(mtu), |TransferStream(mtu, payload)|;
      var last := if |payload| <= cap then |payload| else LastChunk(|payload| + 2, cap);
      LastChunk(n, cap) + 1 == RoundUpLength(mtu, last + 1)
      && FrameCount(n, cap) == if |payload| <= cap then 1 else FrameCount(|payload| + 2, cap)
  {
    var cap, pad := Capacity(mtu), PaddingLength(mtu, |payload|);
    if |payload| > cap {
      LastChunkGrow(|payload| + 2, cap, pad);
      assert |TransferStream(mtu, payload)| == |payload| + 2 + pad;
    }
  }

  /** One frame of a transfer: the transfer's deadline and CAN ID, a valid data length, the
      full MTU unless it is the last frame, and a tail byte with the start bit on the first
      frame only, the end bit on the last frame only, the toggle bit set on the first frame
      and alternating after it, and the transfer ID. */
  lemma TransferFrameAt(mtu: Mtu, header: Header, payload: seq<byte>, pseudoId: NodeId, i: nat)
    requires i < |TransferFrames(mtu, header, payload, pseudoId)|
    ensures var r := TransferFrames(mtu, header, payload, pseudoId);
      r[i].timestamp == header.Timestamp() && r[i].id == CanIdOf(header, pseudoId)
      && |r[i].data| > 0 && ValidLength(mtu, |r[i].data|)
      && (i < |r| - 1 ==> |r[i].data| == MtuBytes(mtu))
      && r[i].data[|r[i].data| - 1]
         == TailByte(i == 0, i == |r| - 1, i % 2 == 0, header.TransferIdOf())
  {
    var cap, stream := Capacity(mtu), TransferStream(mtu, payload);
    var ts, id, tid := header.Timestamp(), CanIdOf(header, pseudoId), header.TransferIdOf();
    var r := Split(ts, id, tid, cap, stream, true, true);
    SplitFrameAt(ts, id, tid, cap, stream, true, true, i);
    if i == |r| - 1 {
      StreamLastFrame(mtu, payload);
      var last := if |payload| <= cap then |payload| else LastChunk(|payload| + 2, cap);
      assert |r[i].data| == RoundUpLength(mtu, last + 1);
    }
  }

  /** `TransferFrameAt` for every frame at once; a transfer has at least one frame. */
  lemma TransferFrameShape(mtu: Mtu, header: Header, payload: seq<byte>, pseudoId: NodeId)
    ensures var r := TransferFrames(mtu, header, payload, pseudoId);
      |r| >= 1
      && forall i :: 0 <= i < |r| ==>
        r[i].timestamp == header.Timestamp() && r[i].id == CanIdOf(header, pseudoId)
        && |r[i].data| > 0 && ValidLength(mtu, |r[i].data|)
        && (i < |r| - 1 ==> |r[i].data| == MtuBytes(mtu))
        && r[i].data[|r[i].data| - 1]
           == TailByte(i == 0, i == |r| - 1, i % 2 == 0, header.TransferIdOf())
  {
    var r := TransferFrames(mtu, header, payload, pseudoId);
    SplitCount(header.Timestamp(), CanIdOf(header, pseudoId), header.TransferIdOf(),
               Capacity(mtu), TransferStream(mtu, payload), true, true);
    forall i | 0 <= i < |r|
      ensures r[i].timestamp == header.Timestamp() && r[i].id == CanIdOf(header, pseudoId)
      ensures |r[i].data| > 0 && ValidLength(mtu, |r[i].data|)
      ensures i < |r| - 1 ==> |r[i].data| == MtuBytes(mtu)
      ensures r[i].data[|r[i].data| - 1]
              == TailByte(i == 0, i == |r| - 1, i % 2 == 0, header.TransferIdOf())
    {
      TransferFrameAt(mtu, header, payload, pseudoId, i);
    }
  }

  /** A payload that fits in one frame becomes that one frame: the payload, the zero padding
      up to the next valid length and a tail byte with start, end and toggle set. There is no
      CRC. */
  lemma SingleFrameTransfer(mtu: Mtu, header: Header, payload: seq<byte>, pseudoId: NodeId)
    requires |payload| <= Capacity(mtu)
    ensures var pad := PaddingLength(mtu, |payload|);
      TransferFrames(mtu, header, payload, pseudoId)
        == [Frame(header.Timestamp(), CanIdOf(header, pseudoId),
                  payload + Zeros(pad) + [TailByte(true, true, true, header.TransferIdOf())])]
      && |payload| + pad + 1 == RoundUpLength(mtu, |payload| + 1)
  {
  }

  /** An empty payload becomes a single frame holding only the tail byte. */
  lemma EmptyTransfer(mtu: Mtu, header: Header, pseudoId: NodeId)
    ensures TransferFrames(mtu, header, [], pseudoId)
            == [Frame(header.Timestamp(), CanIdOf(header, pseudoId),
                      [TailByte(true, true, true, header.TransferIdOf())])]
  {
    SingleFrameTransfer(mtu, header, [], pseudoId);
    assert [] + Zeros(0) + [TailByte(true, true, true, header.TransferIdOf())]
           == [TailByte(true, true, true, header.TransferIdOf())];
  }

  /** A payload longer than one frame is carried, with its padding and then its CRC, across
      as many frames as the payload and the CRC need (the CRC may take a frame of its own).
      The bodies of the frames give back the payload, and their CRC is zero. */
  lemma MultiFrameTransfer(mtu: Mtu, header: Header, payload: seq<byte>, pseudoId: NodeId)
    requires |payload| > Capacity(mtu)
    ensures var r := TransferFrames(mtu, header, payload, pseudoId);
      var padded := PaddedPayload(mtu, payload);
      |r| == FrameCount(|payload| + 2, Capacity(mtu)) && |r| >= 2
      && Bodies(r) == padded + CrcBytes(Crc16(padded))
      && Bodies(r)[..|payload|] == payload
      && Crc16(Bodies(r)) == 0
  {
    var cap, stream := Capacity(mtu), TransferStream(mtu, payload);
    var ts, id, tid := header.Timestamp(), CanIdOf(header, pseudoId), header.TransferIdOf();
    var padded := PaddedPayload(mtu, payload);
    SplitCount(ts, id, tid, cap, stream, true, true);
    SplitBodies(ts, id, tid, cap, stream, true, true);
    StreamLastFrame(mtu, payload);
    assert (padded + CrcBytes(Crc16(padded)))[..|payload|] == payload;
    CrcOfTrailedPayload(padded);
  }

  /** Classic CAN frames are never padded. */
  lemma ClassicCanHasNoPadding(n: nat)
    ensures PaddingLength(Can8, n) == 0
  {
  }
}
