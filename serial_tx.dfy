// The Cyphal/serial transmitter: each transfer is COBS-escaped and queued between two zero
// delimiters in a bounded byte queue, which `flush` drains into a byte-at-a-time driver.
module SerialTransmit {
  import opened Wrappers

  /** The frame delimiter byte. */
  const Delimiter: byte := 0

  /** Bytes added around each escaped frame: one delimiter on each side. */
  const UnescapedOverhead: nat := 2

  /** Length of the payload CRC that follows the payload inside the escaped frame. */
  const PayloadCrcLength: nat := 4

  /** `usize::MAX` on a 64-bit target. */
  const UsizeMax: nat := 0x1_0000_0000_0000_0000 - 1

  /** The COBS encoder the transmitter relies on, as a pair of functions: the worst-case
      escaped size for an input length, and the escaper itself. */
  datatype Cobs = Cobs(escapedSize: nat -> nat, escape: seq<byte> -> seq<byte>) {
    /** What any COBS encoder guarantees: the output never contains the delimiter and never
        exceeds the worst-case size, so the escaper cannot overrun a buffer of that size. */
    ghost predicate Valid() {
      forall d :: |escape(d)| <= escapedSize(|d|) && Delimiter !in escape(d)
    }
  }

  /** The outcome of one `send_byte` call on the driver. */
  datatype SendReply<E> = Accepted | Busy | Fault(error: E)

  /** The outcome of `push`. */
  datatype PushResult = Pushed | Memory

  /** The outcome of `flush`. */
  datatype FlushResult<E> = Flushed | WouldBlock | Driver(error: E)

  /** The bytes of one queued frame: the escaped bytes between two delimiters. */
  function WireFrame(escaped: seq<byte>): (w: seq<byte>)
    ensures |w| == |escaped| + UnescapedOverhead
    ensures w[0] == Delimiter && w[|w| - 1] == Delimiter && w[1..|w| - 1] == escaped
  {
    [Delimiter] + escaped + [Delimiter]
  }

  /** A queued frame is self-delimiting when its escaped bytes are free of the delimiter:
      the delimiter appears exactly at its two ends. */
  lemma DelimitersOnlyAtEnds(escaped: seq<byte>, j: nat)
    requires Delimiter !in escaped && j < |WireFrame(escaped)|
    ensures WireFrame(escaped)[j] == Delimiter <==> j == 0 || j == |escaped| + 1
  {
    var w := WireFrame(escaped);
    if 0 < j < |w| - 1 {
      assert w[j] == w[1..|w| - 1][j - 1] == escaped[j - 1];
    }
  }

  /** Index of the first byte the driver refuses, scanning replies `from` up to `n`; `n` when
      it takes them all. */
  function FirstRefused<E>(reply: nat -> SendReply<E>, from: nat, n: nat): (k: nat)
    requires from <= n
    ensures from <= k <= n
    ensures forall j :: from <= j < k ==> reply(j) == Accepted
    ensures k < n ==> reply(k) != Accepted
    decreases n - from
  {
    if from == n || reply(from) != Accepted then from else FirstRefused(reply, from + 1, n)
  }

  /** `TransmitQueue`: a fixed-capacity byte deque. */
  class TransmitQueue {
    var bytes: seq<byte>
    const capacity: nat

    ghost predicate Valid()
      reads this
    {
      |bytes| <= capacity
    }

    /** `new`: an empty queue of capacity `c`. */
    constructor (c: nat)
      ensures Valid() && bytes == [] && capacity == c
    {
      bytes, capacity := [], c;
    }

    /** `push_back`: appends when there is room. */
    method PushBack(b: byte) returns (r: Status)
      requires Valid()
      modifies this
      ensures Valid()
      ensures r == Ok <==> |old(bytes)| < capacity
      ensures bytes == if r == Ok then old(bytes) + [b] else old(bytes)
    {
      if |bytes| < capacity {
        bytes, r := bytes + [b], Ok;
      } else {
        r := OutOfMemory;
      }
    }

    /** `push_front`: prepends when there is room. */
    method PushFront(b: byte) returns (r: Status)
      requires Valid()
      modifies this
      ensures Valid()
      ensures r == Ok <==> |old(bytes)| < capacity
      ensures bytes == if r == Ok then [b] + old(bytes) else old(bytes)
    {
      if |bytes| < capacity {
        bytes, r := [b] + bytes, Ok;
      } else {
        r := OutOfMemory;
      }
    }

    /** `pop_front`: removes and returns the oldest byte, `None` when empty. */
    method PopFront() returns (r: Option<byte>)
      requires Valid()
      modifies this
      ensures Valid()
      ensures old(bytes) == [] ==> r == None && bytes == []
      ensures old(bytes) != [] ==> r == Some(old(bytes)[0]) && bytes == old(bytes)[1..]
    {
      if bytes == [] {
        r := None;
      } else {
        r := Some(bytes[0]);
        bytes := bytes[1..];
      }
    }

    /** Room left for more bytes: `capacity() - len()`. */
    function Free(): (n: nat)
      reads this
      requires Valid()
      ensures |bytes| + n == capacity
    {
      capacity - |bytes|
    }
  }

  /** `SerialTransmitter`: the transmit queue plus the fixed size of the serial header. */
  class SerialTransmitter {
    const queue: TransmitQueue
    const headerSize: nat

    ghost predicate Valid()
      reads this, queue
    {
      queue.Valid()
    }

    /** `new`: an empty queue of `capacity` bytes. */
    constructor (capacity: nat, headerSize: nat)
      ensures Valid() && fresh(queue)
      ensures queue.bytes == [] && queue.capacity == capacity && this.headerSize == headerSize
    {
      queue := new TransmitQueue(capacity);
      this.headerSize := headerSize;
    }

    /** `push`: queues one transfer as `[0] ++ COBS(header ++ payload ++ crc) ++ [0]`, or
        nothing at all.

        The queue must have room for the worst-case escaped length, and the escape buffer
        must be allocated (`bufferAllocated` is the allocator's answer); otherwise the
        result is `Memory` and the queue is unchanged. The second capacity check, against
        the real escaped length, can then never fail, and neither can any `push_back`. */
    method Push(header: seq<byte>, payload: seq<byte>, crc: seq<byte>, cobs: Cobs,
                bufferAllocated: bool) returns (r: PushResult)
      requires Valid() && cobs.Valid()
      requires |header| == headerSize && |crc| == PayloadCrcLength
      modifies queue
      ensures Valid()
      ensures r == Pushed <==>
                cobs.escapedSize(|payload| + headerSize + PayloadCrcLength) + UnescapedOverhead
                  <= old(queue.Free()) && bufferAllocated
      ensures queue.bytes == if r == Pushed
                             then old(queue.bytes) + WireFrame(cobs.escape(header + payload + crc))
                             else old(queue.bytes)
    {
      var frameLength := |payload| + headerSize + PayloadCrcLength;
      var worstCase := cobs.escapedSize(frameLength);
      if worstCase + UnescapedOverhead > queue.capacity - |queue.bytes| {
        return Memory;
      }
      if !bufferAllocated {
        return Memory;
      }
      var escaped := cobs.escape(header + payload + crc);
      assert |escaped| <= worstCase;
      if |escaped| + UnescapedOverhead > queue.capacity - |queue.bytes| {
        return Memory;
      }
      var st := queue.PushBack(Delimiter);
      assert st == Ok;
      for i := 0 to |escaped|
        invariant queue.Valid()
        invariant queue.bytes == old(queue.bytes) + [Delimiter] + escaped[..i]
      {
        st := queue.PushBack(escaped[i]);
        assert st == Ok;
        assert escaped[..i + 1] == escaped[..i] + [escaped[i]];
      }
      st := queue.PushBack(Delimiter);
      assert st == Ok;
      assert escaped[..|escaped|] == escaped;
      r := Pushed;
    }

    /** `flush`: hands queued bytes to the driver oldest first. `reply(k)` is the driver's
        answer to the k-th byte of this call. On the first refusal the byte goes back to the
        front of the queue (which cannot fail, as it was just removed) and the refusal is
        reported; otherwise the queue ends up empty. `sent` holds the bytes the driver
        accepted. */
    method Flush<E>(reply: nat -> SendReply<E>) returns (r: FlushResult<E>, sent: seq<byte>)
      requires Valid()
      modifies queue
      ensures Valid()
      ensures var k := FirstRefused(reply, 0, |old(queue.bytes)|);
              && sent == old(queue.bytes)[..k]
              && queue.bytes == old(queue.bytes)[k..]
              && r == if k == |old(queue.bytes)| then Flushed
                      else if reply(k) == Busy then WouldBlock
                      else Driver(reply(k).error)
    {
      ghost var start := queue.bytes;
      var i := 0;
      sent := [];
      while true
        invariant queue.Valid()
        invariant i <= |start| && sent == start[..i] && queue.bytes == start[i..]
        invariant forall j :: 0 <= j < i ==> reply(j) == Accepted
        decreases |queue.bytes|
      {
        var b := queue.PopFront();
        if b == None {
          assert FirstRefused(reply, i, |start|) == i;
          UnrefusedPrefix(reply, |start|, i);
          return Flushed, sent;
        }
        var answer := reply(i);
        if answer != Accepted {
          var st := queue.PushFront(b.value);
          assert st == Ok;
          assert queue.bytes == start[i..];
          UnrefusedPrefix(reply, |start|, i);
          r := if answer == Busy then WouldBlock else Driver(answer.error);
          return r, sent;
        }
        assert start[..i + 1] == start[..i] + [b.value];
        sent := sent + [b.value];
        i := i + 1;
      }
    }

    /** `mtu`: virtually unlimited. */
    function Mtu(): (m: nat)
      ensures m == 0xFFFF_FFFF_FFFF_FFFF
    {
      UsizeMax
    }
  }

  /** When the first `i` replies accept and the scan stops at `i`, the first refusal is `i`. */
  lemma UnrefusedPrefix<E>(reply: nat -> SendReply<E>, n: nat, i: nat)
    requires i <= n && (forall j :: 0 <= j < i ==> reply(j) == Accepted)
    requires i == n || reply(i) != Accepted
    ensures FirstRefused(reply, 0, n) == i
  {
    PrefixScan(reply, n, 0, i);
  }

  /** Scanning from `from` over accepted replies reaches the first refusal at `i`. */
  lemma {:induction false} PrefixScan<E>(reply: nat -> SendReply<E>, n: nat, from: nat, i: nat)
    requires from <= i <= n && (forall j :: from <= j < i ==> reply(j) == Accepted)
    requires i == n || reply(i) != Accepted
    ensures FirstRefused(reply, from, n) == i
    decreases i - from
  {
    if from < i {
      PrefixScan(reply, n, from + 1, i);
    }
  }

  /** With a driver that accepts everything, `flush` sends the whole queue in FIFO order and
      leaves it empty. */
  lemma FlushAllAccepted<E>(reply: nat -> SendReply<E>, queued: seq<byte>)
    requires forall j :: 0 <= j < |queued| ==> reply(j) == Accepted
    ensures FirstRefused(reply, 0, |queued|) == |queued|
    ensures queued[..FirstRefused(reply, 0, |queued|)] == queued
  {
    UnrefusedPrefix(reply, |queued|, |queued|);
  }
}
