// The bxCAN transmit driver: three hardware mailboxes, a deadline remembered for the frame in
// each of them, and the conversions between Cyphal/CAN frames and bxCAN frames. The controller
// itself is an oracle: its answers arrive as parameters and the calls made on it are returned.
module BxCan {
  import opened Wrappers
  import opened CanTransmit

  /** The three transmit mailboxes of a bxCAN controller. */
  datatype Mailbox = Mailbox0 | Mailbox1 | Mailbox2 {
    /** `mailbox as usize`. */
    function Index(): (i: nat)
      ensures i < 3
    {
      match this
      case Mailbox0 => 0
      case Mailbox1 => 1
      case Mailbox2 => 2
    }
  }

  /** The mailboxes in the order the driver visits them. */
  const Mailboxes: seq<Mailbox> := [Mailbox0, Mailbox1, Mailbox2]

  /** A value that fits in an 11-bit standard identifier. */
  type StandardId = x: nat | x < 0x800

  /** A value that fits in a 29-bit extended identifier. */
  type ExtendedId = x: nat | x < 0x2000_0000

  /** The identifier of a bxCAN frame. */
  datatype BxId = Standard(sid: StandardId) | Extended(eid: ExtendedId)

  /** A bxCAN frame; `data` is `None` for a remote frame. */
  datatype BxFrame = BxFrame(id: BxId, data: Option<seq<byte>>)

  /** Whether `bits` is accepted by `CanId::try_from`: a 29-bit value. */
  predicate ValidCanId(bits: nat) {
    bits < 0x2000_0000
  }

  /** `InvalidFrameFormat`, or the converted frame. */
  datatype Converted = Converted(frame: Frame) | InvalidFrameFormat

  /** `bxcan_frame_to_uavcan`: rejects standard identifiers, identifiers that are not valid CAN
      IDs and frames with no data; otherwise keeps identifier and data and stamps `timestamp`. */
  function BxcanFrameToUavcan(f: BxFrame, timestamp: int): (r: Converted)
    ensures r.Converted? <==> f.id.Extended? && ValidCanId(f.id.eid) && f.data.Some?
    ensures r.Converted? ==> r.frame == Frame(timestamp, f.id.eid, f.data.value)
  {
    match f.id
    case Standard(_) => InvalidFrameFormat
    case Extended(bits) =>
      if !ValidCanId(bits) then InvalidFrameFormat
      else match f.data
        case None => InvalidFrameFormat
        case Some(data) => Converted(Frame(timestamp, bits, data))
  }

  /** `uavcan_frame_to_bxcan`: an extended-identifier data frame. The source panics on more
      than 8 data bytes and on an identifier wider than 29 bits, which callers rule out. */
  function UavcanFrameToBxcan(f: Frame): (r: BxFrame)
    requires ValidCanId(f.id) && |f.data| <= 8
    ensures r.id.Extended? && r.data.Some? && |r.data.value| <= 8
  {
    BxFrame(Extended(f.id), Some(f.data))
  }

  /** Converting to bxCAN and back gives the original frame, restamped with the timestamp
      passed back in. */
  lemma FrameRoundTrip(f: Frame, timestamp: int)
    requires ValidCanId(f.id) && |f.data| <= 8
    ensures BxcanFrameToUavcan(UavcanFrameToBxcan(f), timestamp)
            == Converted(Frame(timestamp, f.id, f.data))
  {
  }

  /** Every extended identifier is a valid CAN ID, so the only rejections of an extended frame
      are remote frames. */
  lemma ExtendedRejectedOnlyWithoutData(f: BxFrame, timestamp: int)
    requires f.id.Extended?
    ensures BxcanFrameToUavcan(f, timestamp).InvalidFrameFormat? <==> f.data.None?
  {
  }

  /** `try_reserve` of the driver: there is no in-memory queue, so only a single frame can be
      reserved, assuming a mailbox is free. */
  function TryReserve(frames: nat): (r: Status)
    ensures r == Ok <==> frames == 1
  {
    if frames == 1 then Ok else OutOfMemory
  }

  /** Whether a mailbox holding a frame with deadline `slot` is overdue at `now`, as
      `clean_expired_frames` decides it. `compare` is `overflow_safe_compare`. */
  predicate Expired(compare: (int, int) -> Ordering, now: int, slot: Option<int>) {
    slot.Some? && compare(now, slot.value) == Greater
  }

  /** Whether `transmit` drops a frame with this deadline instead of sending it. */
  predicate DeadlinePassed(compare: (int, int) -> Ordering, deadline: int, now: int) {
    compare(deadline, now) == Less
  }

  /** The two decisions agree: with an antisymmetric comparison a frame that `transmit` does
      not drop is not expired at the same instant, so it is not aborted straight away. */
  lemma SentFrameNotExpired(compare: (int, int) -> Ordering, deadline: int, now: int)
    requires compare(deadline, now) == compare(now, deadline).Reverse()
    ensures !DeadlinePassed(compare, deadline, now) <==> !Expired(compare, now, Some(deadline))
  {
    match compare(now, deadline)
    case Less =>
    case Equal =>
    case Greater =>
  }

  /** `DeadlineTracker`: the deadline of the frame in each mailbox, if any. */
  class DeadlineTracker {
    const deadlines: array<Option<int>>

    ghost predicate Valid()
      reads this
    {
      deadlines.Length == 3
    }

    /** `new`: no deadlines. */
    constructor ()
      ensures Valid() && fresh(deadlines)
      ensures forall m: Mailbox :: Get(m) == None
    {
      deadlines := new Option<int>[3](_ => None);
    }

    /** `get`: the deadline recorded for mailbox `m`. */
    function Get(m: Mailbox): (r: Option<int>)
      reads this, deadlines
      requires Valid()
      ensures r == deadlines[..][m.Index()]
    {
      deadlines[m.Index()]
    }

    /** `replace`: records `d` for mailbox `m` and returns what was recorded before; the other
        mailboxes keep theirs. */
    method Replace(m: Mailbox, d: int) returns (previous: Option<int>)
      requires Valid()
      modifies deadlines
      ensures Valid()
      ensures previous == old(Get(m)) && Get(m) == Some(d)
      ensures forall other: Mailbox :: other != m ==> Get(other) == old(Get(other))
      ensures deadlines[..] == old(deadlines[..])[m.Index() := Some(d)]
    {
      previous := deadlines[m.Index()];
      deadlines[m.Index()] := Some(d);
    }
  }

  /** `clean_expired_frames`: the mailboxes to abort, in mailbox order: exactly those whose
      recorded deadline is before `now`. The tracker is only read, so the slots of aborted
      mailboxes keep their deadlines. */
  method CleanExpiredFrames(tracker: DeadlineTracker, now: int, compare: (int, int) -> Ordering)
    returns (aborted: seq<Mailbox>)
    requires tracker.Valid()
    ensures forall m: Mailbox :: m in aborted <==> Expired(compare, now, tracker.Get(m))
    ensures forall i, j :: 0 <= i < j < |aborted| ==> aborted[i].Index() < aborted[j].Index()
  {
    aborted := [];
    for k := 0 to |Mailboxes|
      invariant forall m: Mailbox ::
                  m in aborted <==> m.Index() < k && Expired(compare, now, tracker.Get(m))
      invariant forall i, j :: 0 <= i < j < |aborted| ==> aborted[i].Index() < aborted[j].Index()
      invariant forall i :: 0 <= i < |aborted| ==> aborted[i].Index() < k
    {
      var m := Mailboxes[k];
      assert m.Index() == k;
      match tracker.Get(m)
      case Some(deadline) =>
        if compare(now, deadline) == Greater {
          aborted := aborted + [m];
        }
      case None =>
    }
  }

  /** The controller's answer to a transmit request: no mailbox free, or the mailbox used and
      the lower-priority frame it evicted, if any. */
  datatype HardwareReply = Busy | Queued(mailbox: Mailbox, dequeued: Option<BxFrame>)

  /** The outcome of `transmit`: `WouldBlock`, or done with the evicted frame handed back. */
  datatype TransmitResult = WouldBlock | Done(removed: Option<Frame>)

  /** The frame handed back when the controller evicts `dequeued` from a mailbox whose
      recorded deadline was `previous`: only a convertible frame with a known deadline. */
  function Evicted(dequeued: Option<BxFrame>, previous: Option<int>): (r: Option<Frame>)
    ensures r.Some? <==> dequeued.Some? && previous.Some?
                         && BxcanFrameToUavcan(dequeued.value, previous.value).Converted?
    ensures r.Some? ==> r.value.timestamp == previous.value
  {
    if dequeued.Some? && previous.Some? then
      match BxcanFrameToUavcan(dequeued.value, previous.value)
      case Converted(f) => Some(f)
      case InvalidFrameFormat => None
    else None
  }

  /** `BxCanDriver`: the controller (an oracle) and the deadline tracker. */
  class BxCanDriver {
    const deadlines: DeadlineTracker

    ghost predicate Valid()
      reads this, deadlines
    {
      deadlines.Valid()
    }

    /** `new`: a driver that tracks no deadlines. */
    constructor ()
      ensures Valid() && fresh(deadlines) && fresh(deadlines.deadlines)
      ensures forall m: Mailbox :: deadlines.Get(m) == None
    {
      deadlines := new DeadlineTracker();
    }

    /** `transmit`: first aborts the overdue mailboxes (`aborted`). A frame whose deadline
        (its timestamp) is before `now` is then dropped without reaching the controller. Any
        other frame is converted and handed to the controller (`handed`); `reply` is the
        controller's answer. When it is queued, its deadline replaces the mailbox's previous
        one, and an evicted frame is handed back stamped with that previous deadline. */
    method Transmit(frame: Frame, now: int, compare: (int, int) -> Ordering,
                    reply: HardwareReply)
      returns (r: TransmitResult, aborted: seq<Mailbox>, handed: Option<BxFrame>)
      requires Valid() && ValidCanId(frame.id)
      requires !DeadlinePassed(compare, frame.timestamp, now) ==> |frame.data| <= 8
      modifies deadlines.deadlines
      ensures Valid()
      ensures forall m: Mailbox :: m in aborted <==> Expired(compare, now, old(deadlines.Get(m)))
      ensures DeadlinePassed(compare, frame.timestamp, now) ==>
                r == Done(None) && handed == None && deadlines.deadlines[..] == old(deadlines.deadlines[..])
      ensures !DeadlinePassed(compare, frame.timestamp, now) ==>
                handed == Some(UavcanFrameToBxcan(frame))
      ensures !DeadlinePassed(compare, frame.timestamp, now) && reply.Busy? ==>
                r == WouldBlock && deadlines.deadlines[..] == old(deadlines.deadlines[..])
      ensures !DeadlinePassed(compare, frame.timestamp, now) && reply.Queued? ==>
                && deadlines.deadlines[..]
                   == old(deadlines.deadlines[..])[reply.mailbox.Index() := Some(frame.timestamp)]
                && r == Done(Evicted(reply.dequeued, old(deadlines.Get(reply.mailbox))))
    {
      aborted := CleanExpiredFrames(deadlines, now, compare);
      var deadline := frame.timestamp;
      if compare(deadline, now) == Less {
        return Done(None), aborted, None;
      }
      handed := Some(UavcanFrameToBxcan(frame));
      match reply
      case Busy =>
        r := WouldBlock;
      case Queued(mailbox, dequeued) =>
        var previous := deadlines.Replace(mailbox, deadline);
        r := Done(Evicted(dequeued, previous));
    }
  }
}
