// Double-redundant frame queues: one outgoing frame is fanned out to two inner queues, and an
// operation succeeds when it succeeds on at least one of them. Inner queues may themselves be
// redundant pairs, which gives triple (or deeper) redundancy.
module RedundantQueues {
  import opened Wrappers

  /** A plain bounded frame queue at the bottom of a redundancy tree. */
  datatype Queue<F> = Queue(frames: seq<F>, capacity: nat) {
    /** Whether `n` more frames fit: the bounded queue's `try_reserve` rule. */
    predicate Fits(n: nat) {
      |frames| + n <= capacity
    }
  }

  /** A frame sink: a plain queue, or a redundant pair of sinks together with the outcomes of
      the last reservation on each of them. */
  datatype Sink<F> =
    | Leaf(queue: Queue<F>)
    | Redundant(q0: Sink<F>, q1: Sink<F>, status0: Status, status1: Status)

  /** `try_reserve(n)`: a plain queue answers from its free space and does not change; a pair
      asks both inner sinks, records both answers and reports whether either succeeded. */
  function Reserve<F>(s: Sink<F>, n: nat): (r: (Sink<F>, Status))
    ensures Leaves(r.0) == Leaves(s)
  {
    match s
    case Leaf(q) => (s, if q.Fits(n) then Ok else OutOfMemory)
    case Redundant(q0, q1, _, _) =>
      var (r0, st0) := Reserve(q0, n);
      var (r1, st1) := Reserve(q1, n);
      (Redundant(r0, r1, st0, st1), st0.Or(st1))
  }

  /** `push_frame(f)`: a plain queue appends `f` when it has room; a pair pushes a copy of `f`
      to each inner sink whose last reservation succeeded and reports whether either accepted
      it. The recorded statuses are left as they are. */
  function Push<F>(s: Sink<F>, f: F): (r: (Sink<F>, Status))
    ensures |Leaves(r.0)| == |Leaves(s)| && Statuses(r.0) == Statuses(s)
  {
    match s
    case Leaf(q) =>
      if q.Fits(1) then (Leaf(Queue(q.frames + [f], q.capacity)), Ok) else (s, OutOfMemory)
    case Redundant(q0, q1, s0, s1) =>
      var (r0, p0) := if s0 == Ok then Push(q0, f) else (q0, OutOfMemory);
      var (r1, p1) := if s1 == Ok then Push(q1, f) else (q1, OutOfMemory);
      (Redundant(r0, r1, s0, s1), p0.Or(p1))
  }

  /** `shrink_to_fit`: releases spare memory in every inner queue. Contents and capacity
      limits are what this model observes, and neither changes. */
  function Shrink<F>(s: Sink<F>): Sink<F>
  {
    match s
    case Leaf(q) => s
    case Redundant(q0, q1, s0, s1) => Redundant(Shrink(q0), Shrink(q1), s0, s1)
  }

  /** The plain queues of a sink, left to right. */
  function Leaves<F>(s: Sink<F>): (r: seq<Queue<F>>)
    ensures |r| >= 1
  {
    match s
    case Leaf(q) => [q]
    case Redundant(q0, q1, _, _) => Leaves(q0) + Leaves(q1)
  }

  /** The recorded reservation outcomes of a sink, in pre-order. */
  function Statuses<F>(s: Sink<F>): seq<Status>
  {
    match s
    case Leaf(_) => []
    case Redundant(q0, q1, s0, s1) => [s0, s1] + Statuses(q0) + Statuses(q1)
  }

  /** Whether a push reaches plain queue `i` at all: every recorded status on the way down to
      it is `Ok`. */
  predicate EligibleAt<F>(s: Sink<F>, i: nat)
    requires i < |Leaves(s)|
  {
    match s
    case Leaf(_) => true
    case Redundant(q0, q1, s0, s1) =>
      if i < |Leaves(q0)| then s0 == Ok && EligibleAt(q0, i)
      else s1 == Ok && EligibleAt(q1, i - |Leaves(q0)|)
  }

  /** Whether a push stores the frame in plain queue `i`. */
  predicate AcceptsAt<F>(s: Sink<F>, i: nat)
    requires i < |Leaves(s)|
  {
    EligibleAt(s, i) && Leaves(s)[i].Fits(1)
  }

  /** A plain queue with room for `n` frames makes the reservation succeed, and it is
      reachable by the next push: every status on its path records a success, its own or a
      sibling's. */
  lemma {:induction false} ReserveFits<F>(s: Sink<F>, n: nat, i: nat)
    requires i < |Leaves(s)| && Leaves(s)[i].Fits(n)
    ensures Reserve(s, n).1 == Ok && EligibleAt(Reserve(s, n).0, i)
  {
    match s
    case Leaf(_) =>
    case Redundant(q0, q1, _, _) =>
      var l0 := Leaves(q0);
      if i < |l0| {
        assert Leaves(s)[i] == l0[i];
        ReserveFits(q0, n, i);
      } else {
        assert Leaves(s)[i] == Leaves(q1)[i - |l0|];
        ReserveFits(q1, n, i - |l0|);
      }
  }

  /** A successful reservation has a plain queue with room behind it. */
  lemma {:induction false} ReserveWitness<F>(s: Sink<F>, n: nat)
    requires Reserve(s, n).1 == Ok
    ensures exists i :: 0 <= i < |Leaves(s)| && Leaves(s)[i].Fits(n)
  {
    match s
    case Leaf(q) =>
      assert Leaves(s)[0] == q;
    case Redundant(q0, q1, _, _) =>
      var l0 := Leaves(q0);
      if Reserve(q0, n).1 == Ok {
        ReserveWitness(q0, n);
        var i :| 0 <= i < |l0| && l0[i].Fits(n);
        assert Leaves(s)[i] == l0[i];
      } else {
        ReserveWitness(q1, n);
        var i :| 0 <= i < |Leaves(q1)| && Leaves(q1)[i].Fits(n);
        assert Leaves(s)[|l0| + i] == Leaves(q1)[i];
      }
  }

  /** A reservation succeeds iff at least one plain queue anywhere in the tree has room for
      `n` more frames. */
  lemma ReserveOutcome<F>(s: Sink<F>, n: nat)
    ensures Reserve(s, n).1 == Ok <==> exists i :: 0 <= i < |Leaves(s)| && Leaves(s)[i].Fits(n)
  {
    if Reserve(s, n).1 == Ok {
      ReserveWitness(s, n);
    }
    forall i | 0 <= i < |Leaves(s)| && Leaves(s)[i].Fits(n) ensures Reserve(s, n).1 == Ok {
      ReserveFits(s, n, i);
    }
  }

  /** What a push does to plain queue `i`: the identical frame is appended when the queue is
      reachable and has room, and otherwise the queue is untouched. */
  lemma {:induction false} PushAt<F>(s: Sink<F>, f: F, i: nat)
    requires i < |Leaves(s)|
    ensures Leaves(Push(s, f).0)[i]
            == if AcceptsAt(s, i) then Queue(Leaves(s)[i].frames + [f], Leaves(s)[i].capacity)
               else Leaves(s)[i]
  {
    match s
    case Leaf(_) =>
    case Redundant(q0, q1, s0, s1) =>
      var l0 := Leaves(q0);
      if i < |l0| {
        assert Leaves(s)[i] == l0[i];
        if s0 == Ok {
          PushAt(q0, f, i);
        }
      } else {
        assert Leaves(s)[i] == Leaves(q1)[i - |l0|];
        if s1 == Ok {
          PushAt(q1, f, i - |l0|);
        }
      }
  }

  /** A plain queue that accepts the frame makes the push succeed. */
  lemma {:induction false} PushLands<F>(s: Sink<F>, f: F, i: nat)
    requires i < |Leaves(s)| && AcceptsAt(s, i)
    ensures Push(s, f).1 == Ok
  {
    match s
    case Leaf(_) =>
    case Redundant(q0, q1, _, _) =>
      var l0 := Leaves(q0);
      if i < |l0| {
        assert Leaves(s)[i] == l0[i];
        PushLands(q0, f, i);
      } else {
        assert Leaves(s)[i] == Leaves(q1)[i - |l0|];
        PushLands(q1, f, i - |l0|);
      }
  }

  /** A successful push has a plain queue behind it that accepted the frame. */
  lemma {:induction false} PushWitness<F>(s: Sink<F>, f: F)
    requires Push(s, f).1 == Ok
    ensures exists i :: 0 <= i < |Leaves(s)| && AcceptsAt(s, i)
  {
    match s
    case Leaf(q) =>
      assert AcceptsAt(s, 0);
    case Redundant(q0, q1, s0, s1) =>
      var l0 := Leaves(q0);
      if s0 == Ok && Push(q0, f).1 == Ok {
        PushWitness(q0, f);
        var i :| 0 <= i < |l0| && AcceptsAt(q0, i);
        assert Leaves(s)[i] == l0[i];
        assert AcceptsAt(s, i);
      } else {
        PushWitness(q1, f);
        var i :| 0 <= i < |Leaves(q1)| && AcceptsAt(q1, i);
        assert Leaves(s)[|l0| + i] == Leaves(q1)[i];
        assert AcceptsAt(s, |l0| + i);
      }
  }

  /** A push succeeds iff the frame lands on at least one plain queue. */
  lemma PushOutcome<F>(s: Sink<F>, f: F)
    ensures Push(s, f).1 == Ok <==> exists i :: 0 <= i < |Leaves(s)| && AcceptsAt(s, i)
  {
    if Push(s, f).1 == Ok {
      PushWitness(s, f);
    }
    forall i | 0 <= i < |Leaves(s)| && AcceptsAt(s, i) ensures Push(s, f).1 == Ok {
      PushLands(s, f, i);
    }
  }

  /** A successful reservation of at least one frame guarantees that the next push succeeds. */
  lemma ReserveThenPush<F>(s: Sink<F>, n: nat, f: F)
    requires n >= 1 && Reserve(s, n).1 == Ok
    ensures Push(Reserve(s, n).0, f).1 == Ok
  {
    ReserveWitness(s, n);
    var i :| 0 <= i < |Leaves(s)| && Leaves(s)[i].Fits(n);
    ReserveFits(s, n, i);
    PushLands(Reserve(s, n).0, f, i);
  }

  /** Shrinking changes no queue and no recorded status. */
  lemma {:induction false} ShrinkKeeps<F>(s: Sink<F>)
    ensures Leaves(Shrink(s)) == Leaves(s) && Statuses(Shrink(s)) == Statuses(s)
  {
    match s
    case Leaf(_) =>
    case Redundant(q0, q1, _, _) =>
      ShrinkKeeps(q0);
      ShrinkKeeps(q1);
  }

  /** Triple redundancy, by nesting a pair inside a pair in either order: the reservation
      succeeds iff one of the three queues has room, and the push succeeds iff the frame
      lands on one of them. */
  lemma TripleRedundancy<F>(s: Sink<F>, n: nat, f: F)
    requires |Leaves(s)| == 3
    ensures Reserve(s, n).1 == Ok <==>
              Leaves(s)[0].Fits(n) || Leaves(s)[1].Fits(n) || Leaves(s)[2].Fits(n)
    ensures Push(s, f).1 == Ok <==> AcceptsAt(s, 0) || AcceptsAt(s, 1) || AcceptsAt(s, 2)
  {
    ReserveOutcome(s, n);
    PushOutcome(s, f);
  }

  /** The outermost redundant queue object, whose fields `try_reserve` and `push_frame`
      update in place. */
  class RedundantQueue<F> {
    var queue0: Sink<F>
    var queue1: Sink<F>
    var status0: Status
    var status1: Status

    /** The object's state as a sink value. */
    function Model(): Sink<F>
      reads this
    {
      Redundant(queue0, queue1, status0, status1)
    }

    /** `new`: both recorded statuses start out `Ok`, so the first push reaches both queues. */
    constructor (q0: Sink<F>, q1: Sink<F>)
      ensures queue0 == q0 && queue1 == q1 && status0 == Ok && status1 == Ok
    {
      queue0, queue1, status0, status1 := q0, q1, Ok, Ok;
    }

    /** `try_reserve`: asks both queues, stores each answer, succeeds if either did. */
    method TryReserve(n: nat) returns (r: Status)
      modifies this
      ensures (queue0, status0) == Reserve(old(queue0), n)
      ensures (queue1, status1) == Reserve(old(queue1), n)
      ensures r == Ok <==> status0 == Ok || status1 == Ok
      ensures (Model(), r) == Reserve(old(Model()), n)
    {
      var (a, st0) := Reserve(queue0, n);
      queue0, status0 := a, st0;
      var (b, st1) := Reserve(queue1, n);
      queue1, status1 := b, st1;
      r := status0.Or(status1);
    }

    /** `shrink_to_fit`: forwarded to both queues. */
    method ShrinkToFit()
      modifies this
      ensures queue0 == Shrink(old(queue0)) && queue1 == Shrink(old(queue1))
      ensures status0 == old(status0) && status1 == old(status1)
    {
      queue0 := Shrink(queue0);
      queue1 := Shrink(queue1);
    }

    /** `push_frame`: a copy of `f` goes to each queue whose last reservation succeeded; the
        result is `Ok` iff at least one of them took it. The statuses are not touched. */
    method PushFrame(f: F) returns (r: Status)
      modifies this
      ensures status0 == old(status0) && status1 == old(status1)
      ensures queue0 == if old(status0) == Ok then Push(old(queue0), f).0 else old(queue0)
      ensures queue1 == if old(status1) == Ok then Push(old(queue1), f).0 else old(queue1)
      ensures (Model(), r) == Push(old(Model()), f)
    {
      var p0: Status := OutOfMemory;
      if status0 == Ok {
        var (a, st) := Push(queue0, f);
        queue0, p0 := a, st;
      }
      var p1: Status := OutOfMemory;
      if status1 == Ok {
        var (b, st) := Push(queue1, f);
        queue1, p1 := b, st;
      }
      r := p0.Or(p1);
    }
  }
}
