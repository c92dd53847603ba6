/** The Wanderer's reply queue: a ring of four fixed-size frames. */
module RfQueue {
  import opened Bits

  const DEPTH := 4
  const MAX_PAYLOAD := 32

  /** A frame slot: the valid length and the storage, of which only that length means anything. */
  datatype Slot = Slot(length: nat, bytes: Bytes)

  const EMPTY_SLOT := Slot(0, [0, 0, 0, 0, 0, 0, 0, 0, 0, 0, 0, 0, 0, 0, 0, 0,
                               0, 0, 0, 0, 0, 0, 0, 0, 0, 0, 0, 0, 0, 0, 0, 0])

  predicate SlotOk(s: Slot) {
    s.length <= |s.bytes| == MAX_PAYLOAD
  }

  class Queue {
    const frames: array<Slot>
    var head: nat
    var count: nat

    ghost predicate Valid()
      reads this, frames
    {
      frames.Length == DEPTH && head < DEPTH && count <= DEPTH &&
      forall i :: 0 <= i < DEPTH ==> SlotOk(frames[i])
    }

    /** The k-th slot from the head. */
    function SlotAt(k: nat): (i: nat)
      requires head < DEPTH && k <= DEPTH
      reads this
      ensures i == (head + k) % DEPTH && i < DEPTH
    {
      if head + k < DEPTH then head + k else head + k - DEPTH
    }

    /** The frames in the order in which they were pushed. */
    ghost function Contents(): (c: seq<Bytes>)
      requires Valid()
      reads this, frames
      ensures |c| == count
    {
      seq(count, k requires 0 <= k < count reads this, frames requires Valid() =>
        var s := frames[SlotAt(k)]; s.bytes[..s.length])
    }

    constructor ()
      ensures Valid() && fresh(frames) && Contents() == []
    {
      frames := new Slot[DEPTH](_ => EMPTY_SLOT);
      head, count := 0, 0;
    }

    method Push(data: Bytes) returns (pushed: bool)
      requires Valid()
      modifies this`count, frames
      ensures Valid()
      ensures pushed == (|data| <= MAX_PAYLOAD && |old(Contents())| < DEPTH)
      ensures Contents() == if pushed then old(Contents()) + [data] else old(Contents())
      ensures !pushed ==> frames[..] == old(frames[..])
    {
      if |data| > MAX_PAYLOAD || count == DEPTH {
        return false;
      }
      var slot := (head + count) % DEPTH;
      assert slot == SlotAt(count) && forall k :: 0 <= k < count ==> SlotAt(k) != slot;
      ghost var before := Contents();
      frames[slot] := Slot(|data|, data + frames[slot].bytes[|data|..]);
      count := count + 1;
      assert frames[slot].bytes[..|data|] == data;
      assert forall k :: 0 <= k < |before| ==> Contents()[k] == before[k];
      return true;
    }

    method Empty() returns (empty: bool)
      requires Valid()
      ensures empty <==> Contents() == []
    {
      empty := count == 0;
    }

    method Front() returns (frame: Bytes)
      requires Valid() && Contents() != []
      ensures frame == Contents()[0]
    {
      frame := frames[head].bytes[..frames[head].length];
    }

    method Pop() returns (popped: bool)
      requires Valid()
      modifies this`head, this`count
      ensures Valid()
      ensures popped == (old(Contents()) != [])
      ensures Contents() == if popped then old(Contents())[1..] else old(Contents())
      ensures !popped ==> head == old(head)
    {
      if count == 0 {
        return false;
      }
      ghost var before := Contents();
      assert SlotAt(1) == (head + 1) % DEPTH;
      head := (head + 1) % DEPTH;
      count := count - 1;
      assert forall k :: 0 <= k < count ==> Contents()[k] == before[k + 1];
      return true;
    }
  }

  datatype Op = PushFrame(data: Bytes) | PopFrame

  /** A plain FIFO holding at most four frames of at most 32 bytes. */
  function Fifo(ops: seq<Op>): seq<Bytes> {
    if ops == [] then []
    else
      var before := Fifo(ops[..|ops| - 1]);
      match ops[|ops| - 1]
      case PushFrame(data) => if |data| <= MAX_PAYLOAD && |before| < DEPTH then before + [data] else before
      case PopFrame => if before == [] then [] else before[1..]
  }

  /** Under every interleaving the ring shows what the plain FIFO holds. */
  method Replay(ops: seq<Op>) returns (empty: bool, front: Bytes)
    ensures empty <==> Fifo(ops) == []
    ensures !empty ==> front == Fifo(ops)[0]
  {
    var q := new Queue();
    for i := 0 to |ops|
      invariant q.Valid() && fresh(q) && fresh(q.frames) && q.Contents() == Fifo(ops[..i])
    {
      assert ops[..i + 1][..i] == ops[..i];
      match ops[i] {
        case PushFrame(data) => var pushed := q.Push(data);
        case PopFrame => var popped := q.Pop();
      }
    }
    assert ops[..|ops|] == ops;
    front := [];
    empty := q.Empty();
    if !empty {
      front := q.Front();
    }
  }
}
