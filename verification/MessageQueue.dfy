/** The byte ring of a message queue: `depth` slots of `msgSize` bytes each, written at
    `tail` and read at `head`, both advancing modulo `depth`. */
module MessageQueue {
  import opened Types

  datatype Queue = Queue(buffer: seq<Byte>, msgSize: nat, depth: nat, head: nat, tail: nat, count: nat)

  /** Reduction modulo depth of an index below twice the depth, without a division. */
  function Wrapped(a: nat, depth: nat): (r: nat)
    requires a < 2 * depth
    ensures r < depth
  {
    if a < depth then a else a - depth
  }

  lemma WrappedIsModulo(a: nat, depth: nat)
    requires a < 2 * depth
    ensures a % depth == Wrapped(a, depth)
  {
    if a >= depth {
      assert a == depth * 1 + (a - depth);
      assert a / depth == 1;
    }
  }

  ghost predicate QueueOk(q: Queue) {
    && 0 < q.msgSize && 0 < q.depth
    && q.depth * q.msgSize <= |q.buffer|
    && q.depth * q.msgSize < U32_MOD
    && q.head < q.depth && q.count <= q.depth
    && q.tail == Wrapped(q.head + q.count, q.depth)
  }

  lemma SlotInside(i: nat, depth: nat, size: nat)
    requires i < depth
    ensures 0 <= i * size && i * size + size <= depth * size
  {
    assert depth * size == i * size + size + (depth - i - 1) * size;
  }

  /** Two different slots share no byte. */
  lemma SlotsApart(i: nat, j: nat, size: nat)
    requires i != j
    ensures i * size + size <= j * size || j * size + size <= i * size
  {
    if i < j {
      SlotInside(i, j, size);
    } else {
      SlotInside(j, i, size);
    }
  }

  function Slot(q: Queue, i: nat): (m: seq<Byte>)
    requires i < q.depth && q.depth * q.msgSize <= |q.buffer|
    ensures |m| == q.msgSize
  {
    SlotInside(i, q.depth, q.msgSize);
    q.buffer[i * q.msgSize..i * q.msgSize + q.msgSize]
  }

  /** The messages a reader will see, oldest first. */
  function Contents(q: Queue): (c: seq<seq<Byte>>)
    requires QueueOk(q)
    ensures |c| == q.count
  {
    seq(q.count, i requires 0 <= i < q.count => Slot(q, Wrapped(q.head + i, q.depth)))
  }

  function Overwrite(buffer: seq<Byte>, at: nat, msg: seq<Byte>): (r: seq<Byte>)
    requires at + |msg| <= |buffer|
    ensures |r| == |buffer|
    ensures forall j :: 0 <= j < |r| ==> r[j] == if at <= j < at + |msg| then msg[j - at] else buffer[j]
  {
    buffer[..at] + msg + buffer[at + |msg|..]
  }

  function Put(q: Queue, msg: seq<Byte>): (r: Queue)
    requires QueueOk(q) && q.count < q.depth && |msg| == q.msgSize
    ensures QueueOk(r)
  {
    SlotInside(q.tail, q.depth, q.msgSize);
    WrappedIsModulo(q.tail + 1, q.depth);
    q.(buffer := Overwrite(q.buffer, q.tail * q.msgSize, msg),
       tail := (q.tail + 1) % q.depth,
       count := q.count + 1)
  }

  function Get(q: Queue): (r: (seq<Byte>, Queue))
    requires QueueOk(q) && 0 < q.count
    ensures QueueOk(r.1)
  {
    WrappedIsModulo(q.head + 1, q.depth);
    (Slot(q, q.head), q.(head := (q.head + 1) % q.depth, count := q.count - 1))
  }

  lemma PutSlot(q: Queue, msg: seq<Byte>, i: nat)
    requires QueueOk(q) && q.count < q.depth && |msg| == q.msgSize && i < q.depth
    ensures Slot(Put(q, msg), i) == if i == q.tail then msg else Slot(q, i)
  {
    SlotInside(i, q.depth, q.msgSize);
    SlotInside(q.tail, q.depth, q.msgSize);
    if i != q.tail {
      SlotsApart(i, q.tail, q.msgSize);
    }
  }

  /** Writing at the tail appends, and touches no slot that holds a message. */
  lemma PutAppends(q: Queue, msg: seq<Byte>)
    requires QueueOk(q) && q.count < q.depth && |msg| == q.msgSize
    ensures Contents(Put(q, msg)) == Contents(q) + [msg]
  {
    var r := Put(q, msg);
    forall i | 0 <= i < r.count
      ensures Contents(r)[i] == (Contents(q) + [msg])[i]
    {
      PutSlot(q, msg, Wrapped(q.head + i, q.depth));
    }
  }

  lemma SameSlot(q: Queue, r: Queue, i: nat)
    requires i < q.depth && q.depth * q.msgSize <= |q.buffer|
    requires r.buffer == q.buffer && r.depth == q.depth && r.msgSize == q.msgSize
    ensures Slot(r, i) == Slot(q, i)
  {
  }

  lemma ContentsShift(q: Queue, r: Queue)
    requires QueueOk(q) && QueueOk(r) && 0 < q.count
    requires r == q.(head := Wrapped(q.head + 1, q.depth), count := q.count - 1)
    ensures Contents(q) == [Slot(q, q.head)] + Contents(r)
  {
    var all := [Slot(q, q.head)] + Contents(r);
    assert Wrapped(q.head, q.depth) == q.head;
    forall i | 0 <= i < q.count
      ensures Contents(q)[i] == all[i]
    {
      if i > 0 {
        assert Wrapped(r.head + (i - 1), q.depth) == Wrapped(q.head + i, q.depth);
        SameSlot(q, r, Wrapped(q.head + i, q.depth));
      }
    }
  }

  /** Reading at the head takes off the oldest message. */
  lemma GetRemoves(q: Queue)
    requires QueueOk(q) && 0 < q.count
    ensures Contents(q) == [Get(q).0] + Contents(Get(q).1)
  {
    WrappedIsModulo(q.head + 1, q.depth);
    ContentsShift(q, Get(q).1);
  }

  /** The queue object: the buffer is overwritten in place. */
  class MessageRing {
    const buffer: array<Byte>
    const msgSize: nat
    const depth: nat
    var head: nat
    var tail: nat
    var count: nat

    ghost function Value(): Queue
      reads this, buffer
    {
      Queue(buffer[..], msgSize, depth, head, tail, count)
    }

    /** Takes over the caller's storage without clearing it. */
    constructor (storage: array<Byte>, msgSize: nat, depth: nat)
      requires 0 < msgSize && 0 < depth
      requires depth * msgSize <= storage.Length && depth * msgSize < U32_MOD
      ensures QueueOk(Value()) && Contents(Value()) == []
      ensures buffer == storage && this.msgSize == msgSize && this.depth == depth
    {
      buffer, this.msgSize, this.depth := storage, msgSize, depth;
      head, tail, count := 0, 0, 0;
    }

    method Copy(at: nat, msg: seq<Byte>)
      requires at + |msg| <= buffer.Length
      modifies buffer
      ensures buffer[..] == Overwrite(old(buffer[..]), at, msg)
    {
      var i := 0;
      while i < |msg|
        invariant 0 <= i <= |msg|
        invariant forall j :: 0 <= j < buffer.Length ==>
          buffer[j] == if at <= j < at + i then msg[j - at] else old(buffer[j])
      {
        buffer[at + i] := msg[i];
        i := i + 1;
      }
    }

    method Write(msg: seq<Byte>)
      requires QueueOk(Value()) && count < depth && |msg| == msgSize
      modifies this, buffer
      ensures Value() == Put(old(Value()), msg)
      ensures Contents(Value()) == Contents(old(Value())) + [msg]
    {
      ghost var q := Value();
      PutAppends(q, msg);
      SlotInside(tail, depth, msgSize);
      Copy(tail * msgSize, msg);
      tail := (tail + 1) % depth;
      count := count + 1;
    }

    method Read() returns (msg: seq<Byte>)
      requires QueueOk(Value()) && 0 < count
      modifies this
      ensures msg == Get(old(Value())).0 && Value() == Get(old(Value())).1
      ensures Contents(old(Value())) == [msg] + Contents(Value())
    {
      ghost var q := Value();
      SlotInside(head, depth, msgSize);
      GetRemoves(q);
      msg := buffer[head * msgSize..head * msgSize + msgSize];
      assert msg == Slot(q, head);
      head := (head + 1) % depth;
      count := count - 1;
    }
  }
}
