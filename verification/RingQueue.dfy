/** The message queue: a ring of fixed-size messages over one flat byte buffer. */
module RingQueue {
  import opened QueueCore

  newtype byte = x: int | 0 <= x < 256

  datatype Status = Ok | InvalidArgument | BrokenPipe | TryAgain

  /** How one stay inside the lock ends: the call returns, or the thread starts to wait on a condition variable. */
  datatype Outcome = Returned(status: Status) | Blocks

  // ----- The flat buffer as a table of slots

  /** Where a slot starts. Counted in steps, so that only `OffsetIsProduct` needs a multiplication. */
  ghost function Offset(slot: nat, size: nat): nat {
    if slot == 0 then 0 else Offset(slot - 1, size) + size
  }

  lemma {:induction false} OffsetIsProduct(slot: nat, size: nat)
    ensures Offset(slot, size) == slot * size
  {
    if 0 < slot {
      OffsetIsProduct(slot - 1, size);
      assert slot * size == (slot - 1) * size + size;
    }
  }

  /** Slots do not overlap. */
  lemma {:induction false} SlotsApart(a: nat, b: nat, size: nat)
    requires a < b
    ensures Offset(a, size) + size <= Offset(b, size)
    decreases b
  {
    if a < b - 1 {
      SlotsApart(a, b - 1, size);
    }
  }

  /** One slot: the stretch of `size` bytes at its offset. */
  ghost function Chunk(buf: seq<byte>, size: nat, slots: nat, slot: nat): (m: seq<byte>)
    requires |buf| == Offset(slots, size) && slot < slots
    ensures |m| == size
  {
    SlotsApart(slot, slots, size);
    buf[Offset(slot, size)..Offset(slot, size) + size]
  }

  ghost function Table(buf: seq<byte>, size: nat, slots: nat): (t: seq<seq<byte>>)
    requires |buf| == Offset(slots, size)
    ensures |t| == slots && forall i :: 0 <= i < slots ==> t[i] == Chunk(buf, size, slots, i)
  {
    seq(slots, i requires 0 <= i < slots => Chunk(buf, size, slots, i))
  }

  predicate Overwritten(buf: seq<byte>, buf': seq<byte>, offset: nat, size: nat) {
    && |buf'| == |buf| && offset + size <= |buf|
    && forall i :: 0 <= i < |buf| && (i < offset || offset + size <= i) ==> buf'[i] == buf[i]
  }

  lemma StretchKept(buf: seq<byte>, buf': seq<byte>, offset: nat, size: nat, lo: nat)
    requires Overwritten(buf, buf', offset, size) && lo + size <= |buf|
    requires lo + size <= offset || offset + size <= lo
    ensures buf'[lo..lo + size] == buf[lo..lo + size]
  {
  }

  /** Overwriting the stretch of one slot overwrites that slot and no other. */
  lemma SlotWritten(buf: seq<byte>, buf': seq<byte>, size: nat, slots: nat, slot: nat)
    requires |buf| == Offset(slots, size) && slot < slots && Overwritten(buf, buf', Offset(slot, size), size)
    ensures Table(buf', size, slots) == Table(buf, size, slots)[slot := Chunk(buf', size, slots, slot)]
  {
    forall s | 0 <= s < slots && s != slot ensures Chunk(buf', size, slots, s) == Chunk(buf, size, slots, s) {
      SlotsApart(s, slots, size);
      if s < slot {
        SlotsApart(s, slot, size);
      } else {
        SlotsApart(slot, s, size);
      }
      StretchKept(buf, buf', Offset(slot, size), size, Offset(s, size));
    }
  }

  // ----- The table as a ring

  function Wrap(x: nat, n: nat): nat
    requires x < 2 * n
  {
    if x < n then x else x - n
  }

  lemma ModWraps(x: nat, n: nat)
    requires x < 2 * n
    ensures x % n == Wrap(x, n)
  {
    if n <= x {
      assert x == (x - n) + 1 * n;
      assert x / n == 1;
    }
  }

  /** The `count` messages from `head` on, going round at the end of the table. */
  ghost function Ring<M>(table: seq<M>, head: nat, count: nat): (ms: seq<M>)
    requires head < |table| && count <= |table|
    ensures |ms| == count
    ensures forall i :: 0 <= i < count ==> ms[i] == table[Wrap(head + i, |table|)]
  {
    seq(count, i requires 0 <= i < count => table[Wrap(head + i, |table|)])
  }

  lemma RingPut<M>(table: seq<M>, head: nat, count: nat, m: M)
    requires head < |table| && count < |table|
    ensures Ring(table[Wrap(head + count, |table|) := m], head, count + 1) == Stored(Ring(table, head, count), m)
  {
  }

  lemma RingTake<M>(table: seq<M>, head: nat, count: nat)
    requires head < |table| && 0 < count <= |table|
    ensures Ring(table, Wrap(head + 1, |table|), count - 1) == Rest(Ring(table, head, count))
    ensures table[head] == Oldest(Ring(table, head, count))
  {
  }

  class MsgQueue {
    const msgSize: nat
    const maxMsgs: nat
    const buffer: array<byte>
    var head: nat
    var tail: nat
    var count: nat
    var closed: bool
    ghost var sent: seq<seq<byte>>      // the messages stored so far
    ghost var received: seq<seq<byte>>  // the messages handed out so far

    /** The position fields describe a ring in the buffer. */
    ghost predicate Shape()
      reads this`head, this`tail, this`count
    {
      && 0 < msgSize && 0 < maxMsgs && buffer.Length == Offset(maxMsgs, msgSize)
      && head < maxMsgs && count <= maxMsgs && tail == Wrap(head + count, maxMsgs)
    }

    lemma TailIsModulo()
      requires Shape()
      ensures tail == (head + count) % maxMsgs
    {
      ModWraps(head + count, maxMsgs);
    }

    /** The messages held, oldest first. */
    ghost function Contents(): seq<seq<byte>>
      requires Shape()
      reads this`head, this`tail, this`count, buffer
    {
      Ring(Table(buffer[..], msgSize, maxMsgs), head, count)
    }

    /** What has been received, followed by what is held, is what has been sent. */
    ghost predicate Valid()
      reads this, buffer
    {
      Shape() && sent == received + Contents()
    }

    constructor (msgSize: nat, maxMsgs: nat)
      requires 0 < msgSize && 0 < maxMsgs
      ensures Valid() && Contents() == [] && sent == received == [] && !closed && fresh(buffer)
      ensures this.msgSize == msgSize && this.maxMsgs == maxMsgs
    {
      this.msgSize, this.maxMsgs := msgSize, maxMsgs;
      head, tail, count, closed := 0, 0, 0, false;
      OffsetIsProduct(maxMsgs, msgSize);
      buffer := new byte[maxMsgs * msgSize](_ => 0);
      sent, received := [], [];
    }

    /** `memcpy` into the buffer. */
    method CopyIn(offset: nat, msg: seq<byte>)
      requires offset + |msg| <= buffer.Length
      modifies buffer
      ensures buffer[offset..offset + |msg|] == msg
      ensures Overwritten(old(buffer[..]), buffer[..], offset, |msg|)
    {
      forall k | 0 <= k < |msg| {
        buffer[offset + k] := msg[k];
      }
    }

    /** Fills one slot: it holds the message and no other slot changes. */
    method Store(slot: nat, msg: seq<byte>)
      requires buffer.Length == Offset(maxMsgs, msgSize) && slot < maxMsgs && |msg| == msgSize
      modifies buffer
      ensures Table(buffer[..], msgSize, maxMsgs) == old(Table(buffer[..], msgSize, maxMsgs))[slot := msg]
    {
      OffsetIsProduct(slot, msgSize);
      SlotsApart(slot, maxMsgs, msgSize);
      var offset := slot * msgSize;
      ghost var before := buffer[..];
      CopyIn(offset, msg);
      SlotWritten(before, buffer[..], msgSize, maxMsgs, slot);
      assert buffer[..][offset..offset + msgSize] == msg;
    }

    /** The tail end of `osa_queue_send`: store the message and move on by one slot. */
    method Put(msg: seq<byte>)
      requires Valid() && count < maxMsgs && |msg| == msgSize
      modifies this`tail, this`count, this`sent, buffer
      ensures Valid() && Contents() == Stored(old(Contents()), msg) && sent == old(sent) + [msg]
    {
      RingPut(Table(buffer[..], msgSize, maxMsgs), head, count, msg);
      Store(tail, msg);
      tail := NextSlot(tail);
      count := count + 1;
      sent := sent + [msg];
    }

    method NextSlot(slot: nat) returns (next: nat)
      requires slot < maxMsgs
      ensures next == Wrap(slot + 1, maxMsgs)
    {
      ModWraps(slot + 1, maxMsgs);
      next := (slot + 1) % maxMsgs;
    }

    /** The bytes of one slot. */
    method Fetch(slot: nat) returns (msg: seq<byte>)
      requires buffer.Length == Offset(maxMsgs, msgSize) && slot < maxMsgs
      ensures msg == Table(buffer[..], msgSize, maxMsgs)[slot]
    {
      OffsetIsProduct(slot, msgSize);
      SlotsApart(slot, maxMsgs, msgSize);
      var offset := slot * msgSize;
      msg := buffer[offset..offset + msgSize];
      assert buffer[..][offset..offset + msgSize] == msg;
    }

    /** The tail end of `osa_queue_receive`: copy the oldest message out and drop it. */
    method Take() returns (msg: seq<byte>)
      requires Valid() && 0 < count
      modifies this`head, this`count, this`received
      ensures Valid() && msg == Oldest(old(Contents())) && Contents() == Rest(old(Contents()))
      ensures received == old(received) + [msg]
    {
      RingTake(Table(buffer[..], msgSize, maxMsgs), head, count);
      HandOver(received, Contents());
      msg := Fetch(head);
      head := NextSlot(head);
      count := count - 1;
      received := received + [msg];
    }

    /** `osa_queue_send` up to the point where it returns or first waits. */
    method Send(msg: seq<byte>, timeoutMs: int) returns (r: Outcome)
      requires Valid()
      modifies this`tail, this`count, this`sent, buffer
      ensures Valid()
      ensures r == if |msg| != msgSize then Returned(InvalidArgument)
                   else if closed then Returned(BrokenPipe)
                   else if HasRoom(maxMsgs, old(Contents())) then Returned(Ok)
                   else if timeoutMs == 0 then Returned(TryAgain) else Blocks
      ensures Contents() == if r == Returned(Ok) then Stored(old(Contents()), msg) else old(Contents())
      ensures sent == if r == Returned(Ok) then old(sent) + [msg] else old(sent)
    {
      if |msg| != msgSize {
        return Returned(InvalidArgument);
      }
      if closed {
        return Returned(BrokenPipe);
      }
      if count >= maxMsgs {
        return if timeoutMs == 0 then Returned(TryAgain) else Blocks;
      }
      Put(msg);
      return Returned(Ok);
    }

    /** A sender that woke up: wait again, or go on. */
    method ResumeSend(msg: seq<byte>) returns (r: Outcome)
      requires Valid() && |msg| == msgSize
      modifies this`tail, this`count, this`sent, buffer
      ensures Valid()
      ensures r == if closed then Returned(BrokenPipe)
                   else if HasRoom(maxMsgs, old(Contents())) then Returned(Ok) else Blocks
      ensures Contents() == if r == Returned(Ok) then Stored(old(Contents()), msg) else old(Contents())
      ensures sent == if r == Returned(Ok) then old(sent) + [msg] else old(sent)
    {
      if count >= maxMsgs && !closed {
        return Blocks;
      }
      if closed {
        return Returned(BrokenPipe);
      }
      Put(msg);
      return Returned(Ok);
    }

    /** `osa_queue_receive` up to the point where it returns or first waits. A closed queue is still emptied. */
    method Receive(msgLen: nat, timeoutMs: int) returns (r: Outcome, msg: seq<byte>)
      requires Valid()
      modifies this`head, this`count, this`received
      ensures Valid()
      ensures r == if msgLen != msgSize then Returned(InvalidArgument)
                   else if old(Contents()) != [] then Returned(Ok)
                   else if closed then Returned(BrokenPipe)
                   else if timeoutMs == 0 then Returned(TryAgain) else Blocks
      ensures if r == Returned(Ok)
              then msg == Oldest(old(Contents())) && Contents() == Rest(old(Contents()))
                   && received == old(received) + [msg]
              else Contents() == old(Contents()) && received == old(received)
    {
      msg := [];
      if msgLen != msgSize {
        return Returned(InvalidArgument), [];
      }
      if closed && count == 0 {
        return Returned(BrokenPipe), [];
      }
      if count == 0 {
        return if timeoutMs == 0 then Returned(TryAgain) else Blocks, [];
      }
      msg := Take();
      r := Returned(Ok);
    }

    /** A receiver that woke up: wait again, or go on. */
    method ResumeReceive() returns (r: Outcome, msg: seq<byte>)
      requires Valid()
      modifies this`head, this`count, this`received
      ensures Valid()
      ensures r == if old(Contents()) != [] then Returned(Ok) else if closed then Returned(BrokenPipe) else Blocks
      ensures if r == Returned(Ok)
              then msg == Oldest(old(Contents())) && Contents() == Rest(old(Contents()))
                   && received == old(received) + [msg]
              else Contents() == old(Contents()) && received == old(received)
    {
      msg := [];
      if count == 0 && !closed {
        return Blocks, [];
      }
      if closed && count == 0 {
        return Returned(BrokenPipe), [];
      }
      msg := Take();
      r := Returned(Ok);
    }
  }

  /** `osa_queue_create`, with its argument check. */
  method Create(msgSize: nat, maxMsgs: int) returns (status: Status, q: MsgQueue?)
    ensures status == if msgSize == 0 || maxMsgs <= 0 then InvalidArgument else Ok
    ensures q == null <==> status != Ok
    ensures q != null ==> q.Valid() && q.Contents() == [] && q.sent == q.received == [] && q.msgSize == msgSize && q.maxMsgs == maxMsgs
    ensures q != null ==> !q.closed && fresh(q) && fresh(q.buffer)
  {
    if msgSize == 0 || maxMsgs <= 0 {
      return InvalidArgument, null;
    }
    q := new MsgQueue(msgSize, maxMsgs);
    status := Ok;
  }
}
