/** The ring buffer shared by a driver's interrupt routine and its packet handler. */
module Ring {

  /** Bytes from tail up to head, around a ring of n. */
  function Distance(head: nat, tail: nat, n: nat): int {
    if head >= tail then head - tail else n - tail + head
  }

  function Wrap(i: nat, n: nat): nat {
    if i >= n then i - n else i
  }

  // Advancing the head is accepted exactly when it leaves room: the test on the two
  // distances amounts to count + move < n.
  lemma AcceptsWhenRoom(head: nat, tail: nat, move: nat, n: nat)
    requires head < n && tail < n && move < n
    ensures Distance(Wrap(head + move, n), tail, n) >= Distance(head, tail, n)
            <==> Distance(head, tail, n) + move < n
  {
    if head + move >= n {
      assert Wrap(head + move, n) == head + move - n;
    }
  }

  // While the consumer has moved the tail to n and not yet wrapped it, the producer
  // decides as it would for a tail of 0.
  lemma TransientTail(head: nat, move: nat, n: nat)
    requires head < n && move < n
    ensures Distance(head, n, n) == Distance(head, 0, n)
    ensures Distance(Wrap(head + move, n), n, n) == Distance(Wrap(head + move, n), 0, n)
  {
  }

  class RingBuffer<T(0)> {
    const buffer: array<T>
    var head: nat
    var tail: nat

    ghost predicate Valid()
      reads this
    {
      head < buffer.Length && tail < buffer.Length
    }

    /** n elements starting at slot i, around the ring. */
    ghost function Slots(i: nat, n: nat): (s: seq<T>)
      requires i <= buffer.Length && n <= buffer.Length
      reads this, buffer
      ensures |s| == n
    {
      if i + n <= buffer.Length then buffer[i..i + n] else buffer[i..] + buffer[..i + n - buffer.Length]
    }

    /** The unread elements, oldest first. */
    ghost function Contents(): (s: seq<T>)
      requires Valid()
      reads this, buffer
      ensures |s| == Distance(head, tail, buffer.Length)
    {
      Slots(tail, Distance(head, tail, buffer.Length))
    }

    constructor (n: nat)
      requires n > 0
      ensures Valid() && buffer.Length == n && head == tail == 0 && Contents() == [] && fresh(buffer)
    {
      buffer := new T[n];
      head, tail := 0, 0;
    }

    method Reset()
      requires Valid()
      modifies this`head, this`tail
      ensures Valid() && head == tail == 0 && Contents() == []
    {
      head, tail := 0, 0;
    }

    method Count() returns (count: nat)
      requires Valid()
      ensures count == |Contents()|
    {
      count := Distance(head, tail, buffer.Length);
    }

    /** Adds an element unless the ring is full, one slot always staying free. */
    method Push(data: T)
      requires Valid()
      modifies this`head, buffer
      ensures Valid()
      ensures Contents() == if |old(Contents())| + 1 < buffer.Length then old(Contents()) + [data] else old(Contents())
    {
      var newHead := head + 1;
      if newHead >= buffer.Length {
        newHead := 0;
      }
      if newHead != tail {
        buffer[head] := data;
        head := newHead;
      }
    }

    method Fetch() returns (result: T)
      requires Valid() && Contents() != []
      modifies this`tail
      ensures Valid() && result == old(Contents())[0] && Contents() == old(Contents())[1..]
    {
      result := buffer[tail];
      tail := tail + 1;
      if tail >= buffer.Length {
        tail := 0;
      }
    }

    /** Commits the elements written at the head if they leave room, else nothing. */
    method AdvanceHead(move: nat)
      requires Valid() && move < buffer.Length
      modifies this`head
      ensures Valid()
      ensures head == if |old(Contents())| + move < buffer.Length
                      then Wrap(old(head) + move, buffer.Length) else old(head)
      ensures if |old(Contents())| + move < buffer.Length then Contents() == old(Contents()) + old(Slots(head, move))
              else Contents() == old(Contents())
    {
      AcceptsWhenRoom(head, tail, move, buffer.Length);
      var newHead := head + move;
      if newHead >= buffer.Length {
        newHead := newHead - buffer.Length;
      }
      if Distance(newHead, tail, buffer.Length) >= Distance(head, tail, buffer.Length) {
        head := newHead;
      }
    }

    method AdvanceTail(move: nat)
      requires Valid() && move <= |Contents()|
      modifies this`tail
      ensures Valid() && Contents() == old(Contents())[move..] && tail == Wrap(old(tail) + move, buffer.Length)
    {
      tail := tail + move;
      if tail >= buffer.Length {
        tail := tail - buffer.Length;
      }
    }
  }
}
