/** The touchpad driver's interrupt routine and packet handler over the ring. */
module Touchpad {
  import opened Assembler
  import opened Ring
  import opened RingSharing
  import opened SelfSync

  class Touchpad {
    const model: Model
    const ring: RingBuffer<bv8>
    var packetByteCount: nat
    var badData: bool
    /** Packets handed to the protocol's packet routine. */
    var processed: seq<seq<bv8>>

    ghost predicate Valid()
      reads this, ring
    {
      && ring.Valid() && ring.buffer.Length == N
      && Boundary(ring.head, model.PacketSize()) && Boundary(ring.tail, model.PacketSize())
      && packetByteCount <= model.PacketSize()
    }

    /** The bytes of the packet being assembled at the ring's head. */
    ghost function Partial(): seq<bv8>
      requires Valid()
      reads this, ring, ring.buffer
    {
      Slot()[..packetByteCount]
    }

    /** The slot at the ring's head. */
    ghost function Slot(): (slot: seq<bv8>)
      requires Valid()
      reads this, ring, ring.buffer
      ensures |slot| == model.PacketSize()
    {
      Bounded(ring.head, model.PacketSize());
      ring.buffer[ring.head..ring.head + model.PacketSize()]
    }

    /** The packets announced and not yet handled, oldest first. */
    ghost function Waiting(): seq<seq<bv8>>
      requires Valid()
      reads this, ring, ring.buffer
    {
      Unread(ring.buffer[..], ring.tail, ring.head, model.PacketSize())
    }

    predicate HasRoom()
      requires Valid()
      reads this, ring
    {
      Distance(ring.head, ring.tail, N) + model.PacketSize() < N
    }

    /** Between bytes, when every packet announced has been handled. */
    ghost predicate Settled()
      reads this, ring, ring.buffer
    {
      Valid() && ring.head == ring.tail && packetByteCount < model.PacketSize() && Kept(model, Partial())
    }

    constructor (model: Model)
      ensures Settled() && this.model == model && Partial() == [] && processed == []
      ensures fresh(ring) && fresh(ring.buffer)
    {
      this.model := model;
      ring := new RingBuffer<bv8>(N);
      packetByteCount, badData, processed := 0, false, [];
    }

    /** Announces what lies at the head, if the ring has room for it. */
    method Announce(bad: bool)
      requires Valid()
      modifies this`badData, ring`head
      ensures Valid() && badData == bad
      ensures Waiting() == old(Waiting()) + if old(HasRoom()) then [old(Slot())] else []
    {
      badData := bad;
      assert Slot() == ring.buffer[..][ring.head..ring.head + model.PacketSize()];
      if HasRoom() {
        CommitBehind(ring.buffer[..], ring.tail, ring.head, model.PacketSize());
      }
      ring.AdvanceHead(model.PacketSize());
    }

    /** Writes into the slot at the head; no packet waiting is touched. */
    method Write(offset: nat, data: bv8)
      requires Valid() && offset < model.PacketSize()
      modifies ring.buffer
      ensures Valid() && Waiting() == old(Waiting()) && Slot() == old(Slot())[offset := data]
    {
      ghost var was := ring.buffer[..];
      WriteApart(was, ring.tail, ring.head, model.PacketSize(), offset, data);
      ring.buffer[ring.head + offset] := data;
      assert ring.buffer[..] == was[ring.head + offset := data];
    }

    /** Stores a byte of the packet being assembled. */
    method Store(data: bv8)
      requires Valid() && packetByteCount < model.PacketSize()
      modifies this`packetByteCount, ring.buffer
      ensures Valid() && packetByteCount == old(packetByteCount) + 1 && Partial() == old(Partial()) + [data]
      ensures Waiting() == old(Waiting()) && Slot()[..packetByteCount] == Partial()
    {
      Write(packetByteCount, data);
      packetByteCount := packetByteCount + 1;
    }

    /** One byte at interrupt time, whatever packets are waiting.  Either it is kept, or
        a packet or a fragment to be dropped has been announced behind those waiting,
        unless the ring is full. */
    method InterruptOccurred(data: bv8) returns (packetReady: bool)
      requires Valid() && packetByteCount < model.PacketSize()
      modifies this`packetByteCount, this`badData, ring`head, ring.buffer
      ensures Valid() && ring.tail == old(ring.tail)
      ensures var (items, kept) := Take(model, old(Partial()), data);
              && packetReady == (items != [])
              && (!packetReady ==>
                    && ring.head == old(ring.head) && Waiting() == old(Waiting())
                    && packetByteCount == |kept| && Partial() == kept)
              && (packetReady && !old(HasRoom()) ==> Waiting() == old(Waiting()))
              && (packetReady && old(HasRoom()) ==>
                    |Waiting()| == |old(Waiting())| + 1 && old(Waiting()) <= Waiting()
                    && (!badData ==> Waiting()[|old(Waiting())|] == items[0].bytes))
              && (packetReady ==> badData == items[0].Fragment?)
    {
      ghost var partial := Partial();
      TakeCases(model, partial, data);
      if packetByteCount == 0 {
        Write(0, data);
      }
      badData := false;
      assert Partial() == partial;
      var first := FirstByte(data);
      var bare := model.proto != PROTO_V8 && first & 0xc8 == 0x08;
      var rejected := packetByteCount == 3;
      if !bare {
        rejected := InvalidByte(first, data);
      }
      if rejected {
        Announce(true);
        return true;
      }
      Store(data);
      if !bare && packetByteCount == model.PacketSize() {
        Announce(false);
        return true;
      }
      return false;
    }

    /** The first byte of the packet being assembled, data if there is none before it. */
    method FirstByte(ghost data: bv8) returns (first: bv8)
      requires Valid() && (packetByteCount == 0 ==> Slot()[0] == data)
      ensures first == First(Partial(), data)
    {
      Bounded(ring.head, model.PacketSize());
      first := ring.buffer[ring.head];
    }

    /** A byte kept of the packet being assembled. */
    method Byte(k: nat) returns (b: bv8)
      requires Valid() && k < packetByteCount
      ensures b == Partial()[k]
    {
      Bounded(ring.head, model.PacketSize());
      b := ring.buffer[ring.head + k];
    }

    /** The checks on an assembled prefix that is not a bare PS/2 packet. */
    method InvalidByte(first: bv8, ghost data: bv8) returns (rejected: bool)
      requires Valid() && packetByteCount < model.PacketSize()
      requires first == First(Partial(), data) && !Bare(model, first)
      ensures rejected == Rejects(model, Partial(), data)
    {
      RejectsWhen(model, Partial(), data);
      var middle := InvalidMiddleByte();
      var late := InvalidLateByte();
      return middle || first & model.mask0 != model.byte0 || late;
    }

    /** The checks for a stuffed PS/2 packet and for a top bit. */
    method InvalidMiddleByte() returns (rejected: bool)
      requires Valid()
      ensures rejected == Middle(model, Partial())
    {
      if model.interleaved && packetByteCount >= 4 {
        var b := Byte(3);
        if b & 0x0f == 0x0f {
          return true;
        }
      }
      if model.proto < PROTO_V5 && packetByteCount >= 2 && packetByteCount <= model.PacketSize() {
        var b := Byte(packetByteCount - 1);
        return b & 0x80 != 0;
      }
      return false;
    }

    /** The checks on later bytes that only the seventh and eighth protocols make. */
    method InvalidLateByte() returns (rejected: bool)
      requires Valid()
      ensures rejected == Late(model, Partial())
    {
      if model.proto != PROTO_V7 && model.proto != PROTO_V8 {
        return false;
      }
      if packetByteCount != 3 && packetByteCount != 4 && packetByteCount != 6 {
        return false;
      }
      var b := Byte(packetByteCount - 1);
      if model.proto == PROTO_V7 {
        return (packetByteCount == 3 && b & 0x40 != 0x40) || (packetByteCount == 4 && b & 0x48 != 0x48)
               || (packetByteCount == 6 && b & 0x40 != 0);
      }
      return (packetByteCount == 4 && b & 0x08 != 0x08) || (packetByteCount == 6 && b & 0x10 != 0);
    }

    /** Handles every packet announced since: all are dropped if the last byte
        received was bad, otherwise all are processed, in order. */
    method PacketReady()
      requires Valid()
      modifies this`packetByteCount, this`processed, ring`tail
      ensures Valid() && Waiting() == [] && ring.head == ring.tail
      ensures processed == old(processed) + if badData then [] else old(Waiting())
      ensures packetByteCount == if old(Waiting()) == [] then old(packetByteCount) else 0
    {
      ghost var all := Waiting();
      ghost var done: seq<seq<bv8>> := [];
      assert done + Waiting() == all;
      NoneWaiting(ring.head, ring.tail, model.PacketSize());
      var count := ring.Count();
      while count >= model.PacketSize()
        invariant Valid() && count == Distance(ring.head, ring.tail, N) && all == done + Waiting()
        invariant processed == old(processed) + if badData then [] else done
        invariant packetByteCount == if done == [] then old(packetByteCount) else 0
        invariant count < model.PacketSize() <==> ring.head == ring.tail
        decreases count
      {
        ghost var before := Waiting();
        HandleNext();
        done := done + [before[0]];
        NoneWaiting(ring.head, ring.tail, model.PacketSize());
        count := ring.Count();
      }
    }

    /** Handles the packet at the tail. */
    method HandleNext()
      requires Valid() && ring.head != ring.tail
      modifies this`packetByteCount, this`processed, ring`tail
      ensures Valid() && packetByteCount == 0
      ensures Distance(ring.head, ring.tail, N) < old(Distance(ring.head, ring.tail, N))
      ensures old(Waiting()) != [] && Waiting() == old(Waiting())[1..]
      ensures processed == old(processed) + if badData then [] else [old(Waiting())[0]]
    {
      NextWaiting(ring.buffer[..], ring.tail, ring.head, model.PacketSize());
      NoneWaiting(ring.head, ring.tail, model.PacketSize());
      assert ring.buffer[ring.tail..ring.tail + model.PacketSize()]
             == ring.buffer[..][ring.tail..ring.tail + model.PacketSize()];
      if !badData {
        processed := processed + [ring.buffer[ring.tail..ring.tail + model.PacketSize()]];
      }
      packetByteCount := 0;
      ring.AdvanceTail(model.PacketSize());
    }

    /** One byte under the serialised schedule: the handler runs before the next. */
    method Receive(data: bv8)
      requires Settled()
      modifies this`packetByteCount, this`badData, this`processed, ring`head, ring`tail, ring.buffer
      ensures Settled()
      ensures var (items, kept) := Take(model, old(Partial()), data);
              Partial() == kept && processed == old(processed) + Packets(items)
    {
      TakeSound(model, Partial(), data);
      ghost var items := Take(model, Partial(), data).0;
      assert items != [] ==> items[1..] == [];
      var packetReady := InterruptOccurred(data);
      if packetReady {
        PacketReady();
      }
    }

    /** A stream of bytes: exactly the packets of its scan are processed. */
    method ReceiveAll(input: seq<bv8>)
      requires Settled()
      modifies this`packetByteCount, this`badData, this`processed, ring`head, ring`tail, ring.buffer
      ensures Settled()
      ensures var (items, rest) := Scan(model, old(Partial()), input);
              Partial() == rest && processed == old(processed) + Packets(items)
    {
      ghost var items: seq<Item> := [];
      assert items + Scan(model, Partial(), input).0 == Scan(model, Partial(), input).0 && input[0..] == input;
      for i := 0 to |input|
        invariant Settled()
        invariant var (later, rest) := Scan(model, Partial(), input[i..]);
                  Scan(model, old(Partial()), input) == (items + later, rest)
        invariant processed == old(processed) + Packets(items)
      {
        ghost var now := Take(model, Partial(), input[i]).0;
        assert input[i..][1..] == input[i + 1..];
        Receive(input[i]);
        ghost var later := Scan(model, Partial(), input[i + 1..]).0;
        assert items + (now + later) == items + now + later;
        PacketsConcat(items, now);
        items := items + now;
      }
      assert items + [] == items;
    }
  }

  predicate Middle(m: Model, partial: seq<bv8>) {
    Stuffed(m, partial) || TopBit(m, partial)
  }

  predicate Late(m: Model, partial: seq<bv8>) {
    (m.proto == PROTO_V7 && Unlike7(partial)) || (m.proto == PROTO_V8 && Unlike8(partial))
  }

  lemma RejectsWhen(m: Model, partial: seq<bv8>, data: bv8)
    requires !Bare(m, First(partial, data))
    ensures Rejects(m, partial, data)
            <==> Middle(m, partial) || First(partial, data) & m.mask0 != m.byte0 || Late(m, partial)
  {
  }

  lemma NextWaiting(buffer: seq<bv8>, t: nat, head: nat, p: nat)
    requires |buffer| == N && Size(p) && Boundary(t, p) && Boundary(head, p) && t != head
    ensures t + p <= N && Boundary(Wrap(t + p, N), p)
    ensures Unread(buffer, t, head, p) == [buffer[t..t + p]] + Unread(buffer, Wrap(t + p, N), head, p)
  {
    Bounded(t, p);
  }

  // Packet boundaries less than a packet apart coincide.
  lemma NoneWaiting(head: nat, tail: nat, p: nat)
    requires Size(p) && Boundary(head, p) && Boundary(tail, p)
    ensures Distance(head, tail, N) < p <==> head == tail
  {
  }

  /** A touchpad that starts, or is disturbed, with any bytes and then delivers
      packets: the driver skips those that Skipped counts and processes all after
      them, and at most one mixed packet in place of the first it skips. */
  method Rejoin(t: Touchpad, history: seq<bv8>, packets: seq<seq<bv8>>)
    requires t.Settled() && t.Partial() == [] && t.processed == []
    requires Synchronising(t.model) && packets != [] && Stream(t.model, packets, 0)
    requires Stream(t.model, packets, Skipped(t.model, KeptAfter(t.model, history), packets))
    modifies t`packetByteCount, t`badData, t`processed, t.ring`head, t.ring`tail, t.ring.buffer
    ensures t.Settled()
    ensures var partial := KeptAfter(t.model, history);
            && t.processed == Sent(t.model, [], history) + Mixed(t.model, partial, packets[0])
                              + packets[Skipped(t.model, partial, packets)..]
            && (t.Partial() == [] <==> AtTheEnd(t.model, partial, packets) == 0)
  {
    SelfSynchronises(t.model, history, packets);
    t.ReceiveAll(history + Concat(packets));
  }
}
