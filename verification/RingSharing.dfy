/** The ring as it is shared: the interrupt routine writes packet bytes at the head
    and commits whole packets; the packet handler reads the packet at the tail and
    then advances the tail in two writes.  An interrupt may land between any two
    steps of the handler. */
module RingSharing {
  import opened Wrappers
  import opened Ring
  import opened Assembler
  import opened SelfSync

  const N := 192

  /** Where the handler is: outside its loop, reading the packet at the tail with the
      bytes read so far, or with the tail moved but not yet wrapped. */
  datatype Handler = Idle | Reading(got: seq<bv8>) | Moved

  datatype State = State(buffer: seq<bv8>, head: nat, tail: nat, handler: Handler,
                         committed: seq<seq<bv8>>, released: seq<seq<bv8>>)

  datatype Step =
    | WriteByte(offset: nat, data: bv8)  // interrupt: store a byte of the packet at the head
    | Commit                             // interrupt: advance the head by a packet
    | Check                              // handler: is a packet waiting?
    | ReadByte                           // handler: read the next byte of the packet
    | MoveTail                           // handler: tail += packet size
    | WrapTail                           // handler: wrap the tail if it ran off the end

  predicate Size(p: nat) {
    p == 6 || p == 8
  }

  /** The tail with a pending wrap done. */
  function Oldest(s: State): nat {
    if s.tail == N then 0 else s.tail
  }

  /** A packet boundary of the ring. */
  predicate Boundary(i: nat, p: nat)
    requires Size(p)
  {
    i < N && i % p == 0
  }

  /** The packets from t up to head. */
  function Unread(buffer: seq<bv8>, t: nat, head: nat, p: nat): seq<seq<bv8>>
    requires |buffer| == N && Size(p) && Boundary(t, p) && Boundary(head, p)
    decreases Distance(head, t, N)
  {
    if t == head then [] else
      Bounded(t, p);
      [buffer[t..t + p]] + Unread(buffer, Wrap(t + p, N), head, p)
  }

  // No packet slot straddles the end of the ring.
  lemma Bounded(t: nat, p: nat)
    requires Size(p) && Boundary(t, p)
    ensures t + p <= N && Boundary(Wrap(t + p, N), p)
  {
  }

  predicate Invariant(s: State, p: nat)
    requires Size(p)
  {
    && |s.buffer| == N
    && Boundary(s.head, p) && Boundary(Oldest(s), p)
    && (s.tail == N ==> s.handler.Moved?)
    && var unread := Unread(s.buffer, Oldest(s), s.head, p);
       && s.committed == s.released + unread
       && (s.handler.Reading? ==> unread != [] && s.handler.got <= unread[0])
  }

  /** Steps that are not enabled leave the state as it is. */
  function Next(s: State, p: nat, step: Step): State
    requires Size(p) && |s.buffer| == N && Boundary(s.head, p) && s.tail <= N
  {
    match step
    case WriteByte(offset, data) =>
      if offset < p then
        Bounded(s.head, p);
        s.(buffer := s.buffer[s.head + offset := data])
      else s
    case Commit =>
      var head := Wrap(s.head + p, N);
      if Distance(head, s.tail, N) >= Distance(s.head, s.tail, N) then
        Bounded(s.head, p);
        s.(head := head, committed := s.committed + [s.buffer[s.head..s.head + p]])
      else s
    case Check =>
      if s.handler.Idle? && Distance(s.head, s.tail, N) >= p then s.(handler := Reading([])) else s
    case ReadByte =>
      if s.handler.Reading? && |s.handler.got| < p && s.tail + |s.handler.got| < N then
        s.(handler := Reading(s.handler.got + [s.buffer[s.tail + |s.handler.got|]]))
      else s
    case MoveTail =>
      if s.handler.Reading? && |s.handler.got| == p && s.tail + p <= N then
        s.(tail := s.tail + p, handler := Moved, released := s.released + [s.handler.got])
      else s
    case WrapTail =>
      if s.handler.Moved? then s.(tail := Oldest(s), handler := Idle) else s
  }

  // A byte written below the packet size touches no unread packet.
  lemma {:induction false} WriteApart(buffer: seq<bv8>, t: nat, head: nat, p: nat, offset: nat, data: bv8)
    requires |buffer| == N && Size(p) && Boundary(t, p) && Boundary(head, p) && offset < p
    ensures head + offset < N && Unread(buffer[head + offset := data], t, head, p) == Unread(buffer, t, head, p)
    decreases Distance(head, t, N)
  {
    Bounded(head, p);
    if t != head {
      Bounded(t, p);
      WriteApart(buffer, Wrap(t + p, N), head, p, offset, data);
      assert t + p <= head || head + p <= t;
      assert buffer[head + offset := data][t..t + p] == buffer[t..t + p];
    }
  }

  // A committed packet goes behind the unread ones.
  lemma {:induction false} CommitBehind(buffer: seq<bv8>, t: nat, head: nat, p: nat)
    requires |buffer| == N && Size(p) && Boundary(t, p) && Boundary(head, p)
    requires Distance(head, t, N) + p < N
    ensures head + p <= N && Boundary(Wrap(head + p, N), p)
    ensures Unread(buffer, t, Wrap(head + p, N), p) == Unread(buffer, t, head, p) + [buffer[head..head + p]]
    decreases Distance(head, t, N)
  {
    var head', t' := Wrap(head + p, N), Wrap(t + p, N);
    Bounded(head, p);
    Bounded(t, p);
    Ahead(t, head, p);
    if t == head {
      assert Unread(buffer, head', head', p) == [];
    } else {
      CommitBehind(buffer, t', head, p);
      Regroup([buffer[t..t + p]], Unread(buffer, t', head, p), [buffer[head..head + p]]);
    }
  }

  // With room for a packet, the head moved on by one does not meet the tail, and a
  // tail behind the head comes nearer to it by one.
  lemma Ahead(t: nat, head: nat, p: nat)
    requires Size(p) && Boundary(t, p) && Boundary(head, p) && Distance(head, t, N) + p < N
    ensures Wrap(head + p, N) != t
    ensures t != head ==> Distance(head, Wrap(t + p, N), N) == Distance(head, t, N) - p
  {
  }

  lemma CommitKeeps(s: State, p: nat)
    requires Size(p) && Invariant(s, p)
    ensures Invariant(Next(s, p, Commit), p)
  {
    var t := Oldest(s);
    AcceptsWhenRoom(s.head, t, p, N);
    TransientTail(s.head, p, N);
    if Distance(s.head, t, N) + p < N {
      CommitBehind(s.buffer, t, s.head, p);
      var unread := Unread(s.buffer, t, s.head, p);
      Regroup(s.released, unread, [s.buffer[s.head..s.head + p]]);
    }
  }

  lemma ReadKeeps(s: State, p: nat)
    requires Size(p) && Invariant(s, p)
    ensures Invariant(Next(s, p, ReadByte), p)
  {
    if s.handler.Reading? && |s.handler.got| < p {
      Bounded(s.tail, p);
      assert Unread(s.buffer, s.tail, s.head, p)[0] == s.buffer[s.tail..s.tail + p];
    }
  }

  lemma MoveKeeps(s: State, p: nat)
    requires Size(p) && Invariant(s, p)
    ensures Invariant(Next(s, p, MoveTail), p)
  {
    if s.handler.Reading? && |s.handler.got| == p {
      var t := s.tail;
      Bounded(t, p);
      var unread, later := Unread(s.buffer, t, s.head, p), Unread(s.buffer, Wrap(t + p, N), s.head, p);
      assert unread == [s.buffer[t..t + p]] + later;
      assert s.handler.got == unread[0];
      assert s.released + ([s.handler.got] + later) == s.released + [s.handler.got] + later;
    }
  }

  // Every step, wherever the interrupt lands, keeps the invariant.
  lemma StepKeeps(s: State, p: nat, step: Step)
    requires Size(p) && Invariant(s, p)
    ensures Invariant(Next(s, p, step), p)
  {
    match step
    case WriteByte(offset, data) =>
      if offset < p { WriteApart(s.buffer, Oldest(s), s.head, p, offset, data); }
    case Commit => CommitKeeps(s, p);
    case ReadByte => ReadKeeps(s, p);
    case MoveTail => MoveKeeps(s, p);
    case _ =>
  }

  function Run(s: State, p: nat, steps: seq<Step>): State
    requires Size(p) && Invariant(s, p)
    decreases |steps|
  {
    if steps == [] then s
    else
      StepKeeps(s, p, steps[0]);
      Run(Next(s, p, steps[0]), p, steps[1..])
  }

  // For every interleaving: head and tail stay on packet boundaries, no unread packet
  // is overwritten, and the handler sees the committed packets, unchanged, in order.
  lemma {:induction false} FirstInFirstOut(s: State, p: nat, steps: seq<Step>)
    requires Size(p) && Invariant(s, p)
    ensures var r := Run(s, p, steps);
            && Invariant(r, p)
            && Boundary(r.head, p) && Boundary(Oldest(r), p)
            && r.committed == r.released + Unread(r.buffer, Oldest(r), r.head, p)
            && s.released <= r.released <= r.committed
    decreases |steps|
  {
    if steps != [] {
      StepKeeps(s, p, steps[0]);
      FirstInFirstOut(Next(s, p, steps[0]), p, steps[1..]);
    }
  }

  // A whole true packet behind which a byte arrives passes every check.
  lemma StalePasses(m: Model, slot: seq<bv8>, data: bv8)
    requires Synchronising(m) && Plain(m, slot)
    ensures !Rejects(m, slot, data) && !Bare(m, First(slot, data))
  {
    var first, last := slot[0], slot[|slot| - 1];
    FirstByte(m, first);
    assert First(slot, data) == first && first & m.mask0 == m.byte0 && !Bare(m, first);
    assert last & 0x80 == 0 && !TopBit(m, slot);
    assert !Stuffed(m, slot) && m.proto != PROTO_V7 && m.proto != PROTO_V8;
  }

  // Why the byte count has to be cleared before the next byte: with a whole packet
  // counted and an old one in the free slot, the interrupt routine's checks pass, it
  // stores the byte one packet further on, and in a full ring that is the oldest
  // unread packet.
  lemma OffsetMatters(m: Model, s: State, data: bv8)
    requires Synchronising(m) && Invariant(s, m.PacketSize())
    requires Distance(s.head, Oldest(s), N) + m.PacketSize() == N && Oldest(s) != 0
    requires s.head + m.PacketSize() <= N && Plain(m, s.buffer[s.head..s.head + m.PacketSize()])
    requires data != s.buffer[Oldest(s)]
    ensures s.head + m.PacketSize() < N
    ensures var slot := s.buffer[s.head..s.head + m.PacketSize()];
            !Rejects(m, slot, data) && !Bare(m, First(slot, data))
    ensures var p, t := m.PacketSize(), Oldest(s);
            Unread(s.buffer[s.head + p := data], t, s.head, p)[0] != Unread(s.buffer, t, s.head, p)[0]
  {
    var p, t := m.PacketSize(), Oldest(s);
    StalePasses(m, s.buffer[s.head..s.head + p], data);
    Bounded(t, p);
    assert s.head + p == t;
    assert s.buffer[t := data][t..t + p][0] == data;
    assert s.buffer[t..t + p][0] == s.buffer[t];
  }
}
