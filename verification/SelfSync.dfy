/** Finding the packet boundary again.  Below the fifth protocol a packet's first
    byte has its top bit set and the others do not; the driver relies on that to
    synchronise with a stream it joins, or loses, in the middle of a packet. */
module SelfSync {
  import opened Assembler

  /** The models the argument is for. */
  predicate Synchronising(m: Model) {
    m.proto < PROTO_V5 && m.byte0 & 0x80 != 0 && m.mask0 & 0x80 != 0 && !m.interleaved
  }

  /** A true packet: only its first byte has the top bit. */
  predicate Plain(m: Model, p: seq<bv8>) {
    && |p| == m.PacketSize()
    && p[0] & m.mask0 == m.byte0
    && forall i :: 1 <= i < |p| ==> p[i] & 0x80 == 0
  }

  function Concat(packets: seq<seq<bv8>>): seq<bv8> {
    if packets == [] then [] else packets[0] + Concat(packets[1..])
  }

  lemma FirstByte(m: Model, b: bv8)
    requires Synchronising(m)
    ensures b & m.mask0 == m.byte0 ==> b & 0x80 != 0 && !Bare(m, b)
    ensures b & 0x80 == 0 ==> b & m.mask0 != m.byte0
  {
  }

  // ---- One byte, told by the packets sent and the bytes kept

  function Sent(m: Model, partial: seq<bv8>, input: seq<bv8>): seq<seq<bv8>> {
    Packets(Scan(m, partial, input).0)
  }

  function Rest(m: Model, partial: seq<bv8>, input: seq<bv8>): seq<bv8> {
    Scan(m, partial, input).1
  }

  lemma Rejected(m: Model, partial: seq<bv8>, data: bv8, more: seq<bv8>)
    requires Rejects(m, partial, data)
    ensures Sent(m, partial, [data] + more) == Sent(m, [], more)
    ensures Rest(m, partial, [data] + more) == Rest(m, [], more)
  {
    var now := [Fragment(partial + [data])];
    ScanOne(m, partial, data, more);
    PacketsConcat(now, Scan(m, [], more).0);
    assert Packets(now) == [] + Packets(now[1..]);
  }

  lemma Buffered(m: Model, partial: seq<bv8>, data: bv8, more: seq<bv8>)
    requires !Rejects(m, partial, data) && (Bare(m, First(partial, data)) || |partial| + 1 != m.PacketSize())
    ensures Sent(m, partial, [data] + more) == Sent(m, partial + [data], more)
    ensures Rest(m, partial, [data] + more) == Rest(m, partial + [data], more)
  {
    ScanOne(m, partial, data, more);
    TakeCases(m, partial, data);
    assert [] + Scan(m, partial + [data], more).0 == Scan(m, partial + [data], more).0;
  }

  lemma Completed(m: Model, partial: seq<bv8>, data: bv8, more: seq<bv8>)
    requires !Rejects(m, partial, data) && !Bare(m, First(partial, data)) && |partial| + 1 == m.PacketSize()
    ensures Sent(m, partial, [data] + more) == [partial + [data]] + Sent(m, [], more)
    ensures Rest(m, partial, [data] + more) == Rest(m, [], more)
  {
    var now := [Packet(partial + [data])];
    ScanOne(m, partial, data, more);
    TakeCases(m, partial, data);
    PacketsConcat(now, Scan(m, [], more).0);
    assert Packets(now) == [partial + [data]] + Packets(now[1..]);
  }

  lemma SentConcat(m: Model, partial: seq<bv8>, a: seq<bv8>, b: seq<bv8>)
    ensures Sent(m, partial, a + b) == Sent(m, partial, a) + Sent(m, Rest(m, partial, a), b)
    ensures Rest(m, partial, a + b) == Rest(m, Rest(m, partial, a), b)
  {
    ScanConcat(m, partial, a, b);
    PacketsConcat(Scan(m, partial, a).0, Scan(m, Rest(m, partial, a), b).0);
  }

  // ---- One true packet, met out of step

  /** How many of the packet's last bytes are kept when its byte i is met at a
      boundary: a byte that looks like the first of a bare PS/2 packet is given up
      together with the three that follow, any other at once. */
  function Left(m: Model, p: seq<bv8>, i: nat): (n: nat)
    requires i <= |p|
    ensures n <= 3 && n <= |p| - i && (n > 0 ==> Bare(m, p[|p| - n]))
    decreases |p| - i
  {
    if i == |p| then 0
    else if !Bare(m, p[i]) then Left(m, p, i + 1)
    else if i + 4 <= |p| then Left(m, p, i + 4)
    else |p| - i
  }

  // Bytes kept behind a bare-looking one are given up at the fourth ...
  lemma {:induction false} BareDropped(m: Model, partial: seq<bv8>, p: seq<bv8>, i: nat)
    requires partial != [] && Bare(m, partial[0]) && |partial| <= 3 && i + 4 - |partial| <= |p|
    ensures var after := p[i + 4 - |partial|..];
            Sent(m, partial, p[i..]) == Sent(m, [], after) && Rest(m, partial, p[i..]) == Rest(m, [], after)
    decreases 3 - |partial|
  {
    assert p[i..] == [p[i]] + p[i + 1..];
    if |partial| == 3 {
      Rejected(m, partial, p[i], p[i + 1..]);
    } else {
      Buffered(m, partial, p[i], p[i + 1..]);
      BareDropped(m, partial + [p[i]], p, i + 1);
    }
  }

  // ... unless the packet ends first.
  lemma {:induction false} BareKept(m: Model, partial: seq<bv8>, p: seq<bv8>, i: nat)
    requires partial != [] && Bare(m, partial[0]) && i <= |p| < i + 4 - |partial|
    ensures Sent(m, partial, p[i..]) == [] && Rest(m, partial, p[i..]) == partial + p[i..]
    decreases |p| - i
  {
    if i < |p| {
      assert p[i..] == [p[i]] + p[i + 1..];
      Buffered(m, partial, p[i], p[i + 1..]);
      BareKept(m, partial + [p[i]], p, i + 1);
    } else {
      assert p[i..] == [];
    }
  }

  // From byte i of a true packet on, nothing is sent and Left says what is kept.
  lemma {:induction false} BodyScan(m: Model, p: seq<bv8>, i: nat)
    requires Synchronising(m) && Plain(m, p) && 1 <= i <= |p|
    ensures Sent(m, [], p[i..]) == [] && Rest(m, [], p[i..]) == p[|p| - Left(m, p, i)..]
    decreases |p| - i
  {
    if i == |p| {
      assert p[i..] == [];
    } else {
      assert p[i..] == [p[i]] + p[i + 1..];
      FirstByte(m, p[i]);
      if !Bare(m, p[i]) {
        Rejected(m, [], p[i], p[i + 1..]);
        BodyScan(m, p, i + 1);
      } else {
        BareBody(m, p, i);
        if i + 4 <= |p| { BodyScan(m, p, i + 4); }
      }
    }
  }

  lemma BareBody(m: Model, p: seq<bv8>, i: nat)
    requires i < |p| && Bare(m, p[i])
    ensures if i + 4 <= |p|
            then Sent(m, [], p[i..]) == Sent(m, [], p[i + 4..]) && Rest(m, [], p[i..]) == Rest(m, [], p[i + 4..])
            else Sent(m, [], p[i..]) == [] && Rest(m, [], p[i..]) == p[i..]
  {
    assert p[i..] == [p[i]] + p[i + 1..];
    assert [] + [p[i]] == [p[i]];
    Buffered(m, [], p[i], p[i + 1..]);
    if i + 4 <= |p| {
      BareDropped(m, [p[i]], p, i + 1);
    } else {
      BareKept(m, [p[i]], p, i + 1);
    }
  }

  /** The byte of a true packet first met at a boundary, by the bytes kept before it. */
  function Landing(m: Model, partial: seq<bv8>, p: seq<bv8>): (i: nat)
    requires Kept(m, partial) && partial != [] && p != []
    ensures 1 <= i <= 3
  {
    if Bare(m, partial[0]) then 4 - |partial|
    else if Rejects(m, partial, p[0]) || |partial| + 1 == m.PacketSize() then 1
    else 2
  }

  /** The one packet that may be dispatched while out of step: old bytes, all but
      the last of a packet, completed by a true packet's first byte. */
  function Mixed(m: Model, partial: seq<bv8>, p: seq<bv8>): seq<seq<bv8>> {
    if p != [] && partial != [] && |partial| + 1 == m.PacketSize() && !Bare(m, partial[0])
       && partial[|partial| - 1] & 0x80 == 0
    then [partial + [p[0]]] else []
  }

  // Behind an unfinished packet, a true packet's first byte completes it, is
  // rejected, or is found out by the byte that follows.
  lemma FirstByteMet(m: Model, partial: seq<bv8>, p: seq<bv8>)
    requires Synchronising(m) && Kept(m, partial) && partial != [] && !Bare(m, partial[0]) && Plain(m, p)
    ensures var after := p[Landing(m, partial, p)..];
            && Sent(m, partial, p) == Mixed(m, partial, p) + Sent(m, [], after)
            && Rest(m, partial, p) == Rest(m, [], after)
  {
    var grown := partial + [p[0]];
    assert p == [p[0]] + p[1..];
    FirstByte(m, p[0]);
    if Rejects(m, partial, p[0]) {
      Rejected(m, partial, p[0], p[1..]);
    } else if |grown| == m.PacketSize() {
      Completed(m, partial, p[0], p[1..]);
    } else {
      Buffered(m, partial, p[0], p[1..]);
      assert p[1..] == [p[1]] + p[2..] && grown[|grown| - 1] == p[0];
      Rejected(m, grown, p[1], p[2..]);
    }
  }

  // Whatever bytes are kept, one true packet leaves exactly as many as Left says.
  lemma Resync(m: Model, partial: seq<bv8>, p: seq<bv8>)
    requires Synchronising(m) && Kept(m, partial) && partial != [] && Plain(m, p)
    ensures Sent(m, partial, p) == Mixed(m, partial, p)
    ensures Rest(m, partial, p) == p[|p| - Left(m, p, Landing(m, partial, p))..]
  {
    BodyScan(m, p, Landing(m, partial, p));
    if Bare(m, partial[0]) {
      assert p[0..] == p;
      BareDropped(m, partial, p, 0);
    } else {
      FirstByteMet(m, partial, p);
    }
  }

  // One true packet is enough, whatever was kept before it, if and only if its body
  // leaves nothing from each of the three bytes it may be joined at.
  lemma OnePacketIsEnough(m: Model, p: seq<bv8>)
    requires Synchronising(m) && Plain(m, p)
    ensures (forall partial :: Kept(m, partial) ==> Rest(m, partial, p) == [])
            <==> Left(m, p, 1) == 0 && Left(m, p, 2) == 0 && Left(m, p, 3) == 0
  {
    PlainIsWellFormed(m, p);
    AlignedPacket(m, p);
    forall partial | Kept(m, partial) && partial != []
      ensures |Rest(m, partial, p)| == Left(m, p, Landing(m, partial, p))
    {
      Resync(m, partial, p);
    }
    assert Landing(m, [0x08], p) == 3 && Landing(m, [0x08, 0], p) == 2 && Landing(m, [0x08, 0, 0], p) == 1;
  }

  lemma PlainIsWellFormed(m: Model, p: seq<bv8>)
    requires Synchronising(m) && Plain(m, p)
    ensures WellFormed(m, p)
  {
    FirstByte(m, p[0]);
  }

  // So it is if no body byte looks like the first of a bare PS/2 packet.
  lemma {:induction false} CleanBody(m: Model, p: seq<bv8>, i: nat)
    requires i <= |p| && forall k :: i <= k < |p| ==> !Bare(m, p[k])
    ensures Left(m, p, i) == 0
    decreases |p| - i
  {
    if i < |p| {
      CleanBody(m, p, i + 1);
    }
  }

  // ---- A stream of packets

  /** Packets as the driver accepts them, true ones as far as the n-th. */
  predicate Stream(m: Model, packets: seq<seq<bv8>>, n: nat) {
    && (forall i :: 0 <= i < |packets| ==> WellFormed(m, packets[i]))
    && (forall i :: 0 <= i < n && i < |packets| ==> Plain(m, packets[i]))
  }

  lemma StreamTail(m: Model, packets: seq<seq<bv8>>, n: nat)
    requires Stream(m, packets, n + 1) && packets != []
    ensures Stream(m, packets[1..], n)
  {
    var later := packets[1..];
    assert forall i :: 0 <= i < |later| ==> later[i] == packets[i + 1];
  }

  /** How many packets pass before one is met at a boundary, n bytes being kept of
      the packet before them. */
  function Missed(m: Model, n: nat, packets: seq<seq<bv8>>): (k: nat)
    requires n <= 3 && Stream(m, packets, 0)
    ensures k <= |packets|
    decreases |packets|
  {
    if n == 0 || packets == [] then 0
    else 1 + Missed(m, Left(m, packets[0], 4 - n), packets[1..])
  }

  /** How many bytes are kept after them: none exactly if a boundary has been found. */
  function Ending(m: Model, n: nat, packets: seq<seq<bv8>>): nat
    requires n <= 3 && Stream(m, packets, 0)
    decreases |packets|
  {
    if n == 0 || packets == [] then n
    else Ending(m, Left(m, packets[0], 4 - n), packets[1..])
  }

  // At a boundary, exactly the packets of a concatenation are dispatched.
  lemma {:induction false} InStep(m: Model, packets: seq<seq<bv8>>)
    requires forall i :: 0 <= i < |packets| ==> WellFormed(m, packets[i])
    ensures Sent(m, [], Concat(packets)) == packets && Rest(m, [], Concat(packets)) == []
    decreases |packets|
  {
    if packets != [] {
      var p, later := packets[0], packets[1..];
      AlignedPacket(m, p);
      InStep(m, later);
      SentConcat(m, [], p, Concat(later));
      assert Packets([Packet(p)]) == [p] + Packets([Packet(p)][1..]);
    }
  }

  // With bare-looking bytes kept.
  lemma {:induction false} OutOfStep(m: Model, partial: seq<bv8>, packets: seq<seq<bv8>>)
    requires Synchronising(m) && |partial| <= 3 && (partial != [] ==> Bare(m, partial[0]))
    requires Stream(m, packets, 0) && Stream(m, packets, Missed(m, |partial|, packets))
    ensures Sent(m, partial, Concat(packets)) == packets[Missed(m, |partial|, packets)..]
    ensures |Rest(m, partial, Concat(packets))| == Ending(m, |partial|, packets)
    decreases |packets|
  {
    if partial == [] {
      InStep(m, packets);
    } else if packets != [] {
      var p, later := packets[0], packets[1..];
      var n := Left(m, p, 4 - |partial|);
      Resync(m, partial, p);
      StreamTail(m, packets, Missed(m, n, later));
      OutOfStep(m, p[|p| - n..], later);
      SentConcat(m, partial, p, Concat(later));
    }
  }

  /** How many packets of the stream are not dispatched, by the bytes kept before it. */
  function Skipped(m: Model, partial: seq<bv8>, packets: seq<seq<bv8>>): (k: nat)
    requires Kept(m, partial) && Stream(m, packets, 0)
    ensures k <= |packets|
  {
    if partial == [] || packets == [] then 0
    else 1 + Missed(m, Left(m, packets[0], Landing(m, partial, packets[0])), packets[1..])
  }

  /** How many bytes are kept at the end of the stream. */
  function AtTheEnd(m: Model, partial: seq<bv8>, packets: seq<seq<bv8>>): nat
    requires Kept(m, partial) && Stream(m, packets, 0)
  {
    if partial == [] || packets == [] then |partial|
    else Ending(m, Left(m, packets[0], Landing(m, partial, packets[0])), packets[1..])
  }

  // What the driver makes of a stream of packets, exactly, whatever bytes are kept
  // before it: it skips the packets Skipped counts, dispatches all after them, and
  // at most one mixed packet in place of the first.
  lemma FromAnywhere(m: Model, partial: seq<bv8>, packets: seq<seq<bv8>>)
    requires Synchronising(m) && Kept(m, partial) && packets != [] && Stream(m, packets, 0)
    requires Stream(m, packets, Skipped(m, partial, packets))
    ensures Sent(m, partial, Concat(packets))
            == Mixed(m, partial, packets[0]) + packets[Skipped(m, partial, packets)..]
    ensures |Rest(m, partial, Concat(packets))| == AtTheEnd(m, partial, packets)
  {
    if partial == [] {
      InStep(m, packets);
    } else {
      assert packets == [packets[0]] + packets[1..];
      FromWithin(m, partial, packets[0], packets[1..]);
    }
  }

  lemma FromWithin(m: Model, partial: seq<bv8>, p: seq<bv8>, later: seq<seq<bv8>>)
    requires Synchronising(m) && Kept(m, partial) && partial != [] && Stream(m, [p] + later, 0)
    requires Stream(m, [p] + later, Skipped(m, partial, [p] + later))
    ensures Sent(m, partial, Concat([p] + later))
            == Mixed(m, partial, p) + ([p] + later)[Skipped(m, partial, [p] + later)..]
    ensures |Rest(m, partial, Concat([p] + later))| == AtTheEnd(m, partial, [p] + later)
  {
    var packets := [p] + later;
    assert packets[1..] == later;
    var n := Left(m, p, Landing(m, partial, p));
    Resync(m, partial, p);
    StreamTail(m, packets, Missed(m, n, later));
    OutOfStep(m, p[|p| - n..], later);
    SentConcat(m, partial, p, Concat(later));
  }

  // Self-synchronisation.  Whatever came before, the driver is at a boundary at the
  // end of a stream of packets if and only if AtTheEnd, a function of the bytes kept
  // and of where bare-looking bytes stand in the packets, is 0; and then, as before
  // then, it has dispatched exactly the packets from the first one met at a boundary
  // on, and at most one mixed one.
  lemma SelfSynchronises(m: Model, history: seq<bv8>, packets: seq<seq<bv8>>)
    requires Synchronising(m) && packets != [] && Stream(m, packets, 0)
    requires Stream(m, packets, Skipped(m, KeptAfter(m, history), packets))
    ensures var partial := KeptAfter(m, history);
            && (Rest(m, [], history + Concat(packets)) == [] <==> AtTheEnd(m, partial, packets) == 0)
            && Sent(m, [], history + Concat(packets))
               == Sent(m, [], history) + Mixed(m, partial, packets[0]) + packets[Skipped(m, partial, packets)..]
  {
    SentConcat(m, [], history, Concat(packets));
    FromAnywhere(m, KeptAfter(m, history), packets);
  }

  /** The bytes kept after a history, from a fresh start. */
  function KeptAfter(m: Model, history: seq<bv8>): (partial: seq<bv8>)
    ensures Kept(m, partial)
  {
    ScanPartitions(m, [], history);
    Rest(m, [], history)
  }

  // If the first packet's body has no bare-looking byte, that packet is enough.
  lemma CleanPacketSyncs(m: Model, partial: seq<bv8>, packets: seq<seq<bv8>>)
    requires Synchronising(m) && Kept(m, partial) && packets != [] && Stream(m, packets, 1)
    requires forall k :: 1 <= k < |packets[0]| ==> !Bare(m, packets[0][k])
    ensures Skipped(m, partial, packets) == (if partial == [] then 0 else 1) && AtTheEnd(m, partial, packets) == 0
  {
    if partial != [] {
      CleanBody(m, packets[0], Landing(m, partial, packets[0]));
    }
  }

  // ---- A stream that is never found again

  const V3 := Model(0x300, 0x8f, 0x8f, false)

  /** A true packet whose body bytes look like bare PS/2 first bytes. */
  const STUBBORN: seq<bv8> := [0x8f, 0x08, 0x08, 0x08, 0x08, 0x08]

  function Copies(n: nat): seq<seq<bv8>> {
    seq(n, _ => STUBBORN)
  }

  lemma StubbornIsPlain(n: nat)
    ensures Plain(V3, STUBBORN) && Stream(V3, Copies(n), n)
  {
    assert V3.PacketSize() == 6;
    PlainIsWellFormed(V3, STUBBORN);
  }

  // Joined one byte before its end the packet is kept one byte before its end, and
  // so on: one byte kept becomes three, and three become one.
  lemma {:induction false} StubbornCycle(k: nat, n: nat)
    requires k == 1 || k == 3
    ensures Stream(V3, Copies(n), n) && Stream(V3, Copies(n), 0)
    ensures Missed(V3, k, Copies(n)) == n && Ending(V3, k, Copies(n)) != 0
    decreases n
  {
    StubbornIsPlain(n);
    if n > 0 {
      assert Copies(n)[1..] == Copies(n - 1) && Copies(n)[0] == STUBBORN;
      assert Left(V3, STUBBORN, 1) == 1 && Left(V3, STUBBORN, 3) == 3;
      StubbornCycle(4 - k, n - 1);
    }
  }

  // Joined at its second byte, a stream of such packets never yields one, however
  // long it is, though each is dispatched from a boundary.
  lemma StubbornNeverSyncs(n: nat)
    ensures WellFormed(V3, STUBBORN)
    ensures Sent(V3, [], STUBBORN[1..] + Concat(Copies(n))) == []
    ensures Rest(V3, [], STUBBORN[1..] + Concat(Copies(n))) != []
  {
    StubbornIsPlain(n);
    BodyScan(V3, STUBBORN, 1);
    assert Left(V3, STUBBORN, 1) == 1;
    SentConcat(V3, [], STUBBORN[1..], Concat(Copies(n)));
    StubbornCycle(1, n);
    OutOfStep(V3, STUBBORN[5..], Copies(n));
  }
}
