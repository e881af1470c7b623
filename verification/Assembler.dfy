/** Packet assembly at interrupt time: which bytes the touchpad driver keeps, which
    it drops, and how it finds the packet boundary again. */
module Assembler {

  const PROTO_V4 := 0x400
  const PROTO_V5 := 0x500
  const PROTO_V7 := 0x700
  const PROTO_V8 := 0x800

  datatype Model = Model(proto: nat, byte0: bv8, mask0: bv8, interleaved: bool) {
    function PacketSize(): (size: nat)
      ensures size == 6 || size == 8
    {
      if proto == PROTO_V4 then 8 else 6
    }
  }

  /** What the byte stream is cut into. */
  datatype Item = Packet(bytes: seq<bv8>) | Fragment(bytes: seq<bv8>)

  /** The shape of a bare PS/2 packet's first byte; the eighth protocol cannot tell. */
  predicate Bare(m: Model, first: bv8) {
    m.proto != PROTO_V8 && first & 0xc8 == 0x08
  }

  function First(partial: seq<bv8>, data: bv8): bv8 {
    if partial == [] then data else partial[0]
  }

  /** A PS/2 packet stuffed in the middle, on models that interleave them. */
  predicate Stuffed(m: Model, partial: seq<bv8>) {
    m.interleaved && |partial| >= 4 && partial[3] & 0x0f == 0x0f
  }

  /** Below the fifth protocol the byte kept last, if not the first, has its top bit clear. */
  predicate TopBit(m: Model, partial: seq<bv8>) {
    m.proto < PROTO_V5 && 2 <= |partial| <= m.PacketSize() && partial[|partial| - 1] & 0x80 != 0
  }

  predicate Unlike7(partial: seq<bv8>) {
    || (|partial| == 3 && partial[2] & 0x40 != 0x40)
    || (|partial| == 4 && partial[3] & 0x48 != 0x48)
    || (|partial| == 6 && partial[5] & 0x40 != 0)
  }

  predicate Unlike8(partial: seq<bv8>) {
    || (|partial| == 4 && partial[3] & 0x08 != 0x08)
    || (|partial| == 6 && partial[5] & 0x10 != 0)
  }

  /** The validity checks made when data arrives behind the bytes kept so far. */
  predicate Rejects(m: Model, partial: seq<bv8>, data: bv8) {
    if Bare(m, First(partial, data)) then |partial| == 3
    else
      || Stuffed(m, partial)
      || First(partial, data) & m.mask0 != m.byte0
      || TopBit(m, partial)
      || (m.proto == PROTO_V7 && Unlike7(partial))
      || (m.proto == PROTO_V8 && Unlike8(partial))
  }

  /** One byte: the items it completes, none or one, and the bytes kept. */
  function Take(m: Model, partial: seq<bv8>, data: bv8): (seq<Item>, seq<bv8>) {
    var grown := partial + [data];
    if Rejects(m, partial, data) then ([Fragment(grown)], [])
    else if !Bare(m, grown[0]) && |grown| == m.PacketSize() then ([Packet(grown)], [])
    else ([], grown)
  }

  function Scan(m: Model, partial: seq<bv8>, input: seq<bv8>): (seq<Item>, seq<bv8>)
    decreases |input|
  {
    if input == [] then ([], partial)
    else
      var (now, kept) := Take(m, partial, input[0]);
      var (later, rest) := Scan(m, kept, input[1..]);
      (now + later, rest)
  }

  function Flatten(items: seq<Item>): seq<bv8> {
    if items == [] then [] else items[0].bytes + Flatten(items[1..])
  }

  function Packets(items: seq<Item>): seq<seq<bv8>> {
    if items == [] then []
    else (if items[0].Packet? then [items[0].bytes] else []) + Packets(items[1..])
  }

  // ---- The stream is partitioned, and what is dispatched is well formed

  /** What every dispatched packet satisfies. */
  predicate WellFormed(m: Model, p: seq<bv8>) {
    && |p| == m.PacketSize()
    && !Bare(m, p[0]) && p[0] & m.mask0 == m.byte0
    && (m.interleaved ==> p[3] & 0x0f != 0x0f)
    && (m.proto < PROTO_V5 ==> forall i :: 1 <= i < |p| - 1 ==> p[i] & 0x80 == 0)
    && (m.proto == PROTO_V7 ==> p[2] & 0x40 == 0x40 && p[3] & 0x48 == 0x48)
    && (m.proto == PROTO_V8 ==> p[3] & 0x08 == 0x08)
  }

  /** Where the checks made when n bytes are kept leave the byte at i alone. */
  predicate TopBitsClear(m: Model, p: seq<bv8>, n: nat) {
    m.proto < PROTO_V5 ==> forall i :: 1 <= i < n && i < |p| ==> p[i] & 0x80 == 0
  }

  predicate Like7(p: seq<bv8>) {
    (|p| >= 4 ==> p[2] & 0x40 == 0x40) && (|p| >= 5 ==> p[3] & 0x48 == 0x48)
  }

  predicate Like8(p: seq<bv8>) {
    |p| >= 5 ==> p[3] & 0x08 == 0x08
  }

  /** The bytes kept so far, at any time: fewer than a packet, and every check that
      could have failed already has been passed. */
  predicate Kept(m: Model, partial: seq<bv8>) {
    partial == [] ||
    if Bare(m, partial[0]) then |partial| <= 3
    else |partial| < m.PacketSize() && Passed(m, partial)
  }

  predicate Passed(m: Model, p: seq<bv8>)
    requires p != []
  {
    && p[0] & m.mask0 == m.byte0
    && (|p| >= 5 ==> !Stuffed(m, p))
    && TopBitsClear(m, p, |p| - 1)
    && (m.proto == PROTO_V7 ==> Like7(p))
    && (m.proto == PROTO_V8 ==> Like8(p))
  }

  predicate Sound(m: Model, item: Item) {
    match item
    case Packet(p) => WellFormed(m, p)
    case Fragment(f) => 1 <= |f| <= m.PacketSize()
  }

  lemma TopBitsGrow(m: Model, partial: seq<bv8>, data: bv8)
    requires partial != [] && |partial| <= m.PacketSize()
    requires TopBitsClear(m, partial, |partial| - 1) && !TopBit(m, partial)
    ensures TopBitsClear(m, partial + [data], |partial|)
  {
  }

  lemma LateGrow(partial: seq<bv8>, data: bv8)
    ensures Like7(partial) && !Unlike7(partial) ==> Like7(partial + [data])
    ensures Like8(partial) && !Unlike8(partial) ==> Like8(partial + [data])
  {
    assert forall i :: 0 <= i < |partial| ==> (partial + [data])[i] == partial[i];
  }

  lemma StuffedGrow(m: Model, partial: seq<bv8>, data: bv8)
    requires !Stuffed(m, partial) && |partial| >= 4
    ensures !Stuffed(m, partial + [data])
  {
    assert (partial + [data])[3] == partial[3];
  }

  lemma GrownPassed(m: Model, partial: seq<bv8>, data: bv8)
    requires Kept(m, partial) && !Rejects(m, partial, data) && !Bare(m, First(partial, data))
    ensures Passed(m, partial + [data])
  {
    LateGrow(partial, data);
    if |partial| >= 4 { StuffedGrow(m, partial, data); }
    if partial != [] { TopBitsGrow(m, partial, data); }
  }

  lemma GrownWellFormed(m: Model, p: seq<bv8>)
    requires |p| == m.PacketSize() && !Bare(m, p[0]) && Passed(m, p)
    ensures WellFormed(m, p)
  {
  }

  lemma KeptShort(m: Model, partial: seq<bv8>)
    requires Kept(m, partial)
    ensures |partial| < m.PacketSize()
  {
  }

  lemma GrownKept(m: Model, partial: seq<bv8>, data: bv8)
    requires Kept(m, partial) && !Rejects(m, partial, data)
    requires Bare(m, First(partial, data)) || |partial| + 1 != m.PacketSize()
    ensures Kept(m, partial + [data])
  {
    KeptShort(m, partial);
    assert (partial + [data])[0] == First(partial, data);
    if !Bare(m, First(partial, data)) {
      GrownPassed(m, partial, data);
    }
  }

  lemma GrownPacket(m: Model, partial: seq<bv8>, data: bv8)
    requires Kept(m, partial) && !Rejects(m, partial, data)
    requires !Bare(m, First(partial, data)) && |partial| + 1 == m.PacketSize()
    ensures WellFormed(m, partial + [data])
  {
    assert (partial + [data])[0] == First(partial, data);
    GrownPassed(m, partial, data);
    GrownWellFormed(m, partial + [data]);
  }

  lemma TakeCases(m: Model, partial: seq<bv8>, data: bv8)
    ensures var grown := partial + [data];
            Take(m, partial, data) ==
              if Rejects(m, partial, data) then ([Fragment(grown)], [])
              else if !Bare(m, First(partial, data)) && |partial| + 1 == m.PacketSize() then ([Packet(grown)], [])
              else ([], grown)
  {
    assert (partial + [data])[0] == First(partial, data);
  }

  /** A byte completes at most one sound item, and none of the bytes kept is lost. */
  predicate Accounted(m: Model, grown: seq<bv8>, now: seq<Item>, kept: seq<bv8>) {
    if now == [] then kept == grown && Kept(m, kept)
    else |now| == 1 && now[0].bytes == grown && Sound(m, now[0]) && kept == []
  }

  lemma TakeSound(m: Model, partial: seq<bv8>, data: bv8)
    requires Kept(m, partial)
    ensures var (now, kept) := Take(m, partial, data); Accounted(m, partial + [data], now, kept)
  {
    TakeCases(m, partial, data);
    KeptShort(m, partial);
    if !Rejects(m, partial, data) {
      if !Bare(m, First(partial, data)) && |partial| + 1 == m.PacketSize() {
        GrownPacket(m, partial, data);
      } else {
        GrownKept(m, partial, data);
      }
    }
  }

  lemma {:induction false} PacketsConcat(a: seq<Item>, b: seq<Item>)
    ensures Packets(a + b) == Packets(a) + Packets(b)
  {
    if a == [] {
      assert a + b == b;
    } else {
      assert (a + b)[1..] == a[1..] + b;
      PacketsConcat(a[1..], b);
    }
  }

  lemma FlattenCons(now: seq<Item>, kept: seq<bv8>, partial: seq<bv8>, input: seq<bv8>, later: seq<Item>,
                    rest: seq<bv8>)
    requires input != [] && |now| <= 1 && (now != [] ==> kept == [])
    requires (if now != [] then now[0].bytes else kept) == partial + [input[0]]
    requires kept + input[1..] == Flatten(later) + rest
    ensures partial + input == Flatten(now + later) + rest
  {
    if now == [] {
      assert partial + input == kept + input[1..];
      assert now + later == later;
    } else {
      assert (now + later)[1..] == later;
      assert partial + input == now[0].bytes + (kept + input[1..]);
      assert now[0].bytes + (Flatten(later) + rest) == now[0].bytes + Flatten(later) + rest;
    }
  }

  // Every byte stream is cut, in order and without loss, into well-formed packets,
  // dropped fragments no longer than a packet, and an unfinished rest.
  lemma {:induction false} ScanPartitions(m: Model, partial: seq<bv8>, input: seq<bv8>)
    requires Kept(m, partial)
    ensures var (items, rest) := Scan(m, partial, input);
            && Kept(m, rest)
            && (forall item :: item in items ==> Sound(m, item))
            && partial + input == Flatten(items) + rest
    decreases |input|
  {
    if input == [] {
      assert partial + input == Flatten([]) + partial;
    } else {
      var (now, kept) := Take(m, partial, input[0]);
      var (later, rest) := Scan(m, kept, input[1..]);
      TakeSound(m, partial, input[0]);
      ScanPartitions(m, kept, input[1..]);
      FlattenCons(now, kept, partial, input, later, rest);
    }
  }

  lemma {:induction false} ScanConcat(m: Model, partial: seq<bv8>, a: seq<bv8>, b: seq<bv8>)
    ensures var (first, kept) := Scan(m, partial, a);
            var (second, rest) := Scan(m, kept, b);
            Scan(m, partial, a + b) == (first + second, rest)
    decreases |a|
  {
    if a == [] {
      assert a + b == b;
      assert [] + Scan(m, partial, b).0 == Scan(m, partial, b).0;
    } else {
      var (now, kept) := Take(m, partial, a[0]);
      ScanConcat(m, kept, a[1..], b);
      assert (a + b)[1..] == a[1..] + b;
      var (first, kept') := Scan(m, kept, a[1..]);
      var second := Scan(m, kept', b).0;
      assert now + (first + second) == now + first + second;
    }
  }

  lemma ScanOne(m: Model, partial: seq<bv8>, data: bv8, more: seq<bv8>)
    ensures var (now, kept) := Take(m, partial, data);
            Scan(m, partial, [data] + more) == (now + Scan(m, kept, more).0, Scan(m, kept, more).1)
  {
    assert ([data] + more)[1..] == more;
  }

  // From a packet boundary, the bytes of a packet are dispatched as that packet if
  // and only if it is well formed.
  lemma AlignedPacket(m: Model, p: seq<bv8>)
    requires |p| == m.PacketSize()
    ensures Scan(m, [], p) == ([Packet(p)], []) <==> WellFormed(m, p)
  {
    if WellFormed(m, p) {
      WholePacket(m, p, 0);
      assert p[..0] == [] && p[0..] == p;
    } else {
      ScanPartitions(m, [], p);
      assert Packet(p) in [Packet(p)];
    }
  }

  lemma {:induction false} WholePacket(m: Model, p: seq<bv8>, n: nat)
    requires WellFormed(m, p) && n < |p|
    ensures Scan(m, p[..n], p[n..]) == ([Packet(p)], [])
    decreases |p| - n
  {
    assert p[n..] == [p[n]] + p[n + 1..] && p[..n] + [p[n]] == p[..n + 1];
    assert !Rejects(m, p[..n], p[n]);
    ScanOne(m, p[..n], p[n], p[n + 1..]);
    if n + 1 < |p| {
      WholePacket(m, p, n + 1);
      assert Take(m, p[..n], p[n]) == ([], p[..n + 1]);
      assert [] + [Packet(p)] == [Packet(p)];
    } else {
      assert p[..n + 1] == p && p[n + 1..] == [];
      assert [Packet(p)] + [] == [Packet(p)];
    }
  }
}
