/** Register access in command mode.  The driver may not send arbitrary bytes, so a
    register address or value goes out nibble by nibble, each nibble as a harmless
    PS/2 command; the touchpad is the parser. */
module Registers {
  import opened Wrappers

  datatype Table = V3 | V4

  type Nibble = n: nat | n < 16

  type Address = a: nat | a < 0x10000

  const GET_INFORMATION: bv8 := 0xE9
  const STREAM_MODE: bv8 := 0xEA
  const SAMPLE_RATE: bv8 := 0xF3
  const RESOLUTION: bv8 := 0xE8

  function AddressCommand(t: Table): bv8 {
    if t == V3 then 0xEC else 0xF5
  }

  /** The rates that stand for nibbles 3 to 9. */
  function Rate(n: Nibble): bv8
    requires 3 <= n <= 9
  {
    match n case 3 => 0x0a case 4 => 0x14 case 5 => 0x28 case 6 => 0x3c case 7 => 0x50 case 8 => 0x64 case _ => 0xc8
  }

  /** The resolutions that stand for nibbles 11 to 14. */
  function Level(n: Nibble): bv8
    requires 11 <= n <= 14
  {
    match n case 11 => 0 case 12 => 1 case 13 => 2 case _ => 3
  }

  /** The command and, where there is one, the argument byte that send a nibble. */
  function NibbleWire(t: Table, n: Nibble): seq<bv8> {
    if n == 0 then [if t == V3 then 0xF0 else 0xF4]
    else if n == 1 then [0xF6]
    else if n == 2 then [0xE7]
    else if n <= 9 then [SAMPLE_RATE, Rate(n)]
    else if n == 10 then [0xF2]
    else if n <= 14 then [RESOLUTION, Level(n)]
    else [0xE6]
  }

  /** What a driver does in command mode. */
  datatype Op = SetAddress(addr: Address) | ReadRegister | WriteRegister(value: bv8) | Exit

  function High(v: bv8): Nibble {
    (v >> 4) as nat
  }

  function Low(v: bv8): (n: Nibble)
  {
    LowFits(v);
    (v & 0x0f) as nat
  }

  lemma LowFits(v: bv8)
    ensures (v & 0x0f) as nat < 16
  {
  }

  function Digits(a: Address): seq<Nibble> {
    [a / 0x1000, a / 0x100 % 16, a / 0x10 % 16, a % 16]
  }

  function NibblesWire(t: Table, ns: seq<Nibble>): seq<bv8> {
    if ns == [] then [] else NibbleWire(t, ns[0]) + NibblesWire(t, ns[1..])
  }

  function Wire(t: Table, op: Op): seq<bv8> {
    match op
    case SetAddress(a) => [AddressCommand(t)] + NibblesWire(t, Digits(a))
    case ReadRegister => [GET_INFORMATION]
    case WriteRegister(v) => NibblesWire(t, [High(v), Low(v)])
    case Exit => [STREAM_MODE]
  }

  function WireAll(t: Table, ops: seq<Op>): seq<bv8> {
    if ops == [] then [] else Wire(t, ops[0]) + WireAll(t, ops[1..])
  }

  // ---- The parser, and the round trip

  function PlainNibble(t: Table, b: bv8): Option<Nibble> {
    if b == (if t == V3 then 0xF0 else 0xF4) then Some(0)
    else if b == 0xF6 then Some(1)
    else if b == 0xE7 then Some(2)
    else if b == 0xF2 then Some(10)
    else if b == 0xE6 then Some(15)
    else None
  }

  /** Commands that take an argument byte, and the nibble the two make. */
  predicate TakesArgument(b: bv8) {
    b == SAMPLE_RATE || b == RESOLUTION
  }

  function ArgumentNibble(command: bv8, argument: bv8): Option<Nibble> {
    if command == SAMPLE_RATE then
      if argument == 0x0a then Some(3) else if argument == 0x14 then Some(4) else if argument == 0x28 then Some(5)
      else if argument == 0x3c then Some(6) else if argument == 0x50 then Some(7) else if argument == 0x64 then Some(8)
      else if argument == 0xc8 then Some(9) else None
    else
      if argument == 0 then Some(11) else if argument == 1 then Some(12) else if argument == 2 then Some(13)
      else if argument == 3 then Some(14) else None
  }

  function ReadNibble(t: Table, wire: seq<bv8>): Option<(Nibble, seq<bv8>)> {
    if wire == [] then None
    else if TakesArgument(wire[0]) then
      if |wire| == 1 then None
      else match ArgumentNibble(wire[0], wire[1]) case None => None case Some(n) => Some((n, wire[2..]))
    else match PlainNibble(t, wire[0]) case None => None case Some(n) => Some((n, wire[1..]))
  }

  function ReadNibbles(t: Table, count: nat, wire: seq<bv8>): Option<(seq<Nibble>, seq<bv8>)> {
    if count == 0 then Some(([], wire))
    else
      match ReadNibble(t, wire)
      case None => None
      case Some((n, rest)) =>
        match ReadNibbles(t, count - 1, rest)
        case None => None
        case Some((ns, rest')) => Some(([n] + ns, rest'))
  }

  function Value(ds: seq<Nibble>): Address
    requires |ds| == 4
  {
    ds[0] as int * 0x1000 + ds[1] as int * 0x100 + ds[2] as int * 0x10 + ds[3] as int
  }

  function Join(high: Nibble, low: Nibble): bv8 {
    (high as bv8 << 4) | low as bv8
  }

  function ParseOp(t: Table, wire: seq<bv8>): Option<(Op, seq<bv8>)> {
    if wire == [] then None
    else if wire[0] == AddressCommand(t) then
      match ReadNibbles(t, 4, wire[1..])
      case None => None
      case Some((ds, rest)) => if |ds| == 4 then Some((SetAddress(Value(ds)), rest)) else None
    else if wire[0] == GET_INFORMATION then Some((ReadRegister, wire[1..]))
    else if wire[0] == STREAM_MODE then Some((Exit, wire[1..]))
    else
      match ReadNibbles(t, 2, wire)
      case None => None
      case Some((ds, rest)) => if |ds| == 2 then Some((WriteRegister(Join(ds[0], ds[1])), rest)) else None
  }

  lemma JoinParts(v: bv8)
    ensures Join(High(v), Low(v)) == v
  {
  }

  lemma PartsJoin(h: Nibble, l: Nibble)
    ensures High(Join(h, l)) == h && Low(Join(h, l)) == l
  {
  }

  lemma DigitsValue(a: Address)
    ensures Value(Digits(a)) == a
  {
  }

  lemma ValueDigits(ds: seq<Nibble>)
    requires |ds| == 4
    ensures Digits(Value(ds)) == ds
  {
    var a, b, c, d := ds[0] as int, ds[1] as int, ds[2] as int, ds[3] as int;
    var v := Value(ds) as int;
    assert v / 0x1000 == a && v % 0x1000 == b * 0x100 + c * 0x10 + d;
    assert v / 0x100 == a * 16 + b;
    assert v / 0x10 == a * 0x100 + b * 16 + c;
    assert ds == [ds[0], ds[1], ds[2], ds[3]];
  }

  // The nibble code is prefix-free and decodable: reading a nibble succeeds exactly
  // on wires that start with that nibble's code.
  lemma NibbleCode(t: Table, n: Nibble, rest: seq<bv8>)
    ensures ReadNibble(t, NibbleWire(t, n) + rest) == Some((n, rest))
  {
    var code := NibbleWire(t, n);
    assert (code + rest)[|code|..] == rest;
  }

  lemma NibbleCodeOnly(t: Table, wire: seq<bv8>)
    ensures ReadNibble(t, wire).Some? ==>
      var (n, rest) := ReadNibble(t, wire).value; wire == NibbleWire(t, n) + rest
  {
    if ReadNibble(t, wire).Some? {
      var n := ReadNibble(t, wire).value.0;
      assert |NibbleWire(t, n)| <= |wire| && wire[..|NibbleWire(t, n)|] == NibbleWire(t, n);
    }
  }

  lemma NibblesCodeStep(t: Table, n: Nibble, code: seq<bv8>, count: nat, ns: seq<Nibble>, wire: seq<bv8>,
                        rest: seq<bv8>)
    requires ReadNibble(t, code + wire) == Some((n, wire)) && ReadNibbles(t, count, wire) == Some((ns, rest))
    ensures ReadNibbles(t, count + 1, code + wire) == Some(([n] + ns, rest))
  {
  }

  lemma NibblesWireStep(t: Table, n: Nibble, ns: seq<Nibble>, rest: seq<bv8>)
    ensures NibblesWire(t, [n] + ns) + rest == NibbleWire(t, n) + (NibblesWire(t, ns) + rest)
  {
    Regroup(NibbleWire(t, n), NibblesWire(t, ns), rest);
    assert ([n] + ns)[1..] == ns;
  }

  lemma {:induction false} NibblesCode(t: Table, ns: seq<Nibble>, rest: seq<bv8>)
    ensures ReadNibbles(t, |ns|, NibblesWire(t, ns) + rest) == Some((ns, rest))
  {
    if ns == [] {
      assert NibblesWire(t, ns) + rest == rest;
    } else {
      var n, tail := ns[0], ns[1..];
      var wire := NibblesWire(t, tail) + rest;
      NibblesCode(t, tail, rest);
      NibbleCode(t, n, wire);
      NibblesCodeStep(t, n, NibbleWire(t, n), |tail|, tail, wire, rest);
      NibblesWireStep(t, n, tail, rest);
      assert ns == [n] + tail;
    }
  }

  lemma {:induction false} NibblesCodeOnly(t: Table, count: nat, wire: seq<bv8>)
    ensures ReadNibbles(t, count, wire).Some? ==>
      var (ns, rest) := ReadNibbles(t, count, wire).value; |ns| == count && wire == NibblesWire(t, ns) + rest
  {
    if count == 0 {
      assert wire == [] + wire;
    } else if ReadNibbles(t, count, wire).Some? {
      var (n, rest) := ReadNibble(t, wire).value;
      NibbleCodeOnly(t, wire);
      NibblesCodeOnly(t, count - 1, rest);
      var (ns, rest') := ReadNibbles(t, count - 1, rest).value;
      NibblesWireStep(t, n, ns, rest');
    }
  }

  lemma NibbleStart(t: Table, n: Nibble)
    ensures NibbleWire(t, n)[0] !in {AddressCommand(t), GET_INFORMATION, STREAM_MODE}
  {
  }

  lemma AddressCode(t: Table, a: Address, rest: seq<bv8>)
    ensures ParseOp(t, Wire(t, SetAddress(a)) + rest) == Some((SetAddress(a), rest))
  {
    NibblesCode(t, Digits(a), rest);
    DigitsValue(a);
    assert (Wire(t, SetAddress(a)) + rest)[1..] == NibblesWire(t, Digits(a)) + rest;
  }

  lemma WriteCode(t: Table, v: bv8, rest: seq<bv8>)
    ensures ParseOp(t, Wire(t, WriteRegister(v)) + rest) == Some((WriteRegister(v), rest))
  {
    var wire := NibblesWire(t, [High(v), Low(v)]);
    NibblesCode(t, [High(v), Low(v)], rest);
    NibbleStart(t, High(v));
    JoinParts(v);
    assert wire[0] == NibbleWire(t, High(v))[0] && (wire + rest)[0] == wire[0];
  }

  // One operation, whatever follows it, is read back as itself.
  lemma OpCode(t: Table, op: Op, rest: seq<bv8>)
    ensures ParseOp(t, Wire(t, op) + rest) == Some((op, rest))
  {
    match op
    case SetAddress(a) => AddressCode(t, a, rest);
    case WriteRegister(v) => WriteCode(t, v, rest);
    case _ => assert (Wire(t, op) + rest)[1..] == rest;
  }

  lemma AddressCodeOnly(t: Table, wire: seq<bv8>)
    requires wire != [] && wire[0] == AddressCommand(t) && ReadNibbles(t, 4, wire[1..]).Some?
    ensures var (ds, rest) := ReadNibbles(t, 4, wire[1..]).value;
            |ds| == 4 && wire == Wire(t, SetAddress(Value(ds))) + rest
  {
    NibblesCodeOnly(t, 4, wire[1..]);
    var (ds, rest) := ReadNibbles(t, 4, wire[1..]).value;
    ValueDigits(ds);
    Regroup([wire[0]], NibblesWire(t, ds), rest);
    assert wire == [wire[0]] + wire[1..];
  }

  lemma WriteCodeOnly(t: Table, wire: seq<bv8>)
    requires ReadNibbles(t, 2, wire).Some?
    ensures var (ds, rest) := ReadNibbles(t, 2, wire).value;
            |ds| == 2 && wire == Wire(t, WriteRegister(Join(ds[0], ds[1]))) + rest
  {
    NibblesCodeOnly(t, 2, wire);
    var ds := ReadNibbles(t, 2, wire).value.0;
    PartsJoin(ds[0], ds[1]);
    assert ds == [ds[0], ds[1]];
  }

  lemma OpCodeOnly(t: Table, wire: seq<bv8>)
    requires ParseOp(t, wire).Some?
    ensures var (op, rest) := ParseOp(t, wire).value; wire == Wire(t, op) + rest && |rest| < |wire|
  {
    var (op, rest) := ParseOp(t, wire).value;
    WireNotEmpty(t, op);
    if wire[0] == AddressCommand(t) {
      AddressCodeOnly(t, wire);
    } else if op.WriteRegister? {
      WriteCodeOnly(t, wire);
    } else {
      assert wire == [wire[0]] + wire[1..];
    }
  }

  function Parse(t: Table, wire: seq<bv8>): Option<seq<Op>>
    decreases |wire|
  {
    if wire == [] then Some([])
    else
      match ParseOp(t, wire)
      case None => None
      case Some((op, rest)) =>
        OpCodeOnly(t, wire);
        match Parse(t, rest)
        case None => None
        case Some(ops) => Some([op] + ops)
  }

  lemma {:induction false} ParsesBack(t: Table, ops: seq<Op>)
    ensures Parse(t, WireAll(t, ops)) == Some(ops)
  {
    if ops != [] {
      WireNotEmpty(t, ops[0]);
      OpCode(t, ops[0], WireAll(t, ops[1..]));
      ParsesBack(t, ops[1..]);
      assert ops == [ops[0]] + ops[1..];
    }
  }

  lemma {:induction false} ParsesOnly(t: Table, wire: seq<bv8>)
    requires Parse(t, wire).Some?
    ensures wire == WireAll(t, Parse(t, wire).value)
    decreases |wire|
  {
    if wire != [] {
      var (op, rest) := ParseOp(t, wire).value;
      OpCodeOnly(t, wire);
      ParsesOnly(t, rest);
      assert ([op] + Parse(t, rest).value)[1..] == Parse(t, rest).value;
    }
  }

  // The round trip: a wire parses to a list of operations if and only if it is what
  // the driver sends for exactly that list.
  lemma RoundTrip(t: Table, ops: seq<Op>, wire: seq<bv8>)
    ensures Parse(t, wire) == Some(ops) <==> wire == WireAll(t, ops)
  {
    ParsesBack(t, ops);
    if Parse(t, wire) == Some(ops) {
      ParsesOnly(t, wire);
    }
  }

  lemma WireNotEmpty(t: Table, op: Op)
    ensures Wire(t, op) != []
  {
    if op.WriteRegister? {
      assert Wire(t, op)[0] == NibbleWire(t, High(op.value))[0];
    }
  }
}
