/** The touchpad in command mode, byte by byte, and the driver that talks to it. */
module CommandMode {
  import opened Wrappers
  import opened CArith
  import opened Registers

  /** Between operations; collecting an address; or holding a value's high nibble. */
  datatype Mode = Ready | Addressing(digits: seq<Nibble>) | Writing(high: Nibble)

  /** What a query answers: the two bytes of the address being read, and the value. */
  datatype Reply = Reply(addrHigh: nat, addrLow: nat, value: bv8)

  /** The touchpad: its registers, the address register, and what it has half heard. */
  datatype Device = Device(registers: map<Address, bv8>, addr: Address, mode: Mode,
                           argument: Option<bv8>, reply: Reply)

  function Register(d: Device, a: Address): bv8 {
    if a in d.registers then d.registers[a] else 0
  }

  predicate Attentive(d: Device) {
    d.mode == Ready && d.argument == None
  }

  /** A whole nibble has arrived. */
  function Accept(d: Device, n: Nibble): Device {
    match d.mode
    case Ready => d.(mode := Writing(n))
    case Writing(h) => d.(registers := d.registers[d.addr := Join(h, n)], mode := Ready)
    case Addressing(ds) =>
      if |ds| == 3 then d.(addr := Value(ds + [n]), mode := Ready) else d.(mode := Addressing(ds + [n]))
  }

  /** The address being read and the register's value. */
  function Report(d: Device): Reply {
    Reply(d.addr / 0x100, d.addr % 0x100, Register(d, d.addr))
  }

  /** A byte heard as a command. */
  function Obey(t: Table, d: Device, b: bv8): Device {
    if b == AddressCommand(t) then d.(mode := Addressing([]))
    else if b == GET_INFORMATION then d.(mode := Ready, reply := Report(d))
    else if b == STREAM_MODE then d.(mode := Ready)
    else if TakesArgument(b) then d.(argument := Some(b))
    else match PlainNibble(t, b) case None => d case Some(n) => Accept(d, n)
  }

  /** One byte heard: the argument a command waits for, or else a command, which ends
      that wait. */
  function Hear(t: Table, d: Device, b: bv8): Device {
    var d' := d.(argument := None);
    if d.argument.Some? && ArgumentNibble(d.argument.value, b).Some?
    then Accept(d', ArgumentNibble(d.argument.value, b).value)
    else Obey(t, d', b)
  }

  function HearAll(t: Table, d: Device, wire: seq<bv8>): Device
    decreases |wire|
  {
    if wire == [] then d else HearAll(t, Hear(t, d, wire[0]), wire[1..])
  }

  /** What an operation means. */
  function Effect(d: Device, op: Op): Device {
    match op
    case SetAddress(a) => d.(addr := a)
    case ReadRegister => d.(reply := Report(d))
    case WriteRegister(v) => d.(registers := d.registers[d.addr := v])
    case Exit => d
  }

  function Effects(d: Device, ops: seq<Op>): Device
    decreases |ops|
  {
    if ops == [] then d else Effects(Effect(d, ops[0]), ops[1..])
  }

  lemma {:induction false} HearConcat(t: Table, d: Device, a: seq<bv8>, b: seq<bv8>)
    ensures HearAll(t, d, a + b) == HearAll(t, HearAll(t, d, a), b)
    decreases |a|
  {
    if a == [] {
      assert a + b == b;
    } else {
      assert (a + b)[1..] == a[1..] + b;
      HearConcat(t, Hear(t, d, a[0]), a[1..], b);
    }
  }

  lemma HearNibble(t: Table, d: Device, n: Nibble)
    ensures HearAll(t, d, NibbleWire(t, n)) == Accept(d.(argument := None), n)
  {
    NibbleStart(t, n);
    var wire := NibbleWire(t, n);
    NibbleCode(t, n, []);
    assert wire + [] == wire;
    HearCommand(t, d, wire[0]);
    if |wire| == 2 {
      var d' := d.(argument := None);
      assert HearAll(t, d, wire) == HearAll(t, Hear(t, Hear(t, d, wire[0]), wire[1]), wire[1..][1..]);
      assert d'.(argument := Some(wire[0])).(argument := None) == d';
    }
  }

  // Arguments and commands are different bytes.
  lemma HearCommand(t: Table, d: Device, b: bv8)
    requires b >= 0xE6
    ensures Hear(t, d, b) == Obey(t, d.(argument := None), b)
  {
  }

  lemma HearOp(t: Table, d: Device, op: Op)
    requires Attentive(d)
    ensures HearAll(t, d, Wire(t, op)) == Effect(d, op) && Attentive(Effect(d, op))
  {
    match op
    case SetAddress(a) =>
      var d0, ns := Hear(t, d, AddressCommand(t)), Digits(a);
      assert HearAll(t, d, Wire(t, op)) == HearAll(t, d0, NibblesWire(t, ns)) by {
        assert Wire(t, op)[1..] == NibblesWire(t, ns);
      }
      HearDigits(t, d, ns, 0);
      assert ns[..0] == [] && ns[0..] == ns;
      DigitsValue(a);
    case WriteRegister(v) =>
      HearValue(t, d, High(v), Low(v));
      JoinParts(v);
    case _ =>
      assert Wire(t, op)[1..] == [];
  }

  /** The touchpad when k digits of an address have arrived. */
  function Dialled(d: Device, ds: seq<Nibble>, k: nat): Device
    requires |ds| == 4 && k <= 4
  {
    if k < 4 then d.(mode := Addressing(ds[..k])) else d.(addr := Value(ds), mode := Ready)
  }

  lemma DialNext(d: Device, ds: seq<Nibble>, k: nat)
    requires |ds| == 4 && k < 4
    ensures Accept(Dialled(d, ds, k), ds[k]) == Dialled(d, ds, k + 1)
  {
    assert ds[..k] + [ds[k]] == ds[..k + 1];
    assert ds[..4] == ds;
  }

  lemma {:induction false} HearDigits(t: Table, d: Device, ds: seq<Nibble>, k: nat)
    requires |ds| == 4 && k <= 4 && d.argument == None
    ensures HearAll(t, Dialled(d, ds, k), NibblesWire(t, ds[k..])) == Dialled(d, ds, 4)
    decreases 4 - k
  {
    if k < 4 {
      DialNext(d, ds, k);
      HearNibblesCons(t, Dialled(d, ds, k), ds[k], ds[k + 1..]);
      HearDigits(t, d, ds, k + 1);
      assert ds[k..] == [ds[k]] + ds[k + 1..];
    }
  }

  lemma HearNibblesCons(t: Table, d: Device, n: Nibble, ns: seq<Nibble>)
    requires d.argument == None
    ensures HearAll(t, d, NibblesWire(t, [n] + ns)) == HearAll(t, Accept(d, n), NibblesWire(t, ns))
  {
    HearNibble(t, d, n);
    HearConcat(t, d, NibbleWire(t, n), NibblesWire(t, ns));
    assert ([n] + ns)[1..] == ns;
  }

  lemma HearValue(t: Table, d: Device, h: Nibble, l: Nibble)
    requires Attentive(d)
    ensures HearAll(t, d, NibblesWire(t, [h, l])) == d.(registers := d.registers[d.addr := Join(h, l)])
  {
    HearNibblesCons(t, d, h, [l]);
    HearNibblesCons(t, d.(mode := Writing(h)), l, []);
    assert [h] + [l] == [h, l] && [l] + [] == [l];
  }

  // The touchpad, hearing bytes, does what the operations mean.
  lemma {:induction false} DeviceFollows(t: Table, d: Device, ops: seq<Op>)
    requires Attentive(d)
    ensures HearAll(t, d, WireAll(t, ops)) == Effects(d, ops) && Attentive(Effects(d, ops))
    decreases |ops|
  {
    if ops != [] {
      HearOp(t, d, ops[0]);
      HearConcat(t, d, Wire(t, ops[0]), WireAll(t, ops[1..]));
      DeviceFollows(t, Effect(d, ops[0]), ops[1..]);
    }
  }

  // ---- The driver

  /** The low sixteen bits, all that four nibbles can carry. */
  function Low16(addr: int): Address {
    addr % 0x10000
  }

  function Digit(addr: int, shift: nat): Nibble {
    addr / (if shift == 12 then 0x1000 else if shift == 8 then 0x100 else if shift == 4 then 0x10 else 1) % 16
  }

  lemma DivideSum(m: int, r: int, d: int)
    requires 0 < d
    ensures (m * d + r) / d == m + r / d
  {
    var x := m * d + r;
    var excess := x / d - (m + r / d);
    assert x == d * (x / d) + x % d && r == d * (r / d) + r % d;
    assert d * excess == d * (x / d) - d * m - d * (r / d);
    assert d * excess == r % d - x % d;
    MultipleApart(d, excess);
  }

  // Bits above a digit do not change it.
  lemma DropMultiple(x: int, r: int, d: int)
    requires 0 < d
    ensures (16 * x * d + r) / d % 16 == r / d % 16
  {
    DivideSum(16 * x, r, d);
    assert (16 * x + r / d) % 16 == r / d % 16;
  }

  // Four nibbles carry the low sixteen bits.
  lemma DigitsOf(addr: int)
    ensures Digits(Low16(addr)) == [Digit(addr, 12), Digit(addr, 8), Digit(addr, 4), Digit(addr, 0)]
  {
    var q, r := addr / 0x10000, addr % 0x10000;
    assert addr == q * 0x10000 + r;
    DropMultiple(q, r, 0x1000);
    DropMultiple(q * 0x10, r, 0x100);
    DropMultiple(q * 0x100, r, 0x10);
    DropMultiple(q * 0x1000, r, 1);
    FourDigits(q, r);
  }

  lemma FourDigits(q: int, r: int)
    ensures 16 * q * 0x1000 + r == q * 0x10000 + r
    ensures 16 * (q * 0x10) * 0x100 + r == q * 0x10000 + r
    ensures 16 * (q * 0x100) * 0x10 + r == q * 0x10000 + r
    ensures 16 * (q * 0x1000) * 1 + r == q * 0x10000 + r
  {
  }

  class Driver {
    const table: Table
    var device: Device
    /** Whether each command byte still to be sent is acknowledged; all are once the
        script is used up. */
    var acks: seq<bool>

    constructor (table: Table, device: Device, acks: seq<bool>)
      ensures this.table == table && this.device == device && this.acks == acks
    {
      this.table, this.device, this.acks := table, device, acks;
    }

    /** A mouse command with its acknowledge; unacknowledged, it was not heard. */
    method Send(b: bv8) returns (ok: bool)
      modifies this`device, this`acks
      ensures device == if ok then Hear(table, old(device), b) else old(device)
      ensures old(acks) == [] ==> ok && acks == []
    {
      ok := acks == [] || acks[0];
      if acks != [] {
        acks := acks[1..];
      }
      if ok {
        device := Hear(table, device, b);
      }
    }

    /** A nibble, whatever the touchpad was waiting for. */
    method SendNibble(nibble: Nibble) returns (ok: bool)
      modifies this`device, this`acks
      ensures ok ==> device == Accept(old(device).(argument := None), nibble)
      ensures !ok ==> device.registers == old(device.registers)
      ensures old(acks) == [] ==> ok && acks == []
    {
      HearNibble(table, device, nibble);
      NibbleStart(table, nibble);
      HearCommand(table, device, NibbleWire(table, nibble)[0]);
      var request := NibbleWire(table, nibble);
      ok := Send(request[0]);
      if ok && |request| == 2 {
        assert request[1..][1..] == [];
        ok := Send(request[1]);
      }
    }

    /** Sets the address, whatever an earlier failure left half done. */
    method SetAddress(addr: int) returns (ok: bool)
      modifies this`device, this`acks
      ensures ok ==> device == old(device).(addr := Low16(addr), mode := Ready, argument := None)
      ensures !ok ==> device.registers == old(device.registers)
      ensures old(acks) == [] ==> ok && acks == []
    {
      ghost var was := device.(argument := None);
      ghost var ds := Digits(Low16(addr));
      HearCommand(table, device, AddressCommand(table));
      ok := Send(AddressCommand(table));
      if !ok {
        return false;
      }
      DigitsOf(addr);
      DigitsValue(Low16(addr));
      assert ds[..0] == [];
      var i := 12;
      while i >= 0
        invariant -4 <= i <= 12 && i % 4 == 0
        invariant device == Dialled(was, ds, (12 - i) / 4)
        invariant old(acks) == [] ==> acks == []
      {
        DialNext(was, ds, (12 - i) / 4);
        ok := SendNibble(Digit(addr, i));
        if !ok {
          return false;
        }
        i := i - 4;
      }
      return true;
    }

    /** Asks for the register addressed: the address reported back, and the value. */
    method Query() returns (ok: bool, addr: int, value: bv8)
      modifies this`device, this`acks
      ensures device.registers == old(device.registers)
      ensures ok ==> addr == old(device.addr) as int && value == Register(old(device), old(device.addr))
                     && device.addr == old(device.addr) && Attentive(device)
      ensures old(acks) == [] ==> ok && acks == []
    {
      addr, value := 0, 0;
      HearCommand(table, device, GET_INFORMATION);
      ok := Send(GET_INFORMATION);
      if ok {
        var reply := device.reply;
        addr, value := reply.addrHigh * 0x100 + reply.addrLow, reply.value;
      }
    }

    /** The register's value; None stands for the -1 of a command that failed or an
        address reported back that is not the one asked for. */
    method ReadRegister(addr: int) returns (value: Option<bv8>)
      modifies this`device, this`acks
      ensures device.registers == old(device.registers)
      ensures value.Some? ==> 0 <= addr < 0x10000 && value.value == Register(old(device), addr)
                              && device.addr == addr && Attentive(device)
      ensures old(acks) == [] ==> (value.Some? <==> 0 <= addr < 0x10000) && acks == []
    {
      var ok := SetAddress(addr);
      if !ok {
        return None;
      }
      var reported, byte;
      ok, reported, byte := Query();
      if !ok || addr != reported {
        return None;
      }
      return Some(byte);
    }

    /** Writes the register whose address was set last. */
    method WriteValue(value: bv8) returns (ok: bool)
      requires Attentive(device)
      modifies this`device, this`acks
      ensures ok ==> device == Effect(old(device), Op.WriteRegister(value)) && Attentive(device)
      ensures !ok ==> device.registers == old(device.registers)
      ensures old(acks) == [] ==> ok && acks == []
    {
      JoinParts(value);
      ok := SendNibble(High(value));
      if ok {
        ok := SendNibble(Low(value));
      }
    }

    /** Writes one register and no other. */
    method WriteRegister(addr: int, value: bv8) returns (ok: bool)
      modifies this`device, this`acks
      ensures ok ==> device.registers == old(device.registers)[Low16(addr) := value] && Attentive(device)
      ensures !ok ==> device.registers == old(device.registers)
      ensures old(acks) == [] ==> ok && acks == []
    {
      ok := SetAddress(addr);
      if ok {
        ok := WriteValue(value);
      }
    }

    /** Read-modify-write of register 4: what is written goes to the register read. */
    method AbsoluteModeV3() returns (ok: bool)
      modifies this`device, this`acks
      ensures ok ==> device.registers == old(device.registers)[4 := Register(old(device), 4) | 0x06]
      ensures !ok ==> device.registers == old(device.registers)
      ensures old(acks) == [] ==> ok
    {
      var value := ReadRegister(4);
      if value == None {
        return false;
      }
      ok := WriteValue(value.value | 0x06);
    }
  }
}
