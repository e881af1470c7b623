/** The 8042 controller's request engine.  Two devices share one data port; the
    engine interprets a small command language over it, polling for answers. */
module Port8042 {
  import opened Wrappers

  datatype Device = Keyboard | Mouse

  /** One poll of the status register, followed, when the output buffer is full,
      by the read of the byte found there.  The environment of a run is a finite
      script of polls; once it is used up the port stays not ready. */
  datatype Poll = NotReady | Ready(dev: Device, data: bv8)

  /** What a run does, in order: port writes, bytes handed to a driver's interrupt
      routine, and what became of every other byte read. */
  datatype Event =
    | CommandOut(value: bv8)
    | DataOut(value: bv8)
    | Dispatched(dev: Device, data: bv8)
    | Answered(dev: Device, data: bv8)
    | Flushed(dev: Device, data: bv8)
    | Lost(dev: Device, data: bv8)
    | TimedOut

  /** Start-up mode (any byte answers a plain read) and the switch that discards
      instead of dispatching during a read with an expected byte. */
  datatype Config = Config(suppressTimeout: bool, ignoreOutOfOrder: bool)

  datatype ReadResult = ReadResult(data: bv8, rest: seq<Poll>, events: seq<Event>)

  const TWO_TO_THE_32 := 0x1_0000_0000
  const TIMEOUT_COUNTER := 10000
  const ACKNOWLEDGE: bv8 := 0xFA
  const GET_COMMAND_BYTE: bv8 := 0x20
  const SET_COMMAND_BYTE: bv8 := 0x60
  const TRANSMIT_TO_MOUSE: bv8 := 0xD4

  // ---- Reading the data port

  function After(e: Event, r: ReadResult): ReadResult {
    r.(events := [e] + r.events)
  }

  /** A plain read: the first byte of dev's stream within the poll budget. */
  function Read(config: Config, dev: Device, port: seq<Poll>, budget: nat): (r: ReadResult)
    ensures |r.rest| <= |port|
  {
    if budget == 0 || port == [] then ReadResult(0, port, [TimedOut])
    else
      match port[0]
      case NotReady => Read(config, dev, port[1..], budget - 1)
      case Ready(d, b) =>
        if config.suppressTimeout || d == dev then ReadResult(b, port[1..], [Answered(d, b)])
        else After(Dispatched(d, b), Read(config, dev, port[1..], budget))
  }

  function Divert(config: Config, dev: Device, data: bv8): Event {
    if config.ignoreOutOfOrder then Lost(dev, data) else Dispatched(dev, data)
  }

  /** A byte of the requested stream that ends the read: it matches, or it is the
      second mismatch, in which case the byte held aside is the answer. */
  function Settle(config: Config, dev: Device, expected: bv8, held: Option<bv8>, b: bv8): (bv8, seq<Event>) {
    match held
    case None => (b, [Answered(dev, b)])
    case Some(first) =>
      if b == expected then (b, [Divert(config, dev, first), Answered(dev, b)])
      else (first, [Divert(config, dev, b), Answered(dev, first)])
  }

  /** A read that expects a value: a first byte that does not match is held aside
      while the device gets a second chance. */
  function ReadExpecting(config: Config, dev: Device, expected: bv8, held: Option<bv8>,
                         port: seq<Poll>, budget: nat): (r: ReadResult)
    ensures |r.rest| <= |port|
    decreases |port|
  {
    if budget == 0 || port == [] then
      match held
      case None => ReadResult(0, port, [TimedOut])
      case Some(first) => ReadResult(first, port, [Answered(dev, first)])
    else
      match port[0]
      case NotReady => ReadExpecting(config, dev, expected, held, port[1..], budget - 1)
      case Ready(d, b) =>
        if d != dev then
          After(Divert(config, d, b), ReadExpecting(config, dev, expected, held, port[1..], budget))
        else if held.None? && b != expected then
          ReadExpecting(config, dev, expected, Some(b), port[1..], budget)
        else
          var (data, events) := Settle(config, dev, expected, held, b);
          ReadResult(data, port[1..], events)
  }

  /** Flushing: every byte ready now, then the poll that finds none. */
  function Flush(port: seq<Poll>): (r: (nat, seq<Poll>, seq<Event>))
    ensures |r.1| <= |port|
  {
    if port == [] then (0, port, [])
    else
      match port[0]
      case NotReady => (0, port[1..], [])
      case Ready(d, b) =>
        var (count, rest, events) := Flush(port[1..]);
        (count + 1, rest, [Flushed(d, b)] + events)
  }

  // ---- The command language

  datatype Op =
    | ReadDataPort
    | ReadDataPortAndCompare
    | WriteDataPort
    | WriteCommandPort
    | SendMouseCommandAndCompareAck
    | ReadMouseDataPort
    | ReadMouseDataPortAndCompare
    | FlushDataPort
    | SleepMS
    | ModifyCommandByte

  datatype Command = Command(op: Op, inOrOut: bv8, inOrOut32: nat, setBits: bv8, clearBits: bv8, oldBits: bv8)

  /** Which stream the next read listens to, and whether the last command-port
      write routes the next data byte to the mouse. */
  datatype Engine = Engine(mode: Device, transmitToMouse: bool)

  const START := Engine(Keyboard, false)

  datatype Step = Step(command: Command, engine: Engine, rest: seq<Poll>, events: seq<Event>, failed: bool)

  function Execute(config: Config, c: Command, e: Engine, port: seq<Poll>): Step {
    match c.op
    case ReadDataPort =>
      var r := Read(config, e.mode, port, TIMEOUT_COUNTER);
      Step(c.(inOrOut := r.data), e, r.rest, r.events, false)
    case ReadDataPortAndCompare =>
      var r := ReadExpecting(config, e.mode, c.inOrOut, None, port, TIMEOUT_COUNTER);
      Step(c.(inOrOut := r.data), e, r.rest, r.events, r.data != c.inOrOut)
    case WriteDataPort =>
      Step(c, Engine(if e.transmitToMouse then Mouse else Keyboard, false), port, [DataOut(c.inOrOut)], false)
    case WriteCommandPort =>
      Step(c, Engine(e.mode, e.transmitToMouse || c.inOrOut == TRANSMIT_TO_MOUSE), port, [CommandOut(c.inOrOut)], false)
    case SendMouseCommandAndCompareAck =>
      var r := ReadExpecting(config, Mouse, ACKNOWLEDGE, None, port, TIMEOUT_COUNTER);
      Step(c, e.(mode := Mouse), r.rest, [CommandOut(TRANSMIT_TO_MOUSE), DataOut(c.inOrOut)] + r.events,
           r.data != ACKNOWLEDGE)
    case ReadMouseDataPort =>
      var r := Read(config, Mouse, port, TIMEOUT_COUNTER);
      Step(c.(inOrOut := r.data), e.(mode := Mouse), r.rest, r.events, false)
    case ReadMouseDataPortAndCompare =>
      var r := ReadExpecting(config, Mouse, c.inOrOut, None, port, TIMEOUT_COUNTER);
      Step(c, e.(mode := Mouse), r.rest, r.events, r.data != c.inOrOut)
    case FlushDataPort =>
      var (count, rest, events) := Flush(port);
      Step(c.(inOrOut32 := count % TWO_TO_THE_32), e, rest, events, false)
    case SleepMS =>
      Step(c, e, port, [], false)
    case ModifyCommandByte =>
      var r := Read(config, Keyboard, port, TIMEOUT_COUNTER);
      Step(c.(oldBits := r.data), e, r.rest,
           [CommandOut(GET_COMMAND_BYTE)] + r.events +
           [CommandOut(SET_COMMAND_BYTE), DataOut((r.data | c.setBits) & !c.clearBits)], false)
  }

  datatype Run = Run(commands: seq<Command>, engine: Engine, rest: seq<Poll>, events: seq<Event>,
                     completed: nat, failed: bool)

  /** A whole request: commands in order, stopping at the first that fails. */
  function ExecuteAll(config: Config, cs: seq<Command>, e: Engine, port: seq<Poll>): (r: Run)
    ensures |r.commands| == |cs| && r.completed <= |cs|
    ensures r.failed <==> r.completed < |cs|
  {
    if cs == [] then Run([], e, port, [], 0, false)
    else
      var s := Execute(config, cs[0], e, port);
      if s.failed then Run([s.command] + cs[1..], s.engine, s.rest, s.events, 0, true)
      else
        var r := ExecuteAll(config, cs[1..], s.engine, s.rest);
        Run([s.command] + r.commands, r.engine, r.rest, s.events + r.events, r.completed + 1, r.failed)
  }
}
