/** The controller as it runs: the request loop and the two port reads, updating
    the controller's fields and the request's commands in place. */
module Controller {
  import opened Wrappers
  import opened Port8042

  /** The commands done and the run of the rest make up the goal. */
  ghost predicate Progress(config: Config, goal: Run, done: seq<Command>, rest: seq<Command>, e: Engine,
                           port: seq<Poll>, events: seq<Event>)
  {
    var r := ExecuteAll(config, rest, e, port);
    goal == Run(done + r.commands, r.engine, r.rest, events + r.events, |done| + r.completed, r.failed)
  }

  lemma ProgressStep(config: Config, goal: Run, done: seq<Command>, c: Command, rest: seq<Command>, e: Engine,
                     port: seq<Poll>, events: seq<Event>, s: Step)
    requires Progress(config, goal, done, [c] + rest, e, port, events)
    requires s == Execute(config, c, e, port)
    ensures s.failed ==>
      goal == Run(done + [s.command] + rest, s.engine, s.rest, events + s.events, |done|, true)
    ensures !s.failed ==>
      Progress(config, goal, done + [s.command], rest, s.engine, s.rest, events + s.events)
  {
    assert ([c] + rest)[1..] == rest;
    var r := ExecuteAll(config, rest, s.engine, s.rest);
    Regroup(done, [s.command], rest);
    Regroup(done, [s.command], r.commands);
    Regroup(events, s.events, r.events);
  }

  // The progress made by one command, told of the command list before and after it.
  lemma Advance(config: Config, goal: Run, was: seq<Command>, now: seq<Command>, index: nat, n: nat, e: Engine,
                port: seq<Poll>, events: seq<Event>, s: Step)
    requires index < n <= |was| && now == was[index := s.command]
    requires Progress(config, goal, was[..index], was[index..n], e, port, events)
    requires s == Execute(config, was[index], e, port)
    ensures now[n..] == was[n..]
    ensures s.failed ==> goal == Run(now[..n], s.engine, s.rest, events + s.events, index, true)
    ensures !s.failed ==>
      Progress(config, goal, now[..index + 1], now[index + 1..n], s.engine, s.rest, events + s.events)
  {
    var done, rest := was[..index], was[index + 1..n];
    assert was[index..n] == [was[index]] + rest;
    assert now[..n] == done + [s.command] + rest;
    assert now[..index + 1] == done + [s.command] && now[index + 1..n] == rest;
    ProgressStep(config, goal, done, was[index], rest, e, port, events, s);
  }

  class Request {
    var commands: array<Command>
    var commandsCount: nat

    ghost predicate Valid()
      reads this
    {
      commandsCount <= commands.Length
    }

    constructor (commands: array<Command>)
      ensures this.commands == commands && commandsCount == commands.Length && Valid()
    {
      this.commands, commandsCount := commands, commands.Length;
    }
  }

  class Controller {
    /** The environment: the polls still to come. */
    var port: seq<Poll>
    /** Everything done at the port or handed to a driver so far. */
    ghost var log: seq<Event>

    var suppressTimeout: bool
    var ignoreOutOfOrder: bool
    var ignoreInterrupts: int
    var hardwareOffline: bool

    ghost function Settings(): Config
      reads this
    {
      Config(suppressTimeout, ignoreOutOfOrder)
    }

    constructor (port: seq<Poll>)
      ensures this.port == port && log == [] && ignoreInterrupts == 0 && !hardwareOffline
      ensures Settings() == Config(false, false)
    {
      this.port, log := port, [];
      suppressTimeout, ignoreOutOfOrder, ignoreInterrupts, hardwareOffline := false, false, 0, false;
    }

    method WriteCommandPort(value: bv8)
      modifies this`log
      ensures log == old(log) + [CommandOut(value)]
    {
      log := log + [CommandOut(value)];
    }

    method WriteDataPort(value: bv8)
      modifies this`log
      ensures log == old(log) + [DataOut(value)]
    {
      log := log + [DataOut(value)];
    }

    method DispatchDriverInterrupt(dev: Device, data: bv8)
      modifies this`log
      ensures log == old(log) + [Dispatched(dev, data)]
    {
      log := log + [Dispatched(dev, data)];
    }

    method ReadDataPort(dev: Device) returns (data: bv8)
      modifies this`port, this`log
      ensures var r := Read(Settings(), dev, old(port), TIMEOUT_COUNTER);
              data == r.data && port == r.rest && log == old(log) + r.events
    {
      var timeoutCounter: nat := TIMEOUT_COUNTER;
      ghost var goal := Read(Settings(), dev, port, timeoutCounter);
      while timeoutCounter != 0 && port != []
        invariant var r := Read(Settings(), dev, port, timeoutCounter);
                  goal.data == r.data && goal.rest == r.rest && old(log) + goal.events == log + r.events
        decreases |port|
      {
        match port[0]
        case NotReady =>
          port, timeoutCounter := port[1..], timeoutCounter - 1;
        case Ready(d, b) =>
          port := port[1..];
          if suppressTimeout || d == dev {
            log := log + [Answered(d, b)];
            return b;
          }
          DispatchDriverInterrupt(d, b);
      }
      log := log + [TimedOut];
      return 0;
    }

    method Divert(dev: Device, data: bv8)
      modifies this`log
      ensures log == old(log) + [Port8042.Divert(Settings(), dev, data)]
    {
      if ignoreOutOfOrder {
        log := log + [Lost(dev, data)];
      } else {
        DispatchDriverInterrupt(dev, data);
      }
    }

    method ReadDataPortExpecting(dev: Device, expected: bv8) returns (data: bv8)
      modifies this`port, this`log
      ensures var r := ReadExpecting(Settings(), dev, expected, None, old(port), TIMEOUT_COUNTER);
              data == r.data && port == r.rest && log == old(log) + r.events
    {
      var firstByte: bv8, firstByteHeld := 0, false;
      var timeoutCounter: nat := TIMEOUT_COUNTER;
      ghost var goal := ReadExpecting(Settings(), dev, expected, None, port, timeoutCounter);
      while timeoutCounter != 0 && port != []
        invariant var r := ReadExpecting(Settings(), dev, expected, if firstByteHeld then Some(firstByte) else None,
                                         port, timeoutCounter);
                  goal.data == r.data && goal.rest == r.rest && old(log) + goal.events == log + r.events
        decreases |port|
      {
        match port[0]
        case NotReady =>
          port, timeoutCounter := port[1..], timeoutCounter - 1;
        case Ready(d, b) =>
          port := port[1..];
          if d != dev {
            Divert(d, b);
          } else if b == expected {
            if firstByteHeld {
              Divert(dev, firstByte);
            }
            log := log + [Answered(dev, b)];
            return b;
          } else if !firstByteHeld {
            firstByteHeld, firstByte := true, b;
          } else {
            Divert(dev, b);
            log := log + [Answered(dev, firstByte)];
            return firstByte;
          }
      }
      if firstByteHeld {
        log := log + [Answered(dev, firstByte)];
        return firstByte;
      }
      log := log + [TimedOut];
      return 0;
    }

    method FlushDataPort() returns (count: nat)
      modifies this`port, this`log
      ensures var r := Flush(old(port));
              count == r.0 % TWO_TO_THE_32 && port == r.1 && log == old(log) + r.2
    {
      ghost var goal := Flush(port);
      ghost var n: nat := 0;
      count := 0;
      while port != [] && port[0].Ready?
        invariant var r := Flush(port);
                  goal.0 == n + r.0 && goal.1 == r.1 && old(log) + goal.2 == log + r.2
        invariant count == n % TWO_TO_THE_32
        decreases |port|
      {
        log := log + [Flushed(port[0].dev, port[0].data)];
        port := port[1..];
        count, n := (count + 1) % TWO_TO_THE_32, n + 1;
      }
      if port != [] {
        port := port[1..];
      }
    }

    /** Sets and clears bits of the command byte, whatever was in it. */
    method ModifyCommandByte(setBits: bv8, clearBits: bv8) returns (oldBits: bv8)
      modifies this`port, this`log
      ensures var r := Read(Settings(), Keyboard, old(port), TIMEOUT_COUNTER);
              && oldBits == r.data && port == r.rest
              && log == old(log) + ([CommandOut(GET_COMMAND_BYTE)] + r.events +
                                    [CommandOut(SET_COMMAND_BYTE), DataOut((oldBits | setBits) & !clearBits)])
    {
      WriteCommandPort(GET_COMMAND_BYTE);
      oldBits := ReadDataPort(Keyboard);
      WriteCommandPort(SET_COMMAND_BYTE);
      WriteDataPort((oldBits | setBits) & !clearBits);
    }

    /** One command of the request's switch. */
    method ProcessCommand(c: Command, e: Engine) returns (c': Command, e': Engine, failed: bool)
      modifies this`port, this`log
      ensures var s := Execute(Settings(), c, e, old(port));
              c' == s.command && e' == s.engine && failed == s.failed && port == s.rest && log == old(log) + s.events
    {
      c', e', failed := c, e, false;
      match c.op {
        case ReadDataPort =>
          var byte := ReadDataPort(e.mode);
          c' := c.(inOrOut := byte);
        case ReadDataPortAndCompare =>
          var byte := ReadDataPortExpecting(e.mode, c.inOrOut);
          failed, c' := byte != c.inOrOut, c.(inOrOut := byte);
        case WriteDataPort =>
          WriteDataPort(c.inOrOut);
          e' := Engine(if e.transmitToMouse then Mouse else Keyboard, false);
        case WriteCommandPort =>
          WriteCommandPort(c.inOrOut);
          if c.inOrOut == TRANSMIT_TO_MOUSE {
            e' := e.(transmitToMouse := true);
          }
        case SendMouseCommandAndCompareAck =>
          WriteCommandPort(TRANSMIT_TO_MOUSE);
          WriteDataPort(c.inOrOut);
          var byte := ReadDataPortExpecting(Mouse, ACKNOWLEDGE);
          failed, e' := byte != ACKNOWLEDGE, e.(mode := Mouse);
        case ReadMouseDataPort =>
          var byte := ReadDataPort(Mouse);
          c', e' := c.(inOrOut := byte), e.(mode := Mouse);
        case ReadMouseDataPortAndCompare =>
          var byte := ReadDataPortExpecting(Mouse, c.inOrOut);
          failed, e' := byte != c.inOrOut, e.(mode := Mouse);
        case FlushDataPort =>
          var count := FlushDataPort();
          c' := c.(inOrOut32 := count);
        case SleepMS =>
        case ModifyCommandByte =>
          var commandByte := ModifyCommandByte(c.setBits, c.clearBits);
          c' := c.(oldBits := commandByte);
      }
    }

    /** One turn of the request loop, on the command at index. */
    method ProcessNext(a: array<Command>, index: nat, n: nat, e: Engine)
        returns (e': Engine, failed: bool, ghost s: Step)
      requires index < n <= a.Length
      modifies this`port, this`log, a
      ensures s == Execute(Settings(), old(a[index]), e, old(port))
      ensures e' == s.engine && failed == s.failed && port == s.rest && log == old(log) + s.events
      ensures a[..] == old(a[..])[index := s.command]
    {
      s := Execute(Settings(), a[index], e, port);
      a[index], e', failed := ProcessCommand(a[index], e);
    }

    /** The request loop: stops at the first command that fails. */
    method ProcessCommands(a: array<Command>, n: nat) returns (index: nat, failed: bool)
      requires n <= a.Length
      modifies this`port, this`log, a
      ensures var r := ExecuteAll(Settings(), old(a[..n]), START, old(port));
              && index == r.completed && failed == r.failed && port == r.rest && log == old(log) + r.events
              && a[..n] == r.commands && a[n..] == old(a[n..])
    {
      var e := START;
      index, failed := 0, false;
      ghost var goal, events := ExecuteAll(Settings(), a[..n], e, port), [];
      while index < n && !failed
        invariant index <= n && a[n..] == old(a[n..]) && log == old(log) + events
        invariant !failed ==> Progress(Settings(), goal, a[..index], a[index..n], e, port, events)
        invariant failed ==> goal == Run(a[..n], e, port, events, index, true)
        decreases n - index, !failed
      {
        ghost var was, e0, port0, before, events0 := a[..], e, port, log, events;
        ghost var s;
        e, failed, s := ProcessNext(a, index, n, e);
        events := events + s.events;
        assert before + s.events == old(log) + events;
        Advance(Settings(), goal, was, a[..], index, n, e0, port0, events0, s);
        if !failed {
          index := index + 1;
        }
      }
    }

    /** Offline, the request is refused untouched and nothing is done at the port.
        Otherwise its commands run in order up to the first that fails, whose index
        is left in commandsCount, with interrupts ignored meanwhile. */
    method ProcessRequest(request: Request)
      requires request.Valid()
      modifies this`port, this`log, this`ignoreInterrupts, request`commandsCount, request.commands
      ensures request.Valid() && ignoreInterrupts == old(ignoreInterrupts)
      ensures hardwareOffline ==>
        && request.commandsCount == 0 && port == old(port) && log == old(log)
        && request.commands[..] == old(request.commands[..])
      ensures !hardwareOffline ==>
        var n := old(request.commandsCount);
        var r := ExecuteAll(Settings(), old(request.commands[..n]), START, old(port));
        && request.commandsCount == r.completed && port == r.rest && log == old(log) + r.events
        && request.commands[..n] == r.commands && request.commands[n..] == old(request.commands[n..])
    {
      if hardwareOffline {
        request.commandsCount := 0;
        return;
      }
      ignoreInterrupts := ignoreInterrupts + 1;
      var index, failed := ProcessCommands(request.commands, request.commandsCount);
      ignoreInterrupts := ignoreInterrupts - 1;
      if failed {
        request.commandsCount := index;
      }
    }
  }
}
