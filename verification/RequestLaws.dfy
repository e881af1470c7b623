/** What a request writes to the port and which device it listens to, command by
    command, read off the request. */
module RequestLaws {
  import opened Wrappers
  import opened Port8042
  import opened OutOfOrderRead
  import opened Conservation

  // ---- Writes

  function Writes(events: seq<Event>): seq<Event> {
    if events == [] then []
    else (if events[0].CommandOut? || events[0].DataOut? then [events[0]] else []) + Writes(events[1..])
  }

  lemma {:induction false} WritesConcat(a: seq<Event>, b: seq<Event>)
    ensures Writes(a + b) == Writes(a) + Writes(b)
  {
    if a == [] {
      assert a + b == b;
    } else {
      assert (a + b)[1..] == a[1..] + b;
      WritesConcat(a[1..], b);
      Regroup(if a[0].CommandOut? || a[0].DataOut? then [a[0]] else [], Writes(a[1..]), Writes(b));
    }
  }

  function WriteCount(op: Op): nat {
    match op
    case WriteDataPort => 1
    case WriteCommandPort => 1
    case SendMouseCommandAndCompareAck => 2
    case ModifyCommandByte => 3
    case _ => 0
  }

  /** A byte with the bits to be cleared clear, the others to be set set, and all else
      as it was. */
  predicate ModifiedBits(was: bv8, setBits: bv8, clearBits: bv8, b: bv8) {
    b & clearBits == 0 && (setBits & !clearBits) & !b == 0 && (b ^ was) & !(setBits | clearBits) == 0
  }

  lemma Modifies(was: bv8, setBits: bv8, clearBits: bv8)
    ensures ModifiedBits(was, setBits, clearBits, (was | setBits) & !clearBits)
  {
  }

  /** What a command writes, its fields afterwards being done's. */
  predicate WrittenBy(c: Command, done: Command, writes: seq<Event>) {
    match c.op
    case WriteDataPort => writes == [DataOut(c.inOrOut)]
    case WriteCommandPort => writes == [CommandOut(c.inOrOut)]
    case SendMouseCommandAndCompareAck => writes == [CommandOut(0xD4), DataOut(c.inOrOut)]
    case ModifyCommandByte =>
      && |writes| == 3 && writes[0] == CommandOut(0x20) && writes[1] == CommandOut(0x60) && writes[2].DataOut?
      && ModifiedBits(done.oldBits, c.setBits, c.clearBits, writes[2].value)
    case _ => writes == []
  }

  // ---- The device listened to

  /** The command routes the next data byte to the mouse. */
  predicate RoutesByte(c: Command) {
    c.op == WriteCommandPort && c.inOrOut == 0xD4
  }

  predicate ForMouse(op: Op) {
    op.SendMouseCommandAndCompareAck? || op.ReadMouseDataPort? || op.ReadMouseDataPortAndCompare?
  }

  /** A route to the mouse is set before command k and no data byte has used it up. */
  predicate Routed(cs: seq<Command>, k: int)
    requires 0 <= k <= |cs|
  {
    exists i :: 0 <= i < k && RoutesByte(cs[i]) && forall j :: i < j < k ==> cs[j].op != WriteDataPort
  }

  /** Before command k the last command that chose a device chose the mouse: a mouse
      command, or a data byte with a route. */
  predicate MouseTurn(cs: seq<Command>, k: int)
    requires 0 <= k <= |cs|
  {
    exists i :: 0 <= i < k && (ForMouse(cs[i].op) || (cs[i].op == WriteDataPort && Routed(cs, i)))
                && forall j :: i < j < k ==> cs[j].op != WriteDataPort
  }

  /** The device whose answer command k takes. */
  function Turn(cs: seq<Command>, k: nat): Device
    requires k < |cs|
  {
    if ForMouse(cs[k].op) then Mouse
    else if cs[k].op == ModifyCommandByte then Keyboard
    else if MouseTurn(cs, k) then Mouse else Keyboard
  }

  lemma RoutedNext(cs: seq<Command>, k: nat)
    requires k < |cs|
    ensures Routed(cs, k + 1) <==> RoutesByte(cs[k]) || (Routed(cs, k) && cs[k].op != WriteDataPort)
  {
    if RoutesByte(cs[k]) {
      assert 0 <= k < k + 1 && RoutesByte(cs[k]);
    }
  }

  lemma MouseTurnNext(cs: seq<Command>, k: nat)
    requires k < |cs|
    ensures MouseTurn(cs, k + 1) <==>
      ForMouse(cs[k].op) || (if cs[k].op == WriteDataPort then Routed(cs, k) else MouseTurn(cs, k))
  {
    if ForMouse(cs[k].op) || (cs[k].op == WriteDataPort && Routed(cs, k)) {
      assert 0 <= k < k + 1;
    }
  }

  /** The engine before command k, as the request tells it. */
  predicate Told(cs: seq<Command>, k: nat, e: Engine)
    requires k <= |cs|
  {
    (e.mode == Mouse <==> MouseTurn(cs, k)) && (e.transmitToMouse <==> Routed(cs, k))
  }

  lemma ToldNext(config: Config, cs: seq<Command>, k: nat, e: Engine, port: seq<Poll>)
    requires k < |cs| && Told(cs, k, e)
    ensures Told(cs, k + 1, Execute(config, cs[k], e, port).engine)
  {
    RoutedNext(cs, k);
    MouseTurnNext(cs, k);
  }

  // ---- One command

  /** The devices that answer, None standing for a time-out. */
  function Answerers(events: seq<Event>): seq<Option<Device>> {
    if events == [] then []
    else (match events[0]
          case Answered(d, _) => [Some(d)]
          case TimedOut => [None]
          case _ => []) + Answerers(events[1..])
  }

  lemma {:induction false} AnswerersConcat(a: seq<Event>, b: seq<Event>)
    ensures Answerers(a + b) == Answerers(a) + Answerers(b)
  {
    if a == [] {
      assert a + b == b;
    } else {
      assert (a + b)[1..] == a[1..] + b;
      AnswerersConcat(a[1..], b);
    }
  }

  /** One answer is taken, of the device, or of any. */
  predicate OneAnswerer(any: bool, dev: Device, answerers: seq<Option<Device>>) {
    |answerers| == 1 && (answerers[0].Some? ==> any || answerers[0].value == dev)
  }

  /** Events of a read: nothing is written and one answer is taken. */
  predicate OneRead(any: bool, dev: Device, events: seq<Event>) {
    Writes(events) == [] && OneAnswerer(any, dev, Answerers(events))
  }

  lemma PassedBefore(any: bool, dev: Device, e: Event, events: seq<Event>)
    requires OneRead(any, dev, events) && (e.Dispatched? || e.Lost?)
    ensures OneRead(any, dev, [e] + events)
  {
    assert ([e] + events)[1..] == events;
  }

  lemma TakenAlone(any: bool, dev: Device, e: Event)
    requires e == TimedOut || (e.Answered? && (any || e.dev == dev))
    ensures OneRead(any, dev, [e])
  {
    assert [e][1..] == [];
  }

  lemma {:induction false} ReadOnce(config: Config, dev: Device, port: seq<Poll>, budget: nat)
    ensures OneRead(config.suppressTimeout, dev, Read(config, dev, port, budget).events)
    decreases |port|
  {
    var any := config.suppressTimeout;
    if budget == 0 || port == [] {
      TakenAlone(any, dev, TimedOut);
    } else if port[0].NotReady? {
      ReadOnce(config, dev, port[1..], budget - 1);
    } else if any || port[0].dev == dev {
      TakenAlone(any, dev, Answered(port[0].dev, port[0].data));
    } else {
      ReadOnce(config, dev, port[1..], budget);
      PassedBefore(any, dev, Dispatched(port[0].dev, port[0].data), Read(config, dev, port[1..], budget).events);
    }
  }

  lemma SettledOnce(config: Config, dev: Device, expected: bv8, held: Option<bv8>, b: bv8)
    ensures OneRead(false, dev, Settle(config, dev, expected, held, b).1)
  {
    var last: seq<Event> := [Answered(dev, if held.None? || b == expected then b else held.value)];
    TakenAlone(false, dev, last[0]);
    if held.Some? {
      PassedBefore(false, dev, Divert(config, dev, if b == expected then held.value else b), last);
    }
  }

  lemma {:induction false} ReadExpectingOnce(config: Config, dev: Device, expected: bv8, held: Option<bv8>,
                                             port: seq<Poll>, budget: nat)
    ensures OneRead(false, dev, ReadExpecting(config, dev, expected, held, port, budget).events)
    decreases |port|
  {
    if budget == 0 || port == [] {
      TakenAlone(false, dev, if held.None? then TimedOut else Answered(dev, held.value));
    } else {
      var p := port[0];
      var h, next := NextHeld(dev, held, p), Next(p, budget);
      if p.NotReady? || p.dev != dev || (held.None? && p.data != expected) {
        ReadExpectingOnce(config, dev, expected, h, port[1..], next);
        if p.Ready? && p.dev != dev {
          PassedBefore(false, dev, Divert(config, p.dev, p.data),
                       ReadExpecting(config, dev, expected, h, port[1..], next).events);
        }
      } else {
        SettledOnce(config, dev, expected, held, p.data);
      }
    }
  }

  /** What a command may write, and whose answer it may take: that of the device whose
      turn it is, or, for a plain read in start-up mode, of any. */
  predicate Lawful(any: bool, cs: seq<Command>, k: nat, done: Command, writes: seq<Event>,
                   answerers: seq<Option<Device>>)
    requires k < |cs|
  {
    && WrittenBy(cs[k], done, writes)
    && (if Reads(cs[k].op) then OneAnswerer(any && !Compares(cs[k].op), Turn(cs, k), answerers) else answerers == [])
  }

  predicate StepIsLawful(any: bool, cs: seq<Command>, k: nat, s: Step)
    requires k < |cs|
  {
    Lawful(any, cs, k, s.command, Writes(s.events), Answerers(s.events))
  }

  lemma PlainLawful(config: Config, cs: seq<Command>, k: nat, e: Engine, port: seq<Poll>)
    requires k < |cs| && Told(cs, k, e) && (cs[k].op.ReadDataPort? || cs[k].op.ReadMouseDataPort?)
    ensures StepIsLawful(config.suppressTimeout, cs, k, Execute(config, cs[k], e, port))
  {
    ReadOnce(config, if cs[k].op.ReadDataPort? then e.mode else Mouse, port, TIMEOUT_COUNTER);
  }

  lemma CompareLawful(config: Config, cs: seq<Command>, k: nat, e: Engine, port: seq<Poll>)
    requires k < |cs| && Told(cs, k, e) && (cs[k].op.ReadDataPortAndCompare? || cs[k].op.ReadMouseDataPortAndCompare?)
    ensures StepIsLawful(config.suppressTimeout, cs, k, Execute(config, cs[k], e, port))
  {
    ReadExpectingOnce(config, if cs[k].op.ReadDataPortAndCompare? then e.mode else Mouse, cs[k].inOrOut, None, port,
                      TIMEOUT_COUNTER);
  }

  lemma WritesAround(before: seq<Event>, events: seq<Event>, after: seq<Event>)
    requires Writes(events) == []
    ensures Writes(before + events + after) == Writes(before) + Writes(after)
    ensures Answerers(before + events + after) == Answerers(before) + Answerers(events) + Answerers(after)
  {
    WritesConcat(before, events);
    WritesConcat(before + events, after);
    AnswerersConcat(before, events);
    AnswerersConcat(before + events, after);
  }

  lemma OneOut(a: Event)
    requires a.CommandOut? || a.DataOut?
    ensures Writes([a]) == [a] && Answerers([a]) == []
  {
    assert [a][1..] == [];
  }

  lemma TwoOut(a: Event, b: Event)
    requires (a.CommandOut? || a.DataOut?) && (b.CommandOut? || b.DataOut?)
    ensures Writes([a, b]) == [a, b] && Answerers([a, b]) == []
  {
    OneOut(a);
    OneOut(b);
    WritesConcat([a], [b]);
    AnswerersConcat([a], [b]);
    assert [a] + [b] == [a, b];
  }

  lemma ThreeAround(a: Event, events: seq<Event>, b: Event, c: Event)
    requires (a.CommandOut? || a.DataOut?) && (b.CommandOut? || b.DataOut?) && (c.CommandOut? || c.DataOut?)
    requires Writes(events) == []
    ensures Writes([a] + events + [b, c]) == [a, b, c] && Answerers([a] + events + [b, c]) == Answerers(events)
  {
    OneOut(a);
    TwoOut(b, c);
    WritesAround([a], events, [b, c]);
    assert [a] + [b, c] == [a, b, c];
    assert [] + Answerers(events) + [] == Answerers(events);
  }

  lemma CompositeLawful(config: Config, cs: seq<Command>, k: nat, e: Engine, port: seq<Poll>)
    requires k < |cs| && cs[k].op.SendMouseCommandAndCompareAck?
    ensures StepIsLawful(config.suppressTimeout, cs, k, Execute(config, cs[k], e, port))
  {
    var r := ReadExpecting(config, Mouse, ACKNOWLEDGE, None, port, TIMEOUT_COUNTER);
    var out := [CommandOut(TRANSMIT_TO_MOUSE), DataOut(cs[k].inOrOut)];
    ReadExpectingOnce(config, Mouse, ACKNOWLEDGE, None, port, TIMEOUT_COUNTER);
    TwoOut(out[0], out[1]);
    WritesAround(out, r.events, []);
    assert out + r.events + [] == out + r.events;
  }

  lemma ModifyAllowed(any: bool, cs: seq<Command>, k: nat, was: bv8, byte: bv8, answerers: seq<Option<Device>>)
    requires k < |cs| && cs[k].op.ModifyCommandByte? && ModifiedBits(was, cs[k].setBits, cs[k].clearBits, byte)
    requires OneAnswerer(any, Keyboard, answerers)
    ensures Lawful(any, cs, k, cs[k].(oldBits := was), [CommandOut(0x20), CommandOut(0x60), DataOut(byte)], answerers)
  {
  }

  lemma ModifyEvents(config: Config, c: Command, e: Engine, port: seq<Poll>, byte: bv8)
    requires c.op.ModifyCommandByte?
    requires byte == (Read(config, Keyboard, port, TIMEOUT_COUNTER).data | c.setBits) & !c.clearBits
    ensures var s, r := Execute(config, c, e, port), Read(config, Keyboard, port, TIMEOUT_COUNTER);
            && s.command == c.(oldBits := r.data)
            && s.events == [CommandOut(0x20)] + r.events + [CommandOut(0x60), DataOut(byte)]
  {
  }

  lemma ModifyStep(any: bool, cs: seq<Command>, k: nat, s: Step, r: ReadResult, byte: bv8)
    requires k < |cs| && cs[k].op.ModifyCommandByte? && byte == (r.data | cs[k].setBits) & !cs[k].clearBits
    requires s.command == cs[k].(oldBits := r.data) && OneRead(any, Keyboard, r.events)
    requires s.events == [CommandOut(0x20)] + r.events + [CommandOut(0x60), DataOut(byte)]
    ensures StepIsLawful(any, cs, k, s)
  {
    ThreeAround(CommandOut(0x20), r.events, CommandOut(0x60), DataOut(byte));
    Modifies(r.data, cs[k].setBits, cs[k].clearBits);
    ModifyAllowed(any, cs, k, r.data, byte, Answerers(r.events));
  }

  lemma ModifyLawful(config: Config, cs: seq<Command>, k: nat, e: Engine, port: seq<Poll>)
    requires k < |cs| && cs[k].op.ModifyCommandByte?
    ensures StepIsLawful(config.suppressTimeout, cs, k, Execute(config, cs[k], e, port))
  {
    var r := Read(config, Keyboard, port, TIMEOUT_COUNTER);
    var byte := (r.data | cs[k].setBits) & !cs[k].clearBits;
    ReadOnce(config, Keyboard, port, TIMEOUT_COUNTER);
    ModifyEvents(config, cs[k], e, port, byte);
    ModifyStep(config.suppressTimeout, cs, k, Execute(config, cs[k], e, port), r, byte);
  }

  lemma {:induction false} FlushWritesNothing(port: seq<Poll>)
    ensures Writes(Flush(port).2) == [] && Answerers(Flush(port).2) == []
  {
    if port != [] && port[0].Ready? {
      FlushWritesNothing(port[1..]);
      var (_, _, events) := Flush(port[1..]);
      assert ([Flushed(port[0].dev, port[0].data)] + events)[1..] == events;
    }
  }

  lemma StepLawful(config: Config, cs: seq<Command>, k: nat, e: Engine, port: seq<Poll>)
    requires k < |cs| && Told(cs, k, e)
    ensures StepIsLawful(config.suppressTimeout, cs, k, Execute(config, cs[k], e, port))
  {
    var c := cs[k];
    if c.op.ReadDataPort? || c.op.ReadMouseDataPort? {
      PlainLawful(config, cs, k, e, port);
    } else if c.op.ReadDataPortAndCompare? || c.op.ReadMouseDataPortAndCompare? {
      CompareLawful(config, cs, k, e, port);
    } else if c.op.SendMouseCommandAndCompareAck? {
      CompositeLawful(config, cs, k, e, port);
    } else if c.op.ModifyCommandByte? {
      ModifyLawful(config, cs, k, e, port);
    } else if c.op.FlushDataPort? {
      FlushWritesNothing(port);
    } else {
      OneOut(CommandOut(c.inOrOut));
      OneOut(DataOut(c.inOrOut));
    }
  }

  // ---- A whole request

  /** Commands k to end, one after the other, did what they may, and nothing else was
      written or answered. */
  predicate LawfulFrom(any: bool, cs: seq<Command>, done: seq<Command>, k: nat, end: nat, writes: seq<Event>,
                       answerers: seq<Option<Device>>)
    requires k <= end <= |cs| && |done| == end - k
    decreases end - k
  {
    if k == end then writes == [] && answerers == []
    else
      var n, m := WriteCount(cs[k].op), if Reads(cs[k].op) then 1 else 0;
      && n <= |writes| && m <= |answerers| && Lawful(any, cs, k, done[0], writes[..n], answerers[..m])
      && LawfulFrom(any, cs, done[1..], k + 1, end, writes[n..], answerers[m..])
  }

  lemma LawfulCons(any: bool, cs: seq<Command>, k: nat, end: nat, d: Command, done: seq<Command>, w: seq<Event>,
                   ws: seq<Event>, a: seq<Option<Device>>, as': seq<Option<Device>>)
    requires k < end <= |cs| && |done| == end - k - 1
    requires Lawful(any, cs, k, d, w, a) && LawfulFrom(any, cs, done, k + 1, end, ws, as')
    ensures LawfulFrom(any, cs, [d] + done, k, end, w + ws, a + as')
  {
    var n, m := WriteCount(cs[k].op), if Reads(cs[k].op) then 1 else 0;
    assert |w| == n && |a| == m;
    assert (w + ws)[..n] == w && (w + ws)[n..] == ws && (a + as')[..m] == a && (a + as')[m..] == as';
    assert ([d] + done)[1..] == done;
  }

  /** The commands executed from k on, and all they wrote and took. */
  predicate RunIsLawful(any: bool, cs: seq<Command>, k: nat, r: Run)
    requires k <= |cs|
  {
    var n := r.completed + if r.failed then 1 else 0;
    && n <= |r.commands| && k + n <= |cs|
    && LawfulFrom(any, cs, r.commands[..n], k, k + n, Writes(r.events), Answerers(r.events))
  }

  lemma LawfulStop(any: bool, cs: seq<Command>, k: nat, s: Step)
    requires k < |cs| && StepIsLawful(any, cs, k, s)
    ensures RunIsLawful(any, cs, k, Run([s.command] + cs[k + 1..], s.engine, s.rest, s.events, 0, true))
  {
    LawfulCons(any, cs, k, k + 1, s.command, [], Writes(s.events), [], Answerers(s.events), []);
    assert Writes(s.events) + [] == Writes(s.events) && Answerers(s.events) + [] == Answerers(s.events);
    assert ([s.command] + cs[k + 1..])[..1] == [s.command] + [];
  }

  lemma LawfulOn(any: bool, cs: seq<Command>, k: nat, s: Step, r: Run)
    requires k < |cs| && StepIsLawful(any, cs, k, s) && RunIsLawful(any, cs, k + 1, r)
    ensures RunIsLawful(any, cs, k,
                        Run([s.command] + r.commands, r.engine, r.rest, s.events + r.events, r.completed + 1, r.failed))
  {
    var n := r.completed + if r.failed then 1 else 0;
    LawfulCons(any, cs, k, k + 1 + n, s.command, r.commands[..n], Writes(s.events), Writes(r.events),
               Answerers(s.events), Answerers(r.events));
    WritesConcat(s.events, r.events);
    AnswerersConcat(s.events, r.events);
    assert ([s.command] + r.commands)[..n + 1] == [s.command] + r.commands[..n];
  }

  lemma RunUnfolds(config: Config, cs: seq<Command>, k: nat, e: Engine, port: seq<Poll>)
    requires k < |cs|
    ensures var s := Execute(config, cs[k], e, port);
            var r := ExecuteAll(config, cs[k + 1..], s.engine, s.rest);
            ExecuteAll(config, cs[k..], e, port)
            == if s.failed then Run([s.command] + cs[k + 1..], s.engine, s.rest, s.events, 0, true)
               else Run([s.command] + r.commands, r.engine, r.rest, s.events + r.events, r.completed + 1, r.failed)
  {
    assert cs[k..][1..] == cs[k + 1..];
  }

  lemma {:induction false} RunLawful(config: Config, cs: seq<Command>, k: nat, e: Engine, port: seq<Poll>)
    requires k <= |cs| && Told(cs, k, e)
    ensures RunIsLawful(config.suppressTimeout, cs, k, ExecuteAll(config, cs[k..], e, port))
    decreases |cs| - k
  {
    if k < |cs| {
      var s := Execute(config, cs[k], e, port);
      StepLawful(config, cs, k, e, port);
      RunUnfolds(config, cs, k, e, port);
      if s.failed {
        LawfulStop(config.suppressTimeout, cs, k, s);
      } else {
        ToldNext(config, cs, k, e, port);
        RunLawful(config, cs, k + 1, s.engine, s.rest);
        LawfulOn(config.suppressTimeout, cs, k, s, ExecuteAll(config, cs[k + 1..], s.engine, s.rest));
      }
    }
  }

  // Over a whole request: the port is written exactly what the
  // commands executed say, in order, and each answer taken comes from the device whose
  // turn it is, as the commands before it tell, except for plain reads in start-up mode.
  lemma RequestLawful(config: Config, cs: seq<Command>, port: seq<Poll>)
    ensures RunIsLawful(config.suppressTimeout, cs, 0, ExecuteAll(config, cs, START, port))
  {
    assert cs[0..] == cs;
    RunLawful(config, cs, 0, START, port);
  }
}
