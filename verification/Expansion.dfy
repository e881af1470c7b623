/** The composite mouse command against the three-command sequence it stands for. */
module Expansion {
  import opened Wrappers
  import opened Port8042

  function Parts(c: Command): seq<Command> {
    [c.(op := WriteCommandPort, inOrOut := TRANSMIT_TO_MOUSE),
     c.(op := WriteDataPort),
     c.(op := ReadDataPortAndCompare, inOrOut := ACKNOWLEDGE)]
  }

  function Widen(c: Command): seq<Command> {
    if c.op == SendMouseCommandAndCompareAck then Parts(c) else [c]
  }

  /** The request with every composite command replaced by its three parts. */
  function Expand(cs: seq<Command>): seq<Command> {
    if cs == [] then [] else Widen(cs[0]) + Expand(cs[1..])
  }

  /** Where command i of the request starts in the expanded one. */
  function Offset(cs: seq<Command>, i: nat): nat
    requires i <= |cs|
  {
    if i == 0 then 0 else |Widen(cs[0])| + Offset(cs[1..], i - 1)
  }

  /** The failing command of the expanded request: a composite fails at its last part. */
  function FailingPart(cs: seq<Command>, i: nat): nat
    requires i < |cs|
  {
    Offset(cs, i) + |Widen(cs[i])| - 1
  }

  function Routes(c: Command, pending: bool): bool {
    match c.op
    case WriteDataPort => false
    case WriteCommandPort => pending || c.inOrOut == TRANSMIT_TO_MOUSE
    case _ => pending
  }

  /** No composite command runs while an earlier command-port write still routes
      the next data byte to the mouse.  Readable off the request before it runs. */
  predicate NoPendingRoute(cs: seq<Command>, pending: bool) {
    cs == [] ||
    ((cs[0].op == SendMouseCommandAndCompareAck ==> !pending) && NoPendingRoute(cs[1..], Routes(cs[0], pending)))
  }

  /** The two runs look the same from outside: same port writes, bytes used and
      dispatches, same success, the failing command being the last part of the same
      command.  The engine's mode and pending route end with the request. */
  predicate Alike(cs: seq<Command>, r: Run, x: Run) {
    && x.rest == r.rest && x.events == r.events && x.failed == r.failed
    && (r.failed ==> r.completed < |cs| && x.completed == FailingPart(cs, r.completed))
    && (!r.failed ==> x.completed == |Expand(cs)|)
  }

  /** The two runs did the same, and left the same engine. */
  predicate Agree(cs: seq<Command>, r: Run, x: Run) {
    Alike(cs, r, x) && x.engine == r.engine && |r.commands| == |cs|
  }

  /** Every other command holds the same result in both runs. */
  predicate SameResults(cs: seq<Command>, done: seq<Command>, wide: seq<Command>) {
    |done| == |cs| &&
    forall i :: 0 <= i < |cs| && cs[i].op != SendMouseCommandAndCompareAck ==>
      Offset(cs, i) < |wide| && wide[Offset(cs, i)] == done[i]
  }

  /** A successful step, then the rest of the request. */
  function Then(s: Step, r: Run): Run {
    Run([s.command] + r.commands, r.engine, r.rest, s.events + r.events, r.completed + 1, r.failed)
  }

  function Stopped(s: Step, cs: seq<Command>): Run {
    Run([s.command] + cs, s.engine, s.rest, s.events, 0, true)
  }

  lemma ExecuteAllCons(config: Config, c: Command, cs: seq<Command>, e: Engine, port: seq<Poll>)
    ensures var s := Execute(config, c, e, port);
            ExecuteAll(config, [c] + cs, e, port) ==
            if s.failed then Stopped(s, cs) else Then(s, ExecuteAll(config, cs, s.engine, s.rest))
  {
    assert ([c] + cs)[1..] == cs;
  }

  lemma PartsSteps(config: Config, c: Command, later: seq<Command>, e: Engine, port: seq<Poll>)
    requires c.op == SendMouseCommandAndCompareAck
    ensures var p := Parts(c);
            var s2 := Execute(config, p[2], Engine(Mouse, false), port);
            var x2 := if s2.failed then Stopped(s2, later) else Then(s2, ExecuteAll(config, later, s2.engine, s2.rest));
            var s1 := Step(p[1], Engine(Mouse, false), port, [DataOut(c.inOrOut)], false);
            var s0 := Step(p[0], Engine(e.mode, true), port, [CommandOut(TRANSMIT_TO_MOUSE)], false);
            ExecuteAll(config, p + later, e, port) == Then(s0, Then(s1, x2))
  {
    var p := Parts(c);
    ExecuteAllCons(config, p[2], later, Engine(Mouse, false), port);
    ExecuteAllCons(config, p[1], [p[2]] + later, Engine(e.mode, true), port);
    ExecuteAllCons(config, p[0], [p[1]] + ([p[2]] + later), e, port);
    assert p + later == [p[0]] + ([p[1]] + ([p[2]] + later));
  }

  lemma CompositeStep(config: Config, c: Command, e: Engine, port: seq<Poll>)
    requires c.op == SendMouseCommandAndCompareAck && !e.transmitToMouse
    ensures var s, s2 := Execute(config, c, e, port), Execute(config, Parts(c)[2], Engine(Mouse, false), port);
            && s2.engine == s.engine == Engine(Mouse, false) && s2.rest == s.rest && s2.failed == s.failed
            && s.events == [CommandOut(TRANSMIT_TO_MOUSE), DataOut(c.inOrOut)] + s2.events
  {
  }

  /** The run of a composite's parts, told from the run of the composite. */
  function PartsThen(c: Command, s: Step, third: Command, later: seq<Command>, r: Run): Run {
    if s.failed then Run(Parts(c)[..2] + [third] + later, s.engine, s.rest, s.events, 2, true)
    else Run(Parts(c)[..2] + [third] + r.commands, r.engine, r.rest, s.events + r.events, r.completed + 3, r.failed)
  }

  lemma Reassociate(c: Command, s: Step, s0: Step, s1: Step, s2: Step, later: seq<Command>, r: Run)
    requires s0.command == Parts(c)[0] && s0.events == [CommandOut(TRANSMIT_TO_MOUSE)]
    requires s1.command == Parts(c)[1] && s1.events == [DataOut(c.inOrOut)]
    requires s2.engine == s.engine && s2.rest == s.rest && s2.failed == s.failed
    requires s.events == [CommandOut(TRANSMIT_TO_MOUSE), DataOut(c.inOrOut)] + s2.events
    ensures Then(s0, Then(s1, if s2.failed then Stopped(s2, later) else Then(s2, r)))
            == PartsThen(c, s, s2.command, later, r)
  {
    assert s.events == s0.events + (s1.events + s2.events);
    assert s.events + r.events == s0.events + (s1.events + (s2.events + r.events));
    var results := if s.failed then later else r.commands;
    assert [s0.command] + ([s1.command] + ([s2.command] + results)) == Parts(c)[..2] + [s2.command] + results;
  }

  // One composite against its three parts, followed by anything.
  lemma PartsRun(config: Config, c: Command, later: seq<Command>, e: Engine, port: seq<Poll>)
    requires c.op == SendMouseCommandAndCompareAck && !e.transmitToMouse
    ensures var s, s2 := Execute(config, c, e, port), Execute(config, Parts(c)[2], Engine(Mouse, false), port);
            ExecuteAll(config, Parts(c) + later, e, port)
            == PartsThen(c, s, s2.command, later, ExecuteAll(config, later, s.engine, s.rest))
  {
    var s, s2 := Execute(config, c, e, port), Execute(config, Parts(c)[2], Engine(Mouse, false), port);
    var s1 := Step(Parts(c)[1], Engine(Mouse, false), port, [DataOut(c.inOrOut)], false);
    var s0 := Step(Parts(c)[0], Engine(e.mode, true), port, [CommandOut(TRANSMIT_TO_MOUSE)], false);
    CompositeStep(config, c, e, port);
    PartsSteps(config, c, later, e, port);
    Reassociate(c, s, s0, s1, s2, later, ExecuteAll(config, later, s.engine, s.rest));
  }

  // Any command against what it widens to, followed by anything.
  lemma WidenRun(config: Config, c: Command, later: seq<Command>, e: Engine, port: seq<Poll>) returns (third: Command)
    requires c.op == SendMouseCommandAndCompareAck ==> !e.transmitToMouse
    ensures var s := Execute(config, c, e, port);
            var r := ExecuteAll(config, later, s.engine, s.rest);
            ExecuteAll(config, Widen(c) + later, e, port)
            == if c.op == SendMouseCommandAndCompareAck then PartsThen(c, s, third, later, r)
               else if s.failed then Stopped(s, later) else Then(s, r)
  {
    third := Execute(config, Parts(c)[2], Engine(Mouse, false), port).command;
    if c.op == SendMouseCommandAndCompareAck {
      PartsRun(config, c, later, e, port);
    } else {
      ExecuteAllCons(config, c, later, e, port);
    }
  }

  // Agreement of one more command with the rest of the request.
  lemma AgreeCons(c: Command, later: seq<Command>, s: Step, third: Command, r: Run, x: Run)
    requires |r.commands| == |later|
    ensures var whole := if s.failed then Stopped(s, later) else Then(s, r);
            var wide := if c.op == SendMouseCommandAndCompareAck then PartsThen(c, s, third, Expand(later), x)
                        else if s.failed then Stopped(s, Expand(later)) else Then(s, x);
            Agree([c] + later, whole, wide) <==> (s.failed || Agree(later, r, x))
  {
    var cs := [c] + later;
    assert cs[1..] == later;
    if !s.failed {
      assert s.events + x.events == s.events + r.events ==>
        x.events == (s.events + x.events)[|s.events|..] == (s.events + r.events)[|s.events|..] == r.events;
      assert r.failed && r.completed < |later| ==>
        FailingPart(cs, r.completed + 1) == |Widen(c)| + FailingPart(later, r.completed);
    }
  }

  // Every run of a request in which no composite meets a pending route agrees with
  // the run of its expansion, whatever the port delivers.
  lemma {:induction false} ExpansionAgrees(config: Config, cs: seq<Command>, e: Engine, port: seq<Poll>)
    requires NoPendingRoute(cs, e.transmitToMouse)
    ensures Agree(cs, ExecuteAll(config, cs, e, port), ExecuteAll(config, Expand(cs), e, port))
    decreases |cs|
  {
    if cs != [] {
      var c, later := cs[0], cs[1..];
      var s := Execute(config, c, e, port);
      assert cs == [c] + later;
      RoutesStep(config, c, e, port);
      if !s.failed { ExpansionAgrees(config, later, s.engine, s.rest); }
      ExecuteAllCons(config, c, later, e, port);
      var third := WidenRun(config, c, Expand(later), e, port);
      AgreeCons(c, later, s, third, ExecuteAll(config, later, s.engine, s.rest),
                ExecuteAll(config, Expand(later), s.engine, s.rest));
    }
  }

  /** The engine after a command: it does not depend on what the port delivers. */
  function EngineAfter(c: Command, e: Engine): Engine {
    match c.op
    case WriteDataPort => Engine(if e.transmitToMouse then Mouse else Keyboard, false)
    case WriteCommandPort => Engine(e.mode, Routes(c, e.transmitToMouse))
    case SendMouseCommandAndCompareAck => e.(mode := Mouse)
    case ReadMouseDataPort => e.(mode := Mouse)
    case ReadMouseDataPortAndCompare => e.(mode := Mouse)
    case _ => e
  }

  lemma RoutesStep(config: Config, c: Command, e: Engine, port: seq<Poll>)
    ensures Execute(config, c, e, port).engine == EngineAfter(c, e)
    ensures EngineAfter(c, e).transmitToMouse == Routes(c, e.transmitToMouse)
  {
  }

  lemma SameResultsCons(c: Command, later: seq<Command>, first: Command, done: seq<Command>,
                        part: seq<Command>, wide: seq<Command>)
    requires |part| == |Widen(c)| && (c.op != SendMouseCommandAndCompareAck ==> part == [first])
    requires SameResults(later, done, wide)
    ensures SameResults([c] + later, [first] + done, part + wide)
  {
    var cs := [c] + later;
    assert cs[1..] == later;
    forall i | 0 < i < |cs| && cs[i].op != SendMouseCommandAndCompareAck
      ensures Offset(cs, i) < |part + wide| && (part + wide)[Offset(cs, i)] == done[i - 1]
    {
      assert Offset(cs, i) == |part| + Offset(later, i - 1);
      assert cs[i] == later[i - 1];
    }
  }

  lemma {:induction false} UntouchedResults(cs: seq<Command>)
    ensures SameResults(cs, cs, Expand(cs))
  {
    if cs != [] {
      UntouchedResults(cs[1..]);
      SameResultsCons(cs[0], cs[1..], cs[0], cs[1..], Widen(cs[0]), Expand(cs[1..]));
      assert cs == [cs[0]] + cs[1..];
    }
  }

  // ---- When the expansion stays in step with the request, exactly

  /** After every prefix of the request, for every port, the two runs agree. */
  ghost predicate InStep(config: Config, cs: seq<Command>, e: Engine) {
    forall k: nat, port :: k <= |cs| ==>
      Agree(cs[..k], ExecuteAll(config, cs[..k], e, port), ExecuteAll(config, Expand(cs[..k]), e, port))
  }

  lemma {:induction false} NoPendingRoutePrefix(cs: seq<Command>, k: nat, pending: bool)
    requires k <= |cs| && NoPendingRoute(cs, pending)
    ensures NoPendingRoute(cs[..k], pending)
  {
    if k != 0 {
      NoPendingRoutePrefix(cs[1..], k - 1, Routes(cs[0], pending));
      assert cs[..k][1..] == cs[1..][..k - 1];
    }
  }

  /** A port on which the command succeeds. */
  function Feed(c: Command, e: Engine): seq<Poll> {
    match c.op
    case ReadDataPort => [Ready(e.mode, 0)]
    case ReadDataPortAndCompare => [Ready(e.mode, c.inOrOut)]
    case SendMouseCommandAndCompareAck => [Ready(Mouse, ACKNOWLEDGE)]
    case ReadMouseDataPort => [Ready(Mouse, 0)]
    case ReadMouseDataPortAndCompare => [Ready(Mouse, c.inOrOut)]
    case FlushDataPort => [NotReady]
    case ModifyCommandByte => [Ready(Keyboard, 0)]
    case _ => []
  }

  predicate Succeeds(config: Config, c: Command, e: Engine, port: seq<Poll>, rest: seq<Poll>) {
    var s := Execute(config, c, e, port);
    !s.failed && s.rest == rest && s.engine.transmitToMouse == Routes(c, e.transmitToMouse)
  }

  lemma ReadNow(config: Config, dev: Device, b: bv8, rest: seq<Poll>)
    ensures var answer := ReadResult(b, rest, [Answered(dev, b)]);
            && Read(config, dev, [Ready(dev, b)] + rest, TIMEOUT_COUNTER) == answer
            && ReadExpecting(config, dev, b, None, [Ready(dev, b)] + rest, TIMEOUT_COUNTER) == answer
  {
    assert ([Ready(dev, b)] + rest)[1..] == rest;
  }

  lemma PlainFeedWorks(config: Config, c: Command, e: Engine, rest: seq<Poll>)
    requires c.op.ReadDataPort? || c.op.ReadMouseDataPort? || c.op.ModifyCommandByte?
    ensures Succeeds(config, c, e, Feed(c, e) + rest, rest)
  {
    ReadNow(config, Feed(c, e)[0].dev, 0, rest);
  }

  lemma CompareFeedWorks(config: Config, c: Command, e: Engine, rest: seq<Poll>)
    requires c.op.ReadDataPortAndCompare? || c.op.ReadMouseDataPortAndCompare? || c.op.SendMouseCommandAndCompareAck?
    ensures Succeeds(config, c, e, Feed(c, e) + rest, rest)
  {
    ReadNow(config, Feed(c, e)[0].dev, Feed(c, e)[0].data, rest);
  }

  lemma FeedWorks(config: Config, c: Command, e: Engine, rest: seq<Poll>)
    ensures Succeeds(config, c, e, Feed(c, e) + rest, rest)
  {
    if c.op.ReadDataPort? || c.op.ReadMouseDataPort? || c.op.ModifyCommandByte? {
      PlainFeedWorks(config, c, e, rest);
    } else if c.op.ReadDataPortAndCompare? || c.op.ReadMouseDataPortAndCompare? || c.op.SendMouseCommandAndCompareAck? {
      CompareFeedWorks(config, c, e, rest);
    } else if c.op.FlushDataPort? {
      assert ([NotReady] + rest)[1..] == rest;
    } else {
      assert [] + rest == rest;
    }
  }

  /** The port on which the first k commands of the request and their expansion differ. */
  predicate Differs(config: Config, cs: seq<Command>, e: Engine, k: nat, port: seq<Poll>) {
    k <= |cs| && !Agree(cs[..k], ExecuteAll(config, cs[..k], e, port), ExecuteAll(config, Expand(cs[..k]), e, port))
  }

  lemma DiffersAfter(config: Config, cs: seq<Command>, e: Engine, k: nat, port: seq<Poll>)
    requires cs != [] && (cs[0].op == SendMouseCommandAndCompareAck ==> !e.transmitToMouse)
    requires Differs(config, cs[1..], EngineAfter(cs[0], e), k, port)
    ensures Differs(config, cs, e, k + 1, Feed(cs[0], e) + port)
  {
    assert cs[..k + 1] == [cs[0]] + cs[1..][..k];
    FeedWorks(config, cs[0], e, port);
    RoutesStep(config, cs[0], e, Feed(cs[0], e) + port);
    DiffersLater(config, cs[0], cs[1..][..k], e, Feed(cs[0], e) + port);
  }

  // A composite that meets a pending route leaves it pending; its parts use it up.
  lemma {:induction false} PendingRouteDiffers(config: Config, cs: seq<Command>, e: Engine)
      returns (k: nat, port: seq<Poll>)
    requires !NoPendingRoute(cs, e.transmitToMouse)
    ensures Differs(config, cs, e, k, port)
    decreases |cs|
  {
    if cs[0].op == SendMouseCommandAndCompareAck && e.transmitToMouse {
      k, port := 1, Feed(cs[0], e);
      PendingComposite(config, cs[0], e);
      assert cs[..1] == [cs[0]];
    } else {
      RoutesStep(config, cs[0], e, []);
      k, port := PendingRouteDiffers(config, cs[1..], EngineAfter(cs[0], e));
      DiffersAfter(config, cs, e, k, port);
      k, port := k + 1, Feed(cs[0], e) + port;
    }
  }

  lemma PendingComposite(config: Config, c: Command, e: Engine)
    requires c.op == SendMouseCommandAndCompareAck && e.transmitToMouse
    ensures ExecuteAll(config, [c], e, Feed(c, e)).engine.transmitToMouse
    ensures !ExecuteAll(config, Expand([c]), e, Feed(c, e)).engine.transmitToMouse
  {
    var p := Parts(c);
    assert Feed(c, e) + [] == Feed(c, e);
    FeedWorks(config, c, e, []);
    ExecuteAllCons(config, c, [], e, Feed(c, e));
    assert [c] + [] == [c] && Expand([c]) == p + Expand([]);
    ExecuteAllCons(config, p[0], [p[1], p[2]], e, Feed(c, e));
    ExecuteAllCons(config, p[1], [p[2]], e, Feed(c, e));
    FeedWorks(config, p[2], Engine(Mouse, false), []);
    ExecuteAllCons(config, p[2], [], Engine(Mouse, false), Feed(c, e));
    assert p + [] == [p[0]] + [p[1], p[2]] && [p[1], p[2]] == [p[1]] + [p[2]] && [p[2]] + [] == [p[2]];
  }

  lemma DiffersLater(config: Config, c: Command, later: seq<Command>, e: Engine, port: seq<Poll>)
    requires c.op == SendMouseCommandAndCompareAck ==> !e.transmitToMouse
    requires !Execute(config, c, e, port).failed
    requires var s := Execute(config, c, e, port);
             !Agree(later, ExecuteAll(config, later, s.engine, s.rest),
                    ExecuteAll(config, Expand(later), s.engine, s.rest))
    ensures !Agree([c] + later, ExecuteAll(config, [c] + later, e, port),
                   ExecuteAll(config, Expand([c] + later), e, port))
  {
    var s := Execute(config, c, e, port);
    assert ([c] + later)[1..] == later;
    ExecuteAllCons(config, c, later, e, port);
    var third := WidenRun(config, c, Expand(later), e, port);
    AgreeCons(c, later, s, third, ExecuteAll(config, later, s.engine, s.rest),
              ExecuteAll(config, Expand(later), s.engine, s.rest));
  }

  // The expansion stays in step with the request, whatever the port delivers, if
  // and only if no composite meets a pending route.
  lemma ExpansionInStep(config: Config, cs: seq<Command>, e: Engine)
    ensures InStep(config, cs, e) <==> NoPendingRoute(cs, e.transmitToMouse)
  {
    if NoPendingRoute(cs, e.transmitToMouse) {
      forall k: nat, port | k <= |cs|
        ensures Agree(cs[..k], ExecuteAll(config, cs[..k], e, port), ExecuteAll(config, Expand(cs[..k]), e, port))
      {
        NoPendingRoutePrefix(cs, k, e.transmitToMouse);
        ExpansionAgrees(config, cs[..k], e, port);
      }
    } else {
      var k, port := PendingRouteDiffers(config, cs, e);
    }
  }

  // Out of step, the two can listen to different devices.  After a pending route,
  // a composite and a data byte, the request still listens to the mouse and the
  // expansion to the keyboard: a keyboard byte is dispatched by one, read by the other.
  lemma PendingRouteVisible(config: Config, c: Command, e: Engine)
    requires c.op == SendMouseCommandAndCompareAck && e.transmitToMouse && !config.suppressTimeout
    ensures var write, read := c.(op := WriteDataPort), c.(op := ReadDataPort);
            var e1 := ExecuteAll(config, [c, write], e, Feed(c, e)).engine;
            var e2 := ExecuteAll(config, Expand([c]) + [write], e, Feed(c, e)).engine;
            && Execute(config, read, e1, [Ready(Keyboard, 1)]).events == [Dispatched(Keyboard, 1), TimedOut]
            && Execute(config, read, e2, [Ready(Keyboard, 1)]).events == [Answered(Keyboard, 1)]
  {
    var write, p := c.(op := WriteDataPort), Parts(c);
    assert Feed(c, e) + [] == Feed(c, e) && Expand([c]) == p + Expand([c][1..]) == p;
    FeedWorks(config, c, e, []);
    ExecuteAllCons(config, c, [write], e, Feed(c, e));
    ExecuteAllCons(config, write, [], Engine(Mouse, true), []);
    assert [c] + [write] == [c, write] && [write] + [] == [write];
    PendingParts(config, c, e);
  }

  lemma PendingParts(config: Config, c: Command, e: Engine)
    requires c.op == SendMouseCommandAndCompareAck && e.transmitToMouse
    ensures ExecuteAll(config, Parts(c) + [c.(op := WriteDataPort)], e, Feed(c, e)).engine == Engine(Keyboard, false)
  {
    var write, p, port := c.(op := WriteDataPort), Parts(c), Feed(c, e);
    ThirdThenWrite(config, c, write);
    ExecuteAllCons(config, p[1], [p[2], write], e, port);
    ExecuteAllCons(config, p[0], [p[1], p[2], write], e, port);
    assert p + [write] == [p[0]] + [p[1], p[2], write] && [p[1], p[2], write] == [p[1]] + [p[2], write];
  }

  lemma ThirdThenWrite(config: Config, c: Command, write: Command)
    requires write.op == WriteDataPort
    ensures ExecuteAll(config, [Parts(c)[2], write], Engine(Mouse, false), [Ready(Mouse, ACKNOWLEDGE)]).engine
            == Engine(Keyboard, false)
  {
    var third := Parts(c)[2];
    assert [Ready(Mouse, ACKNOWLEDGE)] + [] == [Ready(Mouse, ACKNOWLEDGE)];
    ReadNow(config, Mouse, ACKNOWLEDGE, []);
    ExecuteAllCons(config, write, [], Engine(Mouse, false), []);
    ExecuteAllCons(config, third, [write], Engine(Mouse, false), [Ready(Mouse, ACKNOWLEDGE)]);
    assert [third, write] == [third] + [write] && [write] + [] == [write];
  }

  // ---- When nobody outside the request can tell, exactly

  /** The expansion's engine after a command's parts. */
  function EngineAfterParts(c: Command, e: Engine): Engine {
    if c.op == SendMouseCommandAndCompareAck then Engine(Mouse, false) else EngineAfter(c, e)
  }

  /** What the command does depends on the device the engine listens to. */
  predicate Listens(config: Config, op: Op) {
    op.ReadDataPortAndCompare? || (op.ReadDataPort? && !config.suppressTimeout)
  }

  /** Whenever a command listens, request and expansion listen to the same device.
      Readable off the request before it runs. */
  predicate Unseen(config: Config, cs: seq<Command>, e: Engine, x: Engine) {
    cs == [] ||
    ((Listens(config, cs[0].op) ==> e.mode == x.mode)
     && Unseen(config, cs[1..], EngineAfter(cs[0], e), EngineAfterParts(cs[0], x)))
  }

  // A command does the same from two engines if it does not listen or they listen
  // to the same device.
  lemma SameStep(config: Config, c: Command, e: Engine, x: Engine, port: seq<Poll>)
    requires Listens(config, c.op) ==> e.mode == x.mode
    ensures Execute(config, c, x, port) == Execute(config, c, e, port).(engine := EngineAfter(c, x))
  {
    RoutesStep(config, c, x, port);
    if c.op.ReadDataPort? && config.suppressTimeout {
      EitherAnswers(config, e.mode, x.mode, port, TIMEOUT_COUNTER);
    }
  }

  lemma {:induction false} EitherAnswers(config: Config, d: Device, d': Device, port: seq<Poll>, budget: nat)
    requires config.suppressTimeout
    ensures Read(config, d, port, budget) == Read(config, d', port, budget)
    decreases |port|
  {
    if budget != 0 && port != [] && port[0].NotReady? {
      EitherAnswers(config, d, d', port[1..], budget - 1);
    }
  }

  // What a composite's parts do, whatever the engine, told from the composite's run.
  lemma PartsFrom(config: Config, c: Command, later: seq<Command>, x: Engine, port: seq<Poll>) returns (third: Command)
    requires c.op == SendMouseCommandAndCompareAck
    ensures var s := Execute(config, c, x, port).(engine := Engine(Mouse, false));
            ExecuteAll(config, Parts(c) + later, x, port)
            == PartsThen(c, s, third, later, ExecuteAll(config, later, s.engine, s.rest))
  {
    var s := Execute(config, c, x, port).(engine := Engine(Mouse, false));
    var s2 := Execute(config, Parts(c)[2], Engine(Mouse, false), port);
    var s1 := Step(Parts(c)[1], Engine(Mouse, false), port, [DataOut(c.inOrOut)], false);
    var s0 := Step(Parts(c)[0], Engine(x.mode, true), port, [CommandOut(TRANSMIT_TO_MOUSE)], false);
    third := s2.command;
    PartsSteps(config, c, later, x, port);
    Reassociate(c, s, s0, s1, s2, later, ExecuteAll(config, later, s.engine, s.rest));
  }

  /** The run of what a command widens to, from the run of the rest. */
  function Widened(c: Command, s: Step, third: Command, later: seq<Command>, r: Run): Run {
    if c.op == SendMouseCommandAndCompareAck then PartsThen(c, s, third, later, r)
    else if s.failed then Stopped(s, later) else Then(s, r)
  }

  lemma WidenFrom(config: Config, c: Command, later: seq<Command>, e: Engine, x: Engine, port: seq<Poll>)
      returns (third: Command)
    requires Listens(config, c.op) ==> e.mode == x.mode
    ensures var s := Execute(config, c, e, port).(engine := EngineAfterParts(c, x));
            ExecuteAll(config, Widen(c) + later, x, port)
            == Widened(c, s, third, later, ExecuteAll(config, later, s.engine, s.rest))
  {
    third := c;
    SameStep(config, c, e, x, port);
    if c.op == SendMouseCommandAndCompareAck {
      third := PartsFrom(config, c, later, x, port);
    } else {
      ExecuteAllCons(config, c, later, x, port);
    }
  }

  // One more command looks the same if the rest does.
  lemma AlikeCons(c: Command, later: seq<Command>, s: Step, s': Step, third: Command, r: Run, x: Run)
    requires s' == s.(engine := s'.engine)
    ensures Alike([c] + later, if s.failed then Stopped(s, later) else Then(s, r),
                  Widened(c, s', third, Expand(later), x))
            <==> (s.failed || Alike(later, r, x))
  {
    var cs := [c] + later;
    assert cs[1..] == later;
    if !s.failed {
      assert s.events + x.events == s.events + r.events ==>
        x.events == (s.events + x.events)[|s.events|..] == (s.events + r.events)[|s.events|..] == r.events;
      assert r.failed && r.completed < |later| ==>
        FailingPart(cs, r.completed + 1) == |Widen(c)| + FailingPart(later, r.completed);
    }
  }

  // The whole request against its expansion, one command peeled off both.
  lemma AlikePeel(config: Config, cs: seq<Command>, e: Engine, x: Engine, port: seq<Poll>)
    requires cs != [] && (Listens(config, cs[0].op) ==> e.mode == x.mode)
    ensures var s := Execute(config, cs[0], e, port);
            Alike(cs, ExecuteAll(config, cs, e, port), ExecuteAll(config, Expand(cs), x, port))
            <==> s.failed || Alike(cs[1..], ExecuteAll(config, cs[1..], s.engine, s.rest),
                                   ExecuteAll(config, Expand(cs[1..]), EngineAfterParts(cs[0], x), s.rest))
  {
    var c, later := cs[0], cs[1..];
    var s := Execute(config, c, e, port);
    var s' := s.(engine := EngineAfterParts(c, x));
    assert cs == [c] + later;
    ExecuteAllCons(config, c, later, e, port);
    var third := WidenFrom(config, c, Expand(later), e, x, port);
    AlikeCons(c, later, s, s', third, ExecuteAll(config, later, s.engine, s.rest),
              ExecuteAll(config, Expand(later), s'.engine, s.rest));
  }

  lemma {:induction false} UnseenAlike(config: Config, cs: seq<Command>, e: Engine, x: Engine, port: seq<Poll>)
    requires Unseen(config, cs, e, x)
    ensures Alike(cs, ExecuteAll(config, cs, e, port), ExecuteAll(config, Expand(cs), x, port))
    decreases |cs|
  {
    if cs != [] {
      var s := Execute(config, cs[0], e, port);
      AlikePeel(config, cs, e, x, port);
      RoutesStep(config, cs[0], e, port);
      if !s.failed { UnseenAlike(config, cs[1..], s.engine, EngineAfterParts(cs[0], x), s.rest); }
    }
  }

  // Listening to different devices shows at once: the byte one run answers with, the
  // other dispatches or drops.
  lemma HeardFirst(config: Config, c: Command, e: Engine, x: Engine, port: seq<Poll>)
    requires Listens(config, c.op) && e.mode != x.mode && port == [Ready(e.mode, c.inOrOut)]
    ensures var s, s' := Execute(config, c, e, port), Execute(config, c, x, port);
            s.events != [] && s'.events != [] && s.events[0] == Answered(e.mode, c.inOrOut) != s'.events[0]
  {
    assert port + [] == port;
    ReadNow(config, e.mode, c.inOrOut, []);
  }

  lemma StartsWith(config: Config, c: Command, later: seq<Command>, e: Engine, port: seq<Poll>)
    requires Execute(config, c, e, port).events != []
    ensures var r := ExecuteAll(config, [c] + later, e, port);
            r.events != [] && r.events[0] == Execute(config, c, e, port).events[0]
  {
    ExecuteAllCons(config, c, later, e, port);
  }

  lemma HeardApart(config: Config, cs: seq<Command>, e: Engine, x: Engine, port: seq<Poll>)
    requires cs != [] && Listens(config, cs[0].op) && e.mode != x.mode
    requires port == [Ready(e.mode, cs[0].inOrOut)]
    ensures !Alike(cs, ExecuteAll(config, cs, e, port), ExecuteAll(config, Expand(cs), x, port))
  {
    var c, later := cs[0], cs[1..];
    assert cs == [c] + later && Expand(cs) == [c] + Expand(later);
    HeardFirst(config, c, e, x, port);
    StartsWith(config, c, later, e, port);
    StartsWith(config, c, Expand(later), x, port);
  }

  lemma {:induction false} SeenApart(config: Config, cs: seq<Command>, e: Engine, x: Engine) returns (port: seq<Poll>)
    requires !Unseen(config, cs, e, x)
    ensures !Alike(cs, ExecuteAll(config, cs, e, port), ExecuteAll(config, Expand(cs), x, port))
    decreases |cs|
  {
    var c := cs[0];
    if Listens(config, c.op) && e.mode != x.mode {
      port := [Ready(e.mode, c.inOrOut)];
      HeardApart(config, cs, e, x, port);
    } else {
      port := SeenApart(config, cs[1..], EngineAfter(c, e), EngineAfterParts(c, x));
      FeedWorks(config, c, e, port);
      RoutesStep(config, c, e, Feed(c, e) + port);
      AlikePeel(config, cs, e, x, Feed(c, e) + port);
      port := Feed(c, e) + port;
    }
  }

  // ... and the same results are left in every other command.
  lemma {:induction false} ExpansionResults(config: Config, cs: seq<Command>, e: Engine, x: Engine, port: seq<Poll>)
    requires Unseen(config, cs, e, x)
    ensures SameResults(cs, ExecuteAll(config, cs, e, port).commands, ExecuteAll(config, Expand(cs), x, port).commands)
    decreases |cs|
  {
    if cs != [] {
      var c, later := cs[0], cs[1..];
      var s := Execute(config, c, e, port);
      var x' := EngineAfterParts(c, x);
      assert cs == [c] + later;
      RoutesStep(config, c, e, port);
      if s.failed { UntouchedResults(later); } else { ExpansionResults(config, later, s.engine, x', s.rest); }
      ExecuteAllCons(config, c, later, e, port);
      var third := WidenFrom(config, c, Expand(later), e, x, port);
      SameResultsCons(c, later, s.command,
                      if s.failed then later else ExecuteAll(config, later, s.engine, s.rest).commands,
                      if c.op == SendMouseCommandAndCompareAck then Parts(c)[..2] + [third] else [s.command],
                      if s.failed then Expand(later) else ExecuteAll(config, Expand(later), x', s.rest).commands);
    }
  }

  /** From every port, the request and its expansion look the same and leave the same
      results. */
  ghost predicate SameFromOutside(config: Config, cs: seq<Command>) {
    forall port ::
      var r, x := ExecuteAll(config, cs, START, port), ExecuteAll(config, Expand(cs), START, port);
      Alike(cs, r, x) && SameResults(cs, r.commands, x.commands)
  }

  // A request and its expansion are the same from outside if and only if, whenever a
  // command listens, both listen to the same device.
  lemma ExpansionUnseen(config: Config, cs: seq<Command>)
    ensures SameFromOutside(config, cs) <==> Unseen(config, cs, START, START)
  {
    if Unseen(config, cs, START, START) {
      forall port
        ensures var r, x := ExecuteAll(config, cs, START, port), ExecuteAll(config, Expand(cs), START, port);
                Alike(cs, r, x) && SameResults(cs, r.commands, x.commands)
      {
        UnseenAlike(config, cs, START, START, port);
        ExpansionResults(config, cs, START, START, port);
      }
    } else {
      var port := SeenApart(config, cs, START, START);
    }
  }

  // So it is without pending routes; a pending route alone does not show.
  lemma {:induction false} NoPendingRouteUnseen(config: Config, cs: seq<Command>, e: Engine)
    requires NoPendingRoute(cs, e.transmitToMouse)
    ensures Unseen(config, cs, e, e)
    decreases |cs|
  {
    if cs != [] {
      RoutesStep(config, cs[0], e, []);
      assert EngineAfterParts(cs[0], e) == EngineAfter(cs[0], e);
      NoPendingRouteUnseen(config, cs[1..], EngineAfter(cs[0], e));
    }
  }

  lemma PendingRouteUnseen(config: Config, route: Command, c: Command)
    requires route.op == WriteCommandPort && route.inOrOut == TRANSMIT_TO_MOUSE && c.op == SendMouseCommandAndCompareAck
    ensures !NoPendingRoute([route, c], START.transmitToMouse) && Unseen(config, [route, c], START, START)
  {
    assert [route, c][1..] == [c];
  }
}
