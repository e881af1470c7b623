/** Where every byte read from the port ends up, over a whole request. */
module Conservation {
  import opened Wrappers
  import opened Port8042
  import opened OutOfOrderRead

  datatype Fate = ToDriver | ToCommand | ToFlush | ToNowhere

  function Pick(p: Poll, f: Fate, dev: Device, fate: Fate): seq<bv8> {
    if f == fate then Own(p, dev) else []
  }

  /** The bytes of dev's stream that meet the given fate, in arrival order. */
  function Picked(polls: seq<Poll>, fates: seq<Fate>, dev: Device, fate: Fate): seq<bv8>
    requires |fates| == |polls|
  {
    if polls == [] then [] else Pick(polls[0], fates[0], dev, fate) + Picked(polls[1..], fates[1..], dev, fate)
  }

  function Mark(e: Event, dev: Device, fate: Fate): seq<bv8> {
    match e
    case Dispatched(d, b) => Pick(Ready(d, b), ToDriver, dev, fate)
    case Answered(d, b) => Pick(Ready(d, b), ToCommand, dev, fate)
    case Flushed(d, b) => Pick(Ready(d, b), ToFlush, dev, fate)
    case Lost(d, b) => Pick(Ready(d, b), ToNowhere, dev, fate)
    case _ => []
  }

  /** The bytes the log shows meeting that fate, in the order it happened. */
  function Recorded(events: seq<Event>, dev: Device, fate: Fate): seq<bv8> {
    if events == [] then [] else Mark(events[0], dev, fate) + Recorded(events[1..], dev, fate)
  }

  /** Giving each polled byte exactly one fate explains the log: per stream and
      fate, the same bytes in the same order. */
  ghost predicate Accounts(polls: seq<Poll>, fates: seq<Fate>, events: seq<Event>) {
    && |fates| == |polls|
    && forall dev, fate :: Picked(polls, fates, dev, fate) == Recorded(events, dev, fate)
  }

  lemma {:induction false} PickedConcat(p: seq<Poll>, f: seq<Fate>, p': seq<Poll>, f': seq<Fate>, dev: Device,
                                        fate: Fate)
    requires |f| == |p| && |f'| == |p'|
    ensures Picked(p + p', f + f', dev, fate) == Picked(p, f, dev, fate) + Picked(p', f', dev, fate)
  {
    if p == [] {
      assert p + p' == p' && f + f' == f';
    } else {
      assert (p + p')[1..] == p[1..] + p' && (f + f')[1..] == f[1..] + f';
      PickedConcat(p[1..], f[1..], p', f', dev, fate);
    }
  }

  lemma {:induction false} RecordedConcat(a: seq<Event>, b: seq<Event>, dev: Device, fate: Fate)
    ensures Recorded(a + b, dev, fate) == Recorded(a, dev, fate) + Recorded(b, dev, fate)
  {
    if a == [] {
      assert a + b == b;
    } else {
      assert (a + b)[1..] == a[1..] + b;
      RecordedConcat(a[1..], b, dev, fate);
    }
  }

  lemma AccountsConcat(p: seq<Poll>, f: seq<Fate>, a: seq<Event>, p': seq<Poll>, f': seq<Fate>, b: seq<Event>)
    requires Accounts(p, f, a) && Accounts(p', f', b)
    ensures Accounts(p + p', f + f', a + b)
  {
    forall dev, fate ensures Picked(p + p', f + f', dev, fate) == Recorded(a + b, dev, fate) {
      PickedConcat(p, f, p', f', dev, fate);
      RecordedConcat(a, b, dev, fate);
    }
  }

  lemma One(p: Poll, f: Fate, e: Event, dev: Device, fate: Fate)
    ensures Picked([p], [f], dev, fate) == Pick(p, f, dev, fate)
    ensures Recorded([e], dev, fate) == Mark(e, dev, fate)
  {
    assert Picked([], [], dev, fate) == [] && Recorded([], dev, fate) == [];
  }

  /** The log entries that record one poll: none when it found no byte. */
  function Record(p: Poll, f: Fate): seq<Event> {
    if p.NotReady? then []
    else
      match f
      case ToDriver => [Dispatched(p.dev, p.data)]
      case ToCommand => [Answered(p.dev, p.data)]
      case ToFlush => [Flushed(p.dev, p.data)]
      case ToNowhere => [Lost(p.dev, p.data)]
  }

  lemma AccountsOne(p: Poll, f: Fate)
    ensures Accounts([p], [f], Record(p, f))
  {
    forall dev, fate ensures Picked([p], [f], dev, fate) == Recorded(Record(p, f), dev, fate) {
      One(p, f, if p.Ready? then Record(p, f)[0] else TimedOut, dev, fate);
    }
  }

  lemma AccountsCons(p: Poll, f: Fate, rest: seq<Poll>, fates: seq<Fate>, events: seq<Event>)
    requires Accounts(rest, fates, events)
    ensures Accounts([p] + rest, [f] + fates, Record(p, f) + events)
  {
    AccountsOne(p, f);
    AccountsConcat([p], [f], Record(p, f), rest, fates, events);
  }

  lemma PickedCons(p: Poll, f: Fate, polls: seq<Poll>, fates: seq<Fate>, dev: Device, fate: Fate)
    requires |fates| == |polls|
    ensures Picked([p] + polls, [f] + fates, dev, fate) == Pick(p, f, dev, fate) + Picked(polls, fates, dev, fate)
  {
    assert ([p] + polls)[1..] == polls && ([f] + fates)[1..] == fates;
  }

  lemma SwapPicks(a: seq<bv8>, b: seq<bv8>, later: seq<bv8>)
    requires a == [] || b == []
    ensures a + (b + later) == b + (a + later)
  {
  }

  // Two bytes logged in the order opposite to their arrival are still accounted
  // for when they differ in stream or in fate.
  lemma AccountsSwapped(h: Poll, fh: Fate, p: Poll, f: Fate, rest: seq<Poll>, fates: seq<Fate>, events: seq<Event>)
    requires Accounts([h] + rest, [fh] + fates, events)
    requires h.Ready? && p.Ready? ==> h.dev != p.dev || fh != f
    ensures Accounts([h, p] + rest, [fh, f] + fates, Record(p, f) + events)
  {
    assert |rest| == |fates|;
    forall dev, fate
      ensures Picked([h, p] + rest, [fh, f] + fates, dev, fate) == Recorded(Record(p, f) + events, dev, fate)
    {
      AccountsOne(p, f);
      RecordedConcat(Record(p, f), events, dev, fate);
      PickedCons(h, fh, rest, fates, dev, fate);
      PickedCons(p, f, rest, fates, dev, fate);
      PickedCons(h, fh, [p] + rest, [f] + fates, dev, fate);
      assert [h] + ([p] + rest) == [h, p] + rest && [fh] + ([f] + fates) == [fh, f] + fates;
      One(p, f, TimedOut, dev, fate);
      SwapPicks(Pick(h, fh, dev, fate), Pick(p, f, dev, fate), Picked(rest, fates, dev, fate));
    }
  }

  predicate IsNote(e: Event) {
    e.TimedOut? || e.CommandOut? || e.DataOut?
  }

  lemma {:induction false} NotesAccount(notes: seq<Event>)
    requires forall e :: e in notes ==> IsNote(e)
    ensures Accounts([], [], notes)
  {
    if notes != [] {
      NotesAccount(notes[1..]);
      assert IsNote(notes[0]);
      forall dev, fate ensures Recorded(notes, dev, fate) == [] {
        assert Picked([], [], dev, fate) == Recorded(notes[1..], dev, fate);
        assert Mark(notes[0], dev, fate) == [];
      }
    }
  }

  lemma NotesAround(before: seq<Event>, polls: seq<Poll>, fates: seq<Fate>, events: seq<Event>, after: seq<Event>)
    requires Accounts(polls, fates, events)
    requires forall e :: e in before || e in after ==> IsNote(e)
    ensures Accounts(polls, fates, before + events + after)
  {
    NotesAccount(before);
    NotesAccount(after);
    AccountsConcat([], [], before, polls, fates, events);
    assert [] + polls == polls && [] + fates == fates && polls + [] == polls && fates + [] == fates;
    AccountsConcat(polls, fates, before + events, [], [], after);
  }

  /** The polls from port down to rest explain the events; nothing is lost unless
      out-of-order bytes are being ignored. */
  ghost predicate Explains(config: Config, fates: seq<Fate>, port: seq<Poll>, rest: seq<Poll>, events: seq<Event>) {
    && Remains(rest, port)
    && Accounts(Taken(port, rest), fates, events)
    && (!config.ignoreOutOfOrder ==> ToNowhere !in fates)
  }

  lemma {:induction false} ReadAccounts(config: Config, dev: Device, port: seq<Poll>, budget: nat)
      returns (fates: seq<Fate>)
    ensures var r := Read(config, dev, port, budget);
            Explains(config, fates, port, r.rest, r.events)
  {
    var r := Read(config, dev, port, budget);
    if budget == 0 || port == [] {
      fates := [];
      NotesAccount([TimedOut]);
    } else if port[0].Ready? && (config.suppressTimeout || port[0].dev == dev) {
      fates := [ToCommand];
      assert Taken(port, r.rest) == [port[0]];
      AccountsOne(port[0], ToCommand);
    } else {
      var later := ReadAccounts(config, dev, port[1..], Next(port[0], budget));
      var r' := Read(config, dev, port[1..], Next(port[0], budget));
      fates := [ToDriver] + later;
      RemainsTail(r.rest, port);
      AccountsCons(port[0], ToDriver, Taken(port[1..], r'.rest), later, r'.events);
      assert r.events == Record(port[0], ToDriver) + r'.events;
    }
  }

  /** A byte held aside stands before the polls still to come. */
  function Pending(dev: Device, held: Option<bv8>): seq<Poll> {
    match held case None => [] case Some(b) => [Ready(dev, b)]
  }

  function DivertFate(config: Config): Fate {
    if config.ignoreOutOfOrder then ToNowhere else ToDriver
  }

  lemma SettleAccounts(config: Config, dev: Device, expected: bv8, first: bv8, b: bv8) returns (fates: seq<Fate>)
    ensures Accounts([Ready(dev, first), Ready(dev, b)], fates, Settle(config, dev, expected, Some(first), b).1)
    ensures !config.ignoreOutOfOrder ==> ToNowhere !in fates
  {
    var h, p, d := Ready(dev, first), Ready(dev, b), DivertFate(config);
    if b == expected {
      fates := [d, ToCommand];
      AccountsOne(p, ToCommand);
      AccountsCons(h, d, [p], [ToCommand], Record(p, ToCommand));
      assert [h, p] == [h] + [p] && [d, ToCommand] == [d] + [ToCommand];
    } else {
      fates := [ToCommand, d];
      AccountsOne(h, ToCommand);
      assert [h] + [] == [h] && [ToCommand] + [] == [ToCommand];
      AccountsSwapped(h, ToCommand, p, d, [], [], Record(h, ToCommand));
      assert [h, p] + [] == [h, p] && [ToCommand, d] + [] == [ToCommand, d];
    }
  }

  lemma {:induction false} ReadExpectingAccounts(config: Config, dev: Device, expected: bv8, held: Option<bv8>,
                                                 port: seq<Poll>, budget: nat) returns (fates: seq<Fate>)
    ensures var r := ReadExpecting(config, dev, expected, held, port, budget);
            && Remains(r.rest, port)
            && Accounts(Pending(dev, held) + Taken(port, r.rest), fates, r.events)
            && (!config.ignoreOutOfOrder ==> ToNowhere !in fates)
    decreases |port|
  {
    var r := ReadExpecting(config, dev, expected, held, port, budget);
    var h := Pending(dev, held);
    if budget == 0 || port == [] {
      assert h + Taken(port, r.rest) == h;
      if held.None? {
        fates := [];
        NotesAccount([TimedOut]);
      } else {
        fates := [ToCommand];
        AccountsOne(h[0], ToCommand);
      }
    } else if Skipped(dev, expected, held, port[0]) {
      var n := NextHeld(dev, held, port[0]);
      var r' := ReadExpecting(config, dev, expected, n, port[1..], Next(port[0], budget));
      var later := ReadExpectingAccounts(config, dev, expected, n, port[1..], Next(port[0], budget));
      SkipsIt(config, dev, expected, held, port, budget);
      fates := SkipAccounts(config, dev, expected, held, port, budget, r'.rest, later, r'.events);
    } else {
      assert Taken(port, r.rest) == [port[0]];
      if held.None? {
        fates := [ToCommand];
        assert h + [port[0]] == [port[0]];
        AccountsOne(port[0], ToCommand);
      } else {
        fates := SettleAccounts(config, dev, expected, held.value, port[0].data);
        assert h + [port[0]] == [Ready(dev, held.value), Ready(dev, port[0].data)];
      }
    }
  }

  // A poll that does not end the read fits in after the byte held aside.
  lemma InsertFate(h: seq<Poll>, p: Poll, d: Fate, taken: seq<Poll>, later: seq<Fate>, events: seq<Event>)
      returns (fates: seq<Fate>)
    requires |h| <= 1 && Accounts(h + taken, later, events)
    requires h != [] && p.Ready? ==> h[0].Ready? && h[0].dev != p.dev
    ensures Accounts(h + ([p] + taken), fates, Record(p, d) + events)
    ensures forall f :: f in fates ==> f == d || f in later
  {
    if h == [] {
      fates := [d] + later;
      assert h + taken == taken && h + ([p] + taken) == [p] + taken;
      AccountsCons(p, d, taken, later, events);
    } else {
      fates := [later[0], d] + later[1..];
      assert later == [later[0]] + later[1..];
      assert h + taken == [h[0]] + taken && h + ([p] + taken) == [h[0], p] + taken;
      AccountsSwapped(h[0], later[0], p, d, taken, later[1..], events);
    }
  }

  lemma SkipAccounts(config: Config, dev: Device, expected: bv8, held: Option<bv8>, port: seq<Poll>, budget: nat,
                     rest: seq<Poll>, later: seq<Fate>, events: seq<Event>) returns (fates: seq<Fate>)
    requires port != [] && Skipped(dev, expected, held, port[0])
    requires Remains(rest, port[1..])
    requires Accounts(Pending(dev, NextHeld(dev, held, port[0])) + Taken(port[1..], rest), later, events)
    ensures Remains(rest, port)
    ensures Accounts(Pending(dev, held) + Taken(port, rest), fates,
                     (if port[0].Ready? && port[0].dev != dev then [Divert(config, port[0].dev, port[0].data)] else [])
                     + events)
    ensures forall f :: f in fates ==> f == DivertFate(config) || f in later
  {
    var p := port[0];
    var taken := Taken(port[1..], rest);
    RemainsTail(rest, port);
    if Own(p, dev) != [] {
      fates := later;
      assert Pending(dev, held) + ([p] + taken) == Pending(dev, NextHeld(dev, held, p)) + taken;
      assert [] + events == events;
    } else {
      fates := InsertFate(Pending(dev, held), p, DivertFate(config), taken, later, events);
    }
  }

  lemma {:induction false} FlushAccounts(config: Config, port: seq<Poll>) returns (fates: seq<Fate>)
    ensures var (count, rest, events) := Flush(port);
            Explains(config, fates, port, rest, events) && count == |events|
  {
    if port == [] || port[0].NotReady? {
      var rest := Flush(port).1;
      fates := if port == [] then [] else [ToFlush];
      NotesAccount([]);
      if port != [] {
        assert Taken(port, rest) == [port[0]];
        AccountsOne(port[0], ToFlush);
      }
    } else {
      var later := FlushAccounts(config, port[1..]);
      var (count, rest, events) := Flush(port[1..]);
      fates := [ToFlush] + later;
      RemainsTail(rest, port);
      AccountsCons(port[0], ToFlush, Taken(port[1..], rest), later, events);
    }
  }

  lemma ExpectAccounts(config: Config, dev: Device, expected: bv8, port: seq<Poll>, before: seq<Event>)
      returns (fates: seq<Fate>)
    requires forall e :: e in before ==> IsNote(e)
    ensures var r := ReadExpecting(config, dev, expected, None, port, TIMEOUT_COUNTER);
            Explains(config, fates, port, r.rest, before + r.events)
  {
    var r := ReadExpecting(config, dev, expected, None, port, TIMEOUT_COUNTER);
    fates := ReadExpectingAccounts(config, dev, expected, None, port, TIMEOUT_COUNTER);
    assert [] + Taken(port, r.rest) == Taken(port, r.rest);
    NotesAround(before, Taken(port, r.rest), fates, r.events, []);
    assert before + r.events + [] == before + r.events;
  }

  lemma AroundReadAccounts(config: Config, port: seq<Poll>, before: seq<Event>, after: seq<Event>)
      returns (fates: seq<Fate>)
    requires (forall e :: e in before ==> IsNote(e)) && (forall e :: e in after ==> IsNote(e))
    ensures var r := Read(config, Keyboard, port, TIMEOUT_COUNTER);
            Explains(config, fates, port, r.rest, before + r.events + after)
  {
    fates := ReadAccounts(config, Keyboard, port, TIMEOUT_COUNTER);
    var r := Read(config, Keyboard, port, TIMEOUT_COUNTER);
    NotesAround(before, Taken(port, r.rest), fates, r.events, after);
  }

  lemma ModifyAccounts(config: Config, c: Command, e: Engine, port: seq<Poll>) returns (fates: seq<Fate>)
    requires c.op == ModifyCommandByte
    ensures var s := Execute(config, c, e, port); Explains(config, fates, port, s.rest, s.events)
  {
    var r := Read(config, Keyboard, port, TIMEOUT_COUNTER);
    var byte := (r.data | c.setBits) & !c.clearBits;
    fates := AroundReadAccounts(config, port, [CommandOut(GET_COMMAND_BYTE)],
                                [CommandOut(SET_COMMAND_BYTE), DataOut(byte)]);
  }

  lemma PlainReadAccounts(config: Config, c: Command, e: Engine, port: seq<Poll>) returns (fates: seq<Fate>)
    requires c.op == ReadDataPort || c.op == ReadMouseDataPort
    ensures var s := Execute(config, c, e, port); Explains(config, fates, port, s.rest, s.events)
  {
    fates := ReadAccounts(config, if c.op == ReadDataPort then e.mode else Mouse, port, TIMEOUT_COUNTER);
  }

  lemma CompareAccounts(config: Config, c: Command, e: Engine, port: seq<Poll>) returns (fates: seq<Fate>)
    requires c.op.ReadDataPortAndCompare? || c.op.ReadMouseDataPortAndCompare? || c.op.SendMouseCommandAndCompareAck?
    ensures var s := Execute(config, c, e, port); Explains(config, fates, port, s.rest, s.events)
  {
    var s := Execute(config, c, e, port);
    if c.op == SendMouseCommandAndCompareAck {
      fates := ExpectAccounts(config, Mouse, ACKNOWLEDGE, port, [CommandOut(TRANSMIT_TO_MOUSE), DataOut(c.inOrOut)]);
    } else {
      assert [] + s.events == s.events;
      var mode := if c.op == ReadDataPortAndCompare then e.mode else Mouse;
      fates := ExpectAccounts(config, mode, c.inOrOut, port, []);
    }
  }

  lemma ExecuteAccounts(config: Config, c: Command, e: Engine, port: seq<Poll>) returns (fates: seq<Fate>)
    ensures var s := Execute(config, c, e, port); Explains(config, fates, port, s.rest, s.events)
  {
    if c.op.ModifyCommandByte? {
      fates := ModifyAccounts(config, c, e, port);
    } else if c.op.ReadDataPort? || c.op.ReadMouseDataPort? {
      fates := PlainReadAccounts(config, c, e, port);
    } else if c.op.ReadDataPortAndCompare? || c.op.ReadMouseDataPortAndCompare? || c.op.SendMouseCommandAndCompareAck? {
      fates := CompareAccounts(config, c, e, port);
    } else if c.op == FlushDataPort {
      fates := FlushAccounts(config, port);
    } else {
      fates := WriteAccounts(config, port, Execute(config, c, e, port).events);
    }
  }

  lemma WriteAccounts(config: Config, port: seq<Poll>, notes: seq<Event>) returns (fates: seq<Fate>)
    requires forall e :: e in notes ==> IsNote(e)
    ensures Explains(config, fates, port, port, notes)
  {
    fates := [];
    NotesAccount(notes);
  }

  lemma RemainsThrough(a: seq<Poll>, b: seq<Poll>, c: seq<Poll>)
    requires Remains(b, a) && Remains(c, b)
    ensures Remains(c, a) && Taken(a, c) == Taken(a, b) + Taken(b, c)
  {
  }

  lemma {:induction false} ExecuteAllAccounts(config: Config, cs: seq<Command>, e: Engine, port: seq<Poll>)
      returns (fates: seq<Fate>)
    ensures var r := ExecuteAll(config, cs, e, port);
            Explains(config, fates, port, r.rest, r.events)
  {
    if cs == [] {
      fates := [];
      NotesAccount([]);
    } else {
      var s := Execute(config, cs[0], e, port);
      fates := ExecuteAccounts(config, cs[0], e, port);
      if !s.failed {
        var r := ExecuteAll(config, cs[1..], s.engine, s.rest);
        var later := ExecuteAllAccounts(config, cs[1..], s.engine, s.rest);
        RemainsThrough(port, s.rest, r.rest);
        AccountsConcat(Taken(port, s.rest), fates, s.events, Taken(s.rest, r.rest), later, r.events);
        fates := fates + later;
      }
    }
  }

  // Byte conservation over a whole request.  Each polled byte has one fate: it
  // answers a command, is flushed, or is dispatched once, to the driver of its own
  // stream; each driver's bytes are dispatched in arrival order.  A byte is lost
  // only under ignoreOutOfOrder.
  lemma RequestConserves(config: Config, cs: seq<Command>, port: seq<Poll>)
    ensures var r := ExecuteAll(config, cs, START, port);
            && Remains(r.rest, port)
            && (exists fates :: Accounts(Taken(port, r.rest), fates, r.events))
            && (!config.ignoreOutOfOrder ==> forall dev :: Recorded(r.events, dev, ToNowhere) == [])
  {
    var r := ExecuteAll(config, cs, START, port);
    var fates := ExecuteAllAccounts(config, cs, START, port);
    if !config.ignoreOutOfOrder {
      forall dev ensures Recorded(r.events, dev, ToNowhere) == [] {
        NeverPicked(Taken(port, r.rest), fates, dev, ToNowhere);
        assert Picked(Taken(port, r.rest), fates, dev, ToNowhere) == Recorded(r.events, dev, ToNowhere);
      }
    }
  }

  lemma {:induction false} NeverPicked(polls: seq<Poll>, fates: seq<Fate>, dev: Device, fate: Fate)
    requires |fates| == |polls| && fate !in fates
    ensures Picked(polls, fates, dev, fate) == []
  {
    if polls != [] {
      NeverPicked(polls[1..], fates[1..], dev, fate);
    }
  }

  // ---- Answers: the bytes the commands read, the 0 of a timeout included

  function Answers(events: seq<Event>): seq<bv8> {
    if events == [] then []
    else (match events[0]
          case Answered(_, b) => [b]
          case TimedOut => [0]
          case _ => []) + Answers(events[1..])
  }

  predicate Reads(op: Op) {
    op.ReadDataPort? || op.ReadMouseDataPort? || op.ModifyCommandByte? || Compares(op)
  }

  lemma {:induction false} AnswersConcat(a: seq<Event>, b: seq<Event>)
    ensures Answers(a + b) == Answers(a) + Answers(b)
  {
    if a == [] {
      assert a + b == b;
    } else {
      assert (a + b)[1..] == a[1..] + b;
      AnswersConcat(a[1..], b);
    }
  }

  lemma {:induction false} WritesAnswerNothing(notes: seq<Event>)
    requires forall e :: e in notes ==> e.CommandOut? || e.DataOut?
    ensures Answers(notes) == []
  {
    if notes != [] {
      assert notes[0] in notes;
      WritesAnswerNothing(notes[1..]);
    }
  }

  lemma AnswersAround(before: seq<Event>, events: seq<Event>, after: seq<Event>)
    requires forall e :: e in before || e in after ==> e.CommandOut? || e.DataOut?
    ensures Answers(before + events + after) == Answers(events)
  {
    WritesAnswerNothing(before);
    WritesAnswerNothing(after);
    AnswersConcat(before, events);
    AnswersConcat(before + events, after);
  }

  lemma {:induction false} ReadAnswersOnce(config: Config, dev: Device, port: seq<Poll>, budget: nat)
    ensures var r := Read(config, dev, port, budget); Answers(r.events) == [r.data]
  {
    if budget != 0 && port != [] {
      ReadAnswersOnce(config, dev, port[1..], Next(port[0], budget));
    }
  }

  lemma SettleAnswersOnce(config: Config, dev: Device, expected: bv8, held: Option<bv8>, b: bv8)
    ensures var (data, events) := Settle(config, dev, expected, held, b); Answers(events) == [data]
  {
    var (data, events) := Settle(config, dev, expected, held, b);
    if held.Some? {
      assert Answers(events[1..]) == [data];
    }
  }

  lemma {:induction false} ReadExpectingAnswersOnce(config: Config, dev: Device, expected: bv8, held: Option<bv8>,
                                                    port: seq<Poll>, budget: nat)
    ensures var r := ReadExpecting(config, dev, expected, held, port, budget); Answers(r.events) == [r.data]
    decreases |port|
  {
    if budget != 0 && port != [] {
      if Skipped(dev, expected, held, port[0]) {
        var h := NextHeld(dev, held, port[0]);
        SkipsIt(config, dev, expected, held, port, budget);
        ReadExpectingAnswersOnce(config, dev, expected, h, port[1..], Next(port[0], budget));
        AnswersConcat(if port[0].Ready? && port[0].dev != dev then [Divert(config, port[0].dev, port[0].data)] else [],
                      ReadExpecting(config, dev, expected, h, port[1..], Next(port[0], budget)).events);
      } else {
        SettleAnswersOnce(config, dev, expected, held, port[0].data);
      }
    }
  }

  lemma {:induction false} FlushAnswersNone(port: seq<Poll>)
    ensures Answers(Flush(port).2) == []
  {
    if port != [] && port[0].Ready? {
      FlushAnswersNone(port[1..]);
    }
  }

  /** The answer a comparing command asks for. */
  function Wanted(c: Command): bv8 {
    if c.op == SendMouseCommandAndCompareAck then ACKNOWLEDGE else c.inOrOut
  }

  predicate Compares(op: Op) {
    op.ReadDataPortAndCompare? || op.ReadMouseDataPortAndCompare? || op.SendMouseCommandAndCompareAck?
  }

  lemma CompareAnswersOnce(config: Config, c: Command, e: Engine, port: seq<Poll>)
    requires Compares(c.op)
    ensures var s := Execute(config, c, e, port);
            && |Answers(s.events)| == 1
            && (s.failed <==> Answers(s.events)[0] != Wanted(c))
            && (c.op == ReadDataPortAndCompare ==> s.command.inOrOut == Answers(s.events)[0])
  {
    var dev := if c.op == ReadDataPortAndCompare then e.mode else Mouse;
    var r := ReadExpecting(config, dev, Wanted(c), None, port, TIMEOUT_COUNTER);
    ReadExpectingAnswersOnce(config, dev, Wanted(c), None, port, TIMEOUT_COUNTER);
    if c.op == SendMouseCommandAndCompareAck {
      var out := [CommandOut(TRANSMIT_TO_MOUSE), DataOut(c.inOrOut)];
      AnswersAround(out, r.events, []);
      assert Execute(config, c, e, port).events == out + r.events + [];
    }
  }

  lemma PlainAnswersOnce(config: Config, c: Command, e: Engine, port: seq<Poll>)
    requires c.op.ReadDataPort? || c.op.ReadMouseDataPort? || c.op.ModifyCommandByte?
    ensures var s := Execute(config, c, e, port);
            && !s.failed && |Answers(s.events)| == 1
            && Answers(s.events)[0] == if c.op.ModifyCommandByte? then s.command.oldBits else s.command.inOrOut
  {
    if c.op == ModifyCommandByte {
      var r := Read(config, Keyboard, port, TIMEOUT_COUNTER);
      ReadAnswersOnce(config, Keyboard, port, TIMEOUT_COUNTER);
      AnswersAround([CommandOut(GET_COMMAND_BYTE)], r.events,
                    [CommandOut(SET_COMMAND_BYTE), DataOut((r.data | c.setBits) & !c.clearBits)]);
    } else {
      ReadAnswersOnce(config, if c.op == ReadDataPort then e.mode else Mouse, port, TIMEOUT_COUNTER);
    }
  }

  // One read, one answer: a command that reads takes exactly one byte as its
  // answer, a command that compares fails exactly when that byte is not the one it
  // asked for, and no other command takes any.
  lemma OneAnswer(config: Config, c: Command, e: Engine, port: seq<Poll>)
    ensures var s := Execute(config, c, e, port);
            && |Answers(s.events)| == (if Reads(c.op) then 1 else 0)
            && (c.op.ReadDataPort? || c.op.ReadDataPortAndCompare? || c.op.ReadMouseDataPort?
                ==> s.command.inOrOut == Answers(s.events)[0])
            && (c.op.ModifyCommandByte? ==> s.command.oldBits == Answers(s.events)[0])
            && (s.failed <==> Compares(c.op) && Answers(s.events)[0] != Wanted(c))
  {
    if Compares(c.op) {
      CompareAnswersOnce(config, c, e, port);
    } else if Reads(c.op) {
      PlainAnswersOnce(config, c, e, port);
    } else if c.op.FlushDataPort? {
      FlushAnswersNone(port);
    }
  }

  /** The command leaves its answer in one of its fields. */
  predicate Stores(op: Op) {
    op.ReadDataPort? || op.ReadDataPortAndCompare? || op.ReadMouseDataPort? || op.ModifyCommandByte?
  }

  /** An answer, as the command that asked for it ends: stored, if it stores one, and
      the one it wanted exactly if it compares and succeeds. */
  predicate AnswerOf(c: Command, done: Command, succeeded: bool, answer: bv8) {
    && (Stores(c.op) ==> answer == if c.op.ModifyCommandByte? then done.oldBits else done.inOrOut)
    && (Compares(c.op) ==> (succeeded <==> answer == Wanted(c)))
  }

  /** The answers are those of exactly the reading commands executed, in order. */
  predicate AnswersOf(cs: seq<Command>, done: seq<Command>, completed: nat, failed: bool, answers: seq<bv8>)
    requires |done| == |cs| && completed <= |cs| && (failed ==> completed < |cs|)
    decreases |cs|
  {
    if completed == 0 then
      if failed then Compares(cs[0].op) && |answers| == 1 && AnswerOf(cs[0], done[0], false, answers[0])
      else answers == []
    else if Reads(cs[0].op) then
      && answers != [] && AnswerOf(cs[0], done[0], true, answers[0])
      && AnswersOf(cs[1..], done[1..], completed - 1, failed, answers[1..])
    else AnswersOf(cs[1..], done[1..], completed - 1, failed, answers)
  }

  /** The step took one answer if its command reads, and fails only if it compares. */
  predicate TookItsAnswer(c: Command, s: Step) {
    && (if Reads(c.op) then |Answers(s.events)| == 1 && AnswerOf(c, s.command, !s.failed, Answers(s.events)[0])
        else Answers(s.events) == [])
    && (s.failed ==> Compares(c.op))
  }

  lemma AnswersOfCons(c: Command, later: seq<Command>, d: Command, done: seq<Command>, completed: nat, failed: bool,
                      now: seq<bv8>, answers: seq<bv8>)
    requires |done| == |later| && completed <= |later| && (failed ==> completed < |later|)
    requires AnswersOf(later, done, completed, failed, answers)
    requires if Reads(c.op) then |now| == 1 && AnswerOf(c, d, true, now[0]) else now == []
    ensures AnswersOf([c] + later, [d] + done, completed + 1, failed, now + answers)
  {
    assert ([c] + later)[1..] == later && ([d] + done)[1..] == done;
    if Reads(c.op) {
      assert (now + answers)[1..] == answers;
    } else {
      assert now + answers == answers;
    }
  }

  lemma StopsWith(c: Command, later: seq<Command>, s: Step)
    requires TookItsAnswer(c, s) && s.failed
    ensures AnswersOf([c] + later, [s.command] + later, 0, true, Answers(s.events))
  {
  }

  lemma GoesOn(c: Command, later: seq<Command>, s: Step, r: Run)
    requires TookItsAnswer(c, s) && !s.failed && |r.commands| == |later| && r.completed <= |later|
    requires (r.failed ==> r.completed < |later|)
    requires AnswersOf(later, r.commands, r.completed, r.failed, Answers(r.events))
    ensures AnswersOf([c] + later, [s.command] + r.commands, r.completed + 1, r.failed, Answers(s.events + r.events))
  {
    AnswersConcat(s.events, r.events);
    AnswersOfCons(c, later, s.command, r.commands, r.completed, r.failed, Answers(s.events), Answers(r.events));
  }

  // Over a whole request the answers are, in order, those of exactly the commands
  // that read and were executed.
  lemma {:induction false} RequestAnswers(config: Config, cs: seq<Command>, e: Engine, port: seq<Poll>)
    ensures var r := ExecuteAll(config, cs, e, port);
            AnswersOf(cs, r.commands, r.completed, r.failed, Answers(r.events))
    decreases |cs|
  {
    if cs != [] {
      var c, later := cs[0], cs[1..];
      var s := Execute(config, c, e, port);
      assert cs == [c] + later;
      assert TookItsAnswer(c, s) by { OneAnswer(config, c, e, port); }
      if s.failed {
        StopsWith(c, later, s);
      } else {
        RequestAnswers(config, later, s.engine, s.rest);
        GoesOn(c, later, s, ExecuteAll(config, later, s.engine, s.rest));
      }
    }
  }
}
