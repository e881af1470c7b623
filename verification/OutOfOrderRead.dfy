/** What a read with an expected byte returns and how much it uses up: the design
    of the out-of-order data correction, told from the device's stream alone. */
module OutOfOrderRead {
  import opened Wrappers
  import opened Port8042

  function Next(p: Poll, budget: nat): nat
    requires budget != 0
  {
    if p.NotReady? then budget - 1 else budget
  }

  /** The polls a read can see: up to and including the budget-th empty one. */
  function Visible(port: seq<Poll>, budget: nat): seq<Poll> {
    if budget == 0 || port == [] then []
    else [port[0]] + Visible(port[1..], Next(port[0], budget))
  }

  function Own(p: Poll, dev: Device): seq<bv8> {
    if p.Ready? && p.dev == dev then [p.data] else []
  }

  /** The bytes of dev's stream, in arrival order. */
  function Stream(polls: seq<Poll>, dev: Device): seq<bv8> {
    if polls == [] then [] else Own(polls[0], dev) + Stream(polls[1..], dev)
  }

  lemma StreamCons(p: Poll, polls: seq<Poll>, dev: Device)
    ensures Stream([p] + polls, dev) == Own(p, dev) + Stream(polls, dev)
  {
    assert ([p] + polls)[1..] == polls;
  }

  function Min(a: nat, b: nat): nat {
    if a < b then a else b
  }

  /** rest is what remains of port. */
  predicate Remains(rest: seq<Poll>, port: seq<Poll>) {
    |rest| <= |port| && rest == port[|port| - |rest|..]
  }

  function Taken(port: seq<Poll>, rest: seq<Poll>): seq<Poll>
    requires |rest| <= |port|
  {
    port[..|port| - |rest|]
  }

  /** The answer, told from the byte held aside and the bytes still to come. */
  function SecondChance(expected: bv8, held: Option<bv8>, mine: seq<bv8>): bv8 {
    match held
    case Some(first) => if mine != [] && mine[0] == expected then expected else first
    case None =>
      if mine == [] then 0
      else if |mine| >= 2 && mine[1] == expected then expected
      else mine[0]
  }

  /** How many bytes of the stream are used up to find it. */
  function Uses(expected: bv8, held: Option<bv8>, mine: seq<bv8>): nat {
    Min(|mine|, if held.Some? || (mine != [] && mine[0] == expected) then 1 else 2)
  }

  lemma RemainsTail(rest: seq<Poll>, port: seq<Poll>)
    requires port != [] && Remains(rest, port[1..])
    ensures Remains(rest, port) && Taken(port, rest) == [port[0]] + Taken(port[1..], rest)
  {
  }

  lemma {:induction false} ReadConsumes(config: Config, dev: Device, port: seq<Poll>, budget: nat)
    ensures Remains(Read(config, dev, port, budget).rest, port)
  {
    if budget != 0 && port != [] {
      var next := Next(port[0], budget);
      ReadConsumes(config, dev, port[1..], next);
      RemainsTail(Read(config, dev, port[1..], next).rest, port);
    }
  }

  function NextHeld(dev: Device, held: Option<bv8>, p: Poll): Option<bv8> {
    if held.None? && p.Ready? && p.dev == dev then Some(p.data) else held
  }

  lemma {:induction false} ReadExpectingConsumes(config: Config, dev: Device, expected: bv8, held: Option<bv8>,
                                                 port: seq<Poll>, budget: nat)
    ensures Remains(ReadExpecting(config, dev, expected, held, port, budget).rest, port)
    decreases |port|
  {
    if budget != 0 && port != [] {
      var next := Next(port[0], budget);
      var h := NextHeld(dev, held, port[0]);
      ReadExpectingConsumes(config, dev, expected, h, port[1..], next);
      RemainsTail(ReadExpecting(config, dev, expected, h, port[1..], next).rest, port);
    }
  }

  function Mine(dev: Device, port: seq<Poll>, budget: nat): seq<bv8> {
    Stream(Visible(port, budget), dev)
  }

  lemma MineCons(dev: Device, port: seq<Poll>, budget: nat)
    requires budget != 0 && port != []
    ensures var mine, later := Mine(dev, port, budget), Mine(dev, port[1..], Next(port[0], budget));
            if Own(port[0], dev) == [] then mine == later
            else |mine| == |later| + 1 && mine[0] == port[0].data && mine[1..] == later
  {
    StreamCons(port[0], Visible(port[1..], Next(port[0], budget)), dev);
  }

  /** The poll does not end the read: it is not of the stream, or it is put aside. */
  predicate Skipped(dev: Device, expected: bv8, held: Option<bv8>, p: Poll) {
    Own(p, dev) == [] || (held.None? && p.data != expected)
  }

  // With or without a byte held aside: which byte answers ...
  lemma {:induction false} ReadExpectingAnswer(config: Config, dev: Device, expected: bv8, held: Option<bv8>,
                                               port: seq<Poll>, budget: nat)
    requires held.Some? ==> held.value != expected
    ensures ReadExpecting(config, dev, expected, held, port, budget).data
            == SecondChance(expected, held, Mine(dev, port, budget))
    decreases |port|
  {
    if budget != 0 && port != [] {
      MineCons(dev, port, budget);
      if Skipped(dev, expected, held, port[0]) {
        var h := NextHeld(dev, held, port[0]);
        SkipsIt(config, dev, expected, held, port, budget);
        ReadExpectingAnswer(config, dev, expected, h, port[1..], Next(port[0], budget));
      }
    }
  }

  /** How many bytes of dev's stream are among the first n polls. */
  function Count(dev: Device, port: seq<Poll>, n: nat): nat {
    if n == 0 || port == [] then 0 else |Own(port[0], dev)| + Count(dev, port[1..], n - 1)
  }

  lemma {:induction false} CountIsStream(dev: Device, port: seq<Poll>, n: nat)
    requires n <= |port|
    ensures Count(dev, port, n) == |Stream(port[..n], dev)|
  {
    if n != 0 {
      CountIsStream(dev, port[1..], n - 1);
      StreamCons(port[0], port[1..][..n - 1], dev);
      assert port[..n] == [port[0]] + port[1..][..n - 1];
    }
  }

  // ... and how much of the stream is used up to find it.
  lemma {:induction false} ReadExpectingUses(config: Config, dev: Device, expected: bv8, held: Option<bv8>,
                                             port: seq<Poll>, budget: nat)
    requires held.Some? ==> held.value != expected
    ensures var rest := ReadExpecting(config, dev, expected, held, port, budget).rest;
            Count(dev, port, |port| - |rest|) == Uses(expected, held, Mine(dev, port, budget))
    decreases |port|
  {
    if budget != 0 && port != [] {
      MineCons(dev, port, budget);
      if Skipped(dev, expected, held, port[0]) {
        var h := NextHeld(dev, held, port[0]);
        SkipsIt(config, dev, expected, held, port, budget);
        ReadExpectingUses(config, dev, expected, h, port[1..], Next(port[0], budget));
      } else {
        assert Count(dev, port, 1) == |Own(port[0], dev)| + Count(dev, port[1..], 0);
      }
    }
  }

  lemma SkipsIt(config: Config, dev: Device, expected: bv8, held: Option<bv8>, port: seq<Poll>, budget: nat)
    requires budget != 0 && port != [] && Skipped(dev, expected, held, port[0])
    ensures var r := ReadExpecting(config, dev, expected, held, port, budget);
            var r' := ReadExpecting(config, dev, expected, NextHeld(dev, held, port[0]), port[1..],
                                    Next(port[0], budget));
            r.data == r'.data && r.rest == r'.rest
            && r.events == (if port[0].Ready? && port[0].dev != dev
                            then [Divert(config, port[0].dev, port[0].data)] else [])
                           + r'.events
  {
  }

  // The out-of-order correction as its design states it: the expected byte is
  // found if it is one of the first two of the stream; otherwise the first byte
  // answers, or 0 when there is none.  At most two bytes of the stream are used.
  lemma SecondChanceRead(config: Config, dev: Device, expected: bv8, port: seq<Poll>)
    ensures var r := ReadExpecting(config, dev, expected, None, port, TIMEOUT_COUNTER);
            var mine := Mine(dev, port, TIMEOUT_COUNTER);
            && Remains(r.rest, port)
            && |Stream(Taken(port, r.rest), dev)| <= 2
            && (r.data == expected <==> expected in mine[..Min(2, |mine|)] || (expected == 0 && mine == []))
            && (r.data != expected ==> r.data == if mine == [] then 0 else mine[0])
  {
    ReadExpectingAnswer(config, dev, expected, None, port, TIMEOUT_COUNTER);
    ReadExpectingUses(config, dev, expected, None, port, TIMEOUT_COUNTER);
    ReadExpectingConsumes(config, dev, expected, None, port, TIMEOUT_COUNTER);
    CountIsStream(dev, port, |port| - |ReadExpecting(config, dev, expected, None, port, TIMEOUT_COUNTER).rest|);
    var mine := Mine(dev, port, TIMEOUT_COUNTER);
    FirstTwo(expected, mine);
  }

  /** The bytes a plain read would answer with: those of dev's stream, or, in start-up
      mode, of both. */
  function Heard(config: Config, dev: Device, polls: seq<Poll>): seq<bv8> {
    if polls == [] then []
    else (if config.suppressTimeout && polls[0].Ready? then [polls[0].data] else Own(polls[0], dev))
         + Heard(config, dev, polls[1..])
  }

  lemma HeardCons(config: Config, dev: Device, p: Poll, polls: seq<Poll>)
    ensures Heard(config, dev, [p] + polls)
            == (if config.suppressTimeout && p.Ready? then [p.data] else Own(p, dev)) + Heard(config, dev, polls)
  {
    assert ([p] + polls)[1..] == polls;
  }

  lemma {:induction false} HeardIsStream(config: Config, dev: Device, polls: seq<Poll>)
    requires !config.suppressTimeout
    ensures Heard(config, dev, polls) == Stream(polls, dev)
  {
    if polls != [] {
      HeardIsStream(config, dev, polls[1..]);
    }
  }

  /** The read's answer is the first of what it hears, 0 standing for none, and it uses
      up nothing else of that. */
  predicate FirstOf(config: Config, dev: Device, port: seq<Poll>, heard: seq<bv8>, data: bv8, rest: seq<Poll>) {
    && Remains(rest, port)
    && data == (if heard == [] then 0 else heard[0])
    && Heard(config, dev, Taken(port, rest)) == heard[..Min(1, |heard|)]
  }

  lemma HeardLater(config: Config, dev: Device, port: seq<Poll>, heard: seq<bv8>, data: bv8, rest: seq<Poll>)
    requires port != [] && FirstOf(config, dev, port[1..], heard, data, rest)
    requires Own(port[0], dev) == [] && (config.suppressTimeout ==> port[0].NotReady?)
    ensures FirstOf(config, dev, port, heard, data, rest)
  {
    RemainsTail(rest, port);
    HeardCons(config, dev, port[0], Taken(port[1..], rest));
  }

  lemma HeardNow(config: Config, dev: Device, port: seq<Poll>, later: seq<bv8>)
    requires port != [] && port[0].Ready? && (config.suppressTimeout || port[0].dev == dev)
    ensures FirstOf(config, dev, port, [port[0].data] + later, port[0].data, port[1..])
  {
    assert Taken(port, port[1..]) == [port[0]] + [];
    HeardCons(config, dev, port[0], []);
  }

  // A plain read returns the first byte it hears inside the budget, or 0 when there
  // is none, and uses up nothing else of what it hears.
  lemma {:induction false} FirstRead(config: Config, dev: Device, port: seq<Poll>, budget: nat)
    ensures var r := Read(config, dev, port, budget);
            FirstOf(config, dev, port, Heard(config, dev, Visible(port, budget)), r.data, r.rest)
    decreases |port|
  {
    if budget != 0 && port != [] {
      var p, later, next := port[0], port[1..], Next(port[0], budget);
      HeardCons(config, dev, p, Visible(later, next));
      if p.Ready? && (config.suppressTimeout || p.dev == dev) {
        HeardNow(config, dev, port, Heard(config, dev, Visible(later, next)));
      } else {
        FirstRead(config, dev, later, next);
        var r := Read(config, dev, later, next);
        HeardLater(config, dev, port, Heard(config, dev, Visible(later, next)), r.data, r.rest);
      }
    }
  }

  lemma FirstTwo(expected: bv8, mine: seq<bv8>)
    ensures expected in mine[..Min(2, |mine|)] <==>
            (mine != [] && mine[0] == expected) || (|mine| >= 2 && mine[1] == expected)
  {
    var two := mine[..Min(2, |mine|)];
    assert mine != [] ==> two[0] == mine[0];
    assert |mine| >= 2 ==> two[1] == mine[1];
  }
}
