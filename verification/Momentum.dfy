/** Momentum scrolling: ticks of a timer, each dispatching less than the one before,
    with two remainders carried from tick to tick. */
module Momentum {
  import opened CArith

  /** interval, threshold, multiplier and divisors are configuration. */
  datatype Config = Config(interval: int, threshold: int, multiplier: int, divisor: int, wvdivisor: int) {
    predicate Valid() {
      interval > 0 && divisor > 0
    }

    /** The settings under which the scroll dies down. */
    predicate Damped() {
      Valid() && 0 <= multiplier < divisor
    }
  }

  datatype State = State(current: int, rest1: int, rest2: int) {
    /** The momentum, remainder included. */
    function Momentum(cfg: Config): int {
      cfg.divisor * current + rest1
    }

    /** The remainder is that of a division: small, and of the momentum's sign. */
    predicate Consistent(cfg: Config) {
      Abs(rest1) < cfg.divisor && (current > 0 ==> rest1 >= 0) && (current < 0 ==> rest1 <= 0)
    }
  }

  /** What a tick adds to the scroll distance, in units of the divisor. */
  function Impulse(cfg: Config, current: int): int
    requires cfg.Valid()
  {
    CDiv(current, cfg.interval)
  }

  /** The distance a tick works with, cut to 32 bits. */
  function Distance(cfg: Config, s: State): int
    requires cfg.Valid()
  {
    Int32(Impulse(cfg, s.current) + s.rest2)
  }

  /** The magnitude as 32-bit integers have it: the least one has none. */
  function Magnitude(x: int): int {
    if x < 0 then Int32(-x) else x
  }

  /** The tick dispatches and arms the timer again. */
  predicate Continues(cfg: Config, s: State)
    requires cfg.Valid()
  {
    s.current != 0 && Magnitude(Distance(cfg, s)) > cfg.threshold
  }

  /** The state such a tick leaves. */
  function After(cfg: Config, s: State): State
    requires cfg.Valid()
  {
    var m := cfg.multiplier * s.current + s.rest1;
    State(CDiv(m, cfg.divisor), CMod(m, cfg.divisor),
          if cfg.wvdivisor != 0 then CMod(Distance(cfg, s), cfg.wvdivisor) else 0)
  }

  /** What the ticks of a whole run add, one after the other. */
  function Impulses(cfg: Config, s: State): seq<int>
    requires cfg.Damped() && s.Consistent(cfg)
    decreases Abs(s.Momentum(cfg))
  {
    if !Continues(cfg, s) then []
    else
      AfterSplits(cfg, s);
      MomentumFalls(cfg, s, After(cfg, s));
      [Impulse(cfg, s.current)] + Impulses(cfg, After(cfg, s))
  }

  /** The momentum at each tick of the run. */
  function Currents(cfg: Config, s: State): seq<int>
    requires cfg.Damped() && s.Consistent(cfg)
    decreases Abs(s.Momentum(cfg))
  {
    if !Continues(cfg, s) then []
    else
      AfterSplits(cfg, s);
      MomentumFalls(cfg, s, After(cfg, s));
      [s.current] + Currents(cfg, After(cfg, s))
  }

  /** A momentum, over the interval, without its rest. */
  ghost predicate Shared(interval: int, current: int, impulse: int) {
    exists rest :: Splits(current, interval, impulse, rest)
  }

  ghost predicate AllShared(interval: int, currents: seq<int>, impulses: seq<int>) {
    if currents == [] then impulses == []
    else
      && impulses != [] && Shared(interval, currents[0], impulses[0])
      && AllShared(interval, currents[1..], impulses[1..])
  }

  lemma ImpulseIs(cfg: Config, s: State)
    requires cfg.Valid()
    ensures Shared(cfg.interval, s.current, Impulse(cfg, s.current))
    ensures Distance(cfg, s) == Int32(Impulse(cfg, s.current) + s.rest2)
  {
    CDivMod(s.current, cfg.interval);
    assert Splits(s.current, cfg.interval, Impulse(cfg, s.current), CMod(s.current, cfg.interval));
  }

  // Each tick adds its momentum over the interval, no more and no less; what the
  // division leaves is dropped.
  lemma {:induction false} ImpulsesAre(cfg: Config, s: State)
    requires cfg.Damped() && s.Consistent(cfg)
    ensures AllShared(cfg.interval, Currents(cfg, s), Impulses(cfg, s))
    decreases Abs(s.Momentum(cfg))
  {
    if Continues(cfg, s) {
      AfterSplits(cfg, s);
      MomentumFalls(cfg, s, After(cfg, s));
      ImpulseIs(cfg, s);
      ImpulsesAre(cfg, After(cfg, s));
      SharedCons(cfg.interval, s.current, Impulse(cfg, s.current),
                 Currents(cfg, After(cfg, s)), Impulses(cfg, After(cfg, s)));
    }
  }

  lemma SharedCons(interval: int, current: int, impulse: int, currents: seq<int>, impulses: seq<int>)
    requires Shared(interval, current, impulse) && AllShared(interval, currents, impulses)
    ensures AllShared(interval, [current] + currents, [impulse] + impulses)
  {
    assert ([current] + currents)[1..] == currents && ([impulse] + impulses)[1..] == impulses;
  }

  lemma AfterSplits(cfg: Config, s: State)
    requires cfg.Valid() && s.Consistent(cfg)
    ensures var t := After(cfg, s);
            Splits(cfg.multiplier * s.current + s.rest1, cfg.divisor, t.current, t.rest1) && t.Consistent(cfg)
  {
    CDivMod(cfg.multiplier * s.current + s.rest1, cfg.divisor);
  }

  /** No tick of a run from here works with a distance that has to be cut. */
  predicate Small(cfg: Config, s: State) {
    Abs(s.current) + Abs(s.rest2) < 0x8000_0000 && Abs(s.current) + Abs(cfg.wvdivisor) < 0x8000_0000
  }

  class Scroller {
    const cfg: Config
    var current: int
    var rest1: int
    var rest2: int
    var armed: bool
    /** Scroll distances dispatched. */
    var dispatched: seq<int>

    ghost function View(): State
      reads this
    {
      State(current, rest1, rest2)
    }

    constructor (cfg: Config, current: int)
      requires cfg.Valid()
      ensures this.cfg == cfg && View() == State(current, 0, 0) && armed && dispatched == []
    {
      this.cfg, this.current, rest1, rest2, armed, dispatched := cfg, current, 0, 0, true, [];
    }

    /** The step sent is the whole number of divisors in dy; without a divisor nothing
        is sent and nothing kept. */
    ghost predicate Sends(dy: int, step: int, rest: int) {
      if cfg.wvdivisor != 0 then Splits(dy, cfg.wvdivisor, step, rest) else step == rest == 0
    }

    method Dispatch(dy: int)
      modifies this`dispatched, this`rest2
      ensures exists step :: dispatched == old(dispatched) + [step] && Sends(dy, step, rest2)
      ensures rest2 == if cfg.wvdivisor != 0 then CMod(dy, cfg.wvdivisor) else 0
    {
      var step := if cfg.wvdivisor != 0 then CDiv(dy, cfg.wvdivisor) else 0;
      dispatched := dispatched + [step];
      rest2 := if cfg.wvdivisor != 0 then CMod(dy, cfg.wvdivisor) else 0;
      if cfg.wvdivisor != 0 {
        CDivMod(dy, cfg.wvdivisor);
      }
      assert Sends(dy, step, rest2);
    }

    method Decay()
      requires cfg.Valid()
      modifies this`current, this`rest1
      ensures var m := cfg.multiplier * old(current) + old(rest1);
              current == CDiv(m, cfg.divisor) && rest1 == CMod(m, cfg.divisor)
    {
      assert current * cfg.multiplier == cfg.multiplier * current;
      current := current * cfg.multiplier + rest1;
      rest1 := CMod(current, cfg.divisor);
      current := CDiv(current, cfg.divisor);
    }

    /** One tick.  Above the threshold it dispatches, decays the momentum and arms the
        timer again; otherwise scrolling is over. */
    method OnScrollTimer()
      requires cfg.Valid() && View().Consistent(cfg)
      modifies this
      ensures armed <==> Continues(cfg, old(View()))
      ensures armed ==> View() == After(cfg, old(View())) && View().Consistent(cfg)
      ensures armed ==>
        exists step :: dispatched == old(dispatched) + [step] && Sends(Distance(cfg, old(View())), step, rest2)
      ensures !armed ==> View() == State(0, old(rest1), old(rest2)) && dispatched == old(dispatched)
    {
      ghost var was := View();
      AfterSplits(cfg, was);
      armed := false;
      if current == 0 {
        return;
      }
      var dy := Int32(CDiv(current, cfg.interval) + rest2);
      if Magnitude(dy) > cfg.threshold {
        Dispatch(dy);
        Decay();
        armed := true;
        assert View() == After(cfg, was);
        assert Sends(dy, dispatched[|dispatched| - 1], rest2);
      } else {
        current := 0;
      }
    }

    /** Ticks until the timer is no longer armed: it ends, after at most as many
        dispatches as the momentum is large, and the distances dispatched, with the
        remainder left, are what the ticks added, in 32 bits, and exactly if no
        distance had to be cut. */
    method RunDown()
      requires cfg.Damped() && View().Consistent(cfg) && armed
      modifies this
      ensures !armed && current == 0 && old(dispatched) <= dispatched
      ensures |dispatched| - |old(dispatched)| == |Impulses(cfg, old(View()))| <= Abs(old(View()).Momentum(cfg))
      ensures cfg.wvdivisor != 0 ==>
        var sent := cfg.wvdivisor * Total(dispatched[|old(dispatched)|..]) + rest2;
        var added := Total(Impulses(cfg, old(View()))) + old(rest2);
        Int32(sent) == Int32(added) && (Small(cfg, old(View())) ==> sent == added)
    {
      ghost var start, n, done: seq<int> := View(), |dispatched|, [];
      assert dispatched[n..] == [];
      RunStart(cfg, start);
      while armed
        invariant n <= |dispatched| && dispatched[..n] == old(dispatched)
        invariant Running(cfg, start, armed, View(), done, dispatched[n..])
        decreases armed, if armed then Abs(View().Momentum(cfg)) else 0
      {
        ghost var was, before := View(), dispatched;
        OnScrollTimer();
        if armed {
          ghost var step := dispatched[|before|];
          RunTick(cfg, start, was, done, before[n..], step, View());
          assert dispatched[n..] == before[n..] + [step];
          done := done + [Impulse(cfg, was.current)];
        } else {
          RunStop(cfg, start, was, done, dispatched[n..]);
        }
      }
    }
  }

  /** In the middle of a run: what has been added is the first part of what will be,
      what has been sent agrees with it, and the momentum left bounds what is to come. */
  ghost predicate Running(cfg: Config, start: State, armed: bool, s: State, done: seq<int>, steps: seq<int>) {
    && cfg.Damped() && start.Consistent(cfg) && |steps| == |done|
    && (cfg.wvdivisor != 0 ==>
          Balanced(cfg, start, armed, s, cfg.wvdivisor * Total(steps) + s.rest2, Total(done) + start.rest2))
    && if armed then s.Consistent(cfg) && Impulses(cfg, start) == done + Impulses(cfg, s)
                     && |done| + Abs(s.Momentum(cfg)) <= Abs(start.Momentum(cfg))
       else s.current == 0 && Impulses(cfg, start) == done && |done| <= Abs(start.Momentum(cfg))
  }

  lemma RunStart(cfg: Config, s: State)
    requires cfg.Damped() && s.Consistent(cfg)
    ensures Running(cfg, s, true, s, [], [])
  {
    assert [] + Impulses(cfg, s) == Impulses(cfg, s);
  }

  lemma RunStop(cfg: Config, start: State, s: State, done: seq<int>, steps: seq<int>)
    requires Running(cfg, start, true, s, done, steps) && !Continues(cfg, s)
    ensures Running(cfg, start, false, State(0, s.rest1, s.rest2), done, steps)
  {
    assert done + [] == done;
  }

  lemma RunTick(cfg: Config, start: State, s: State, done: seq<int>, steps: seq<int>, step: int, t: State)
    requires Running(cfg, start, true, s, done, steps) && Continues(cfg, s) && t == After(cfg, s)
    requires cfg.wvdivisor != 0 ==> Splits(Distance(cfg, s), cfg.wvdivisor, step, t.rest2)
    ensures Running(cfg, start, true, t, done + [Impulse(cfg, s.current)], steps + [step])
    ensures Abs(t.Momentum(cfg)) < Abs(s.Momentum(cfg))
  {
    var impulse := Impulse(cfg, s.current);
    AfterSplits(cfg, s);
    MomentumFalls(cfg, s, t);
    assert done + ([impulse] + Impulses(cfg, t)) == done + [impulse] + Impulses(cfg, t);
    TotalSnoc(done, impulse);
    if cfg.wvdivisor != 0 {
      BalancedTick(cfg, start, s, step, cfg.wvdivisor * Total(steps) + s.rest2, Total(done) + start.rest2);
      TotalSnoc(steps, step);
      Distribute(cfg.wvdivisor, Total(steps), step);
    }
  }

  /** What has been sent and what has been added agree in 32 bits, and exactly if the
      run started small, in which case it is small still. */
  ghost predicate Balanced(cfg: Config, start: State, armed: bool, s: State, sent: int, added: int) {
    && Int32(sent) == Int32(added)
    && (Small(cfg, start) ==> sent == added && (armed ==> Small(cfg, s)))
  }

  lemma BalancedTick(cfg: Config, start: State, s: State, step: int, sent: int, added: int)
    requires cfg.Damped() && s.Consistent(cfg) && cfg.wvdivisor != 0 && Balanced(cfg, start, true, s, sent, added)
    requires Splits(Distance(cfg, s), cfg.wvdivisor, step, After(cfg, s).rest2)
    ensures Balanced(cfg, start, true, After(cfg, s), sent + cfg.wvdivisor * step + After(cfg, s).rest2 - s.rest2,
                     added + Impulse(cfg, s.current))
  {
    var x := Impulse(cfg, s.current) + s.rest2;
    var rest := sent - s.rest2;
    // What is sent grows by the cut distance in place of the distance.
    CutOnce(x, rest);
    CutOnce(sent, Impulse(cfg, s.current));
    CutOnce(added, Impulse(cfg, s.current));
    assert x + rest == sent + Impulse(cfg, s.current);
    CurrentFalls(cfg, s);
    ImpulseSmall(cfg, s.current);
  }

  lemma ImpulseSmall(cfg: Config, current: int)
    requires cfg.Valid()
    ensures Abs(Impulse(cfg, current)) <= Abs(current)
  {
    var a, q := Abs(current), Abs(current) / cfg.interval;
    Euclid(a, cfg.interval);
    MultiplyMonotone(q, 1, cfg.interval);
  }

  lemma CurrentFalls(cfg: Config, s: State)
    requires cfg.Damped() && s.Consistent(cfg)
    ensures Abs(After(cfg, s).current) <= Abs(s.current)
  {
    var m, d, c, t := cfg.multiplier, cfg.divisor, Abs(s.current), After(cfg, s);
    AfterSplits(cfg, s);
    if s.current != 0 {
      MomentumFalls(cfg, s, t);
      Larger(d, t.current, t.rest1, s.current, s.rest1);
    } else {
      SmallMultiple(d, t.current);
    }
  }

  // Of two divisions with remainder, the one of the smaller value has no larger quotient.
  lemma Larger(d: int, q: int, r: int, q': int, r': int)
    requires d > 0 && Abs(r) < d && Abs(r') < d && Abs(d * q + r) < Abs(d * q' + r')
    requires (q > 0 ==> r >= 0) && (q < 0 ==> r <= 0)
    ensures Abs(q) <= Abs(q')
  {
    var a: int, b: int := Abs(q), Abs(q');
    Magnitudes(d, q);
    Magnitudes(d, q');
    Subtract(d, a, b + 1);
    Distribute(d, b, 1);
    MultipleApart(d, a - b - 1);
  }

  lemma Magnitudes(d: int, q: int)
    requires d > 0
    ensures Abs(d * q) == d * Abs(q)
  {
    if q < 0 {
      assert d * q == -(d * -q);
    }
    MultiplyMonotone(d, 0, Abs(q));
  }

  lemma Distribute(m: int, a: int, b: int)
    ensures m * (a + b) == m * a + m * b
  {
  }

  function Total(s: seq<int>): int {
    if s == [] then 0 else s[0] + Total(s[1..])
  }

  lemma {:induction false} TotalSnoc(s: seq<int>, x: int)
    ensures Total(s + [x]) == Total(s) + x
  {
    if s != [] {
      assert (s + [x])[1..] == s[1..] + [x];
      TotalSnoc(s[1..], x);
    }
  }

  // Each tick that arms the timer again leaves strictly less momentum.
  lemma MomentumFalls(cfg: Config, s: State, t: State)
    requires cfg.Damped() && s.Consistent(cfg) && s.current != 0
    requires t.Momentum(cfg) == cfg.multiplier * s.current + s.rest1
    ensures Abs(t.Momentum(cfg)) < Abs(s.Momentum(cfg))
  {
    var m, d, c := cfg.multiplier, cfg.divisor, Abs(s.current);
    assert m * c < d * c && 0 <= m * c by {
      assert d * c - m * c == (d - m) * c;
      MultipleApart(c, d - m);
      assert (d - m) * c == c * (d - m);
    }
    if s.current > 0 {
      assert m * s.current == m * c && d * s.current == d * c;
    } else {
      assert m * s.current == -(m * c) && d * s.current == -(d * c);
    }
  }
}
