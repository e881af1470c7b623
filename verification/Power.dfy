/** Sleep and wake of the controller.  The 8042's command byte is a register that
    reads back what was last written; the drivers' power callbacks are given lists
    of what they do: submit requests, change the command byte. */
module Power {

  datatype State = Sleep | Doze | Normal

  datatype Callback = SubmitRequest | ModifyCommandByte(setBits: bv8, clearBits: bv8)

  /** How a request was met: turned away, or processed with that many reasons for
      interrupt handlers to return at once. */
  datatype Handling = Refused | Processed(ignoreInterrupts: int)

  datatype Action = SetPower(to: State, mouse: seq<Callback>, keyboard: seq<Callback>) | Submit

  const ENABLE_IRQS: bv8 := 0x03
  const SYSTEM_FLAG: bv8 := 0x04
  const DISABLE_KEYBOARD_CLOCK: bv8 := 0x10
  const DISABLE_MOUSE_CLOCK: bv8 := 0x20
  const DISABLE_CLOCKS: bv8 := 0x30
  const TRANSLATE_MODE: bv8 := 0x40

  datatype Driver = Mouse | Keyboard

  /** A driver's power callback, and the command byte it finds. */
  datatype Call = Call(driver: Driver, enable: bool, found: bv8)

  datatype Power = Power(state: State, offline: bool, ignoreInterrupts: int, commandByte: bv8, handled: seq<Handling>,
                         calls: seq<Call>)

  /** Between transitions: offline exactly when asleep, interrupts ignored for exactly
      that reason, and no clock running while asleep. */
  predicate AtRest(p: Power) {
    && (p.offline <==> p.state == Sleep)
    && p.ignoreInterrupts == (if p.state == Sleep then 1 else 0)
    && (p.state == Sleep ==> p.commandByte & DISABLE_CLOCKS == DISABLE_CLOCKS)
  }

  /** A byte with bits set, and others cleared whether they were set or not. */
  function Modified(b: bv8, setBits: bv8, clearBits: bv8): bv8 {
    (b | setBits) & !clearBits
  }

  /** The command byte after a list of callbacks. */
  function Byte(cbs: seq<Callback>, b: bv8): bv8 {
    if cbs == [] then b
    else Byte(cbs[1..], match cbs[0]
                        case SubmitRequest => b
                        case ModifyCommandByte(s, c) => Modified(b, s, c))
  }

  function Requests(cbs: seq<Callback>): nat {
    if cbs == [] then 0 else (if cbs[0].SubmitRequest? then 1 else 0) + Requests(cbs[1..])
  }

  function Times(h: Handling, n: nat): seq<Handling> {
    seq(n, _ => h)
  }

  lemma TimesTwice(handled: seq<Handling>, h: Handling, n: nat, m: nat)
    ensures handled + Times(h, n) + Times(h, m) == handled + Times(h, n + m)
  {
  }

  lemma SetOrClear(b: bv8, setBits: bv8, clearBits: bv8)
    ensures setBits == 0 ==> Modified(b, setBits, clearBits) == b & !clearBits
    ensures clearBits == 0 ==> Modified(b, setBits, clearBits) == b | setBits
  {
  }

  /** What the transitions promise, told without their steps: only crossing into or
      out of Sleep calls the drivers, every request they make is processed with
      interrupts ignored, and the command byte ends as stated. */
  function Becomes(p: Power, to: State, first: Driver, firsts: seq<Callback>, seconds: seq<Callback>): Power {
    var served := p.handled + Times(Processed(2), Requests(firsts) + Requests(seconds));
    var second := if first == Mouse then Keyboard else Mouse;
    if p.state != Sleep && to == Sleep then
      var b := p.commandByte & !ENABLE_IRQS;
      Power(Sleep, true, 1, Byte(seconds, Byte(firsts, b)) | DISABLE_CLOCKS, served,
            p.calls + [Call(first, false, b), Call(second, false, Byte(firsts, b))])
    else if p.state == Sleep && to != Sleep then
      var b := ((p.commandByte & !DISABLE_CLOCKS) | TRANSLATE_MODE) & !ENABLE_IRQS;
      Power(to, false, 0, Byte(seconds, Byte(firsts, b)) | ENABLE_IRQS | SYSTEM_FLAG, served,
            p.calls + [Call(first, true, b), Call(second, true, Byte(firsts, b))])
    else p.(state := to)
  }

  class PowerControl {
    var currentPowerState: State
    var hardwareOffline: bool
    var ignoreInterrupts: int
    var commandByte: bv8
    var mouseWakeFirst: bool
    var handled: seq<Handling>
    var calls: seq<Call>

    function View(): Power
      reads this
    {
      Power(currentPowerState, hardwareOffline, ignoreInterrupts, commandByte, handled, calls)
    }

    constructor (commandByte: bv8, mouseWakeFirst: bool)
      ensures AtRest(View()) && View() == Power(Normal, false, 0, commandByte, [], [])
      ensures this.mouseWakeFirst == mouseWakeFirst
    {
      currentPowerState, hardwareOffline, ignoreInterrupts := Normal, false, 0;
      this.commandByte, this.mouseWakeFirst, handled, calls := commandByte, mouseWakeFirst, [], [];
    }

    method SetCommandByte(setBits: bv8, clearBits: bv8) returns (oldBits: bv8)
      modifies this`commandByte, this`ignoreInterrupts
      ensures commandByte == Modified(old(commandByte), setBits, clearBits) && oldBits == old(commandByte)
      ensures ignoreInterrupts == old(ignoreInterrupts)
    {
      ignoreInterrupts := ignoreInterrupts + 1;
      oldBits := commandByte;
      ignoreInterrupts := ignoreInterrupts - 1;
      var newBits := Modified(oldBits, setBits, clearBits);
      if oldBits != newBits {
        commandByte := newBits;
      }
    }

    method SetBits(bits: bv8)
      modifies this`commandByte, this`ignoreInterrupts
      ensures commandByte == old(commandByte) | bits && ignoreInterrupts == old(ignoreInterrupts)
    {
      SetOrClear(commandByte, bits, 0);
      var _ := SetCommandByte(bits, 0);
    }

    method ClearBits(bits: bv8)
      modifies this`commandByte, this`ignoreInterrupts
      ensures commandByte == old(commandByte) & !bits && ignoreInterrupts == old(ignoreInterrupts)
    {
      SetOrClear(commandByte, 0, bits);
      var _ := SetCommandByte(0, bits);
    }

    /** A request at the gate: refused while offline, and otherwise let through to be
        processed, with one more reason to ignore interrupts. */
    method Submit()
      modifies this`handled, this`ignoreInterrupts
      ensures ignoreInterrupts == old(ignoreInterrupts)
      ensures handled == old(handled) + [if hardwareOffline then Refused else Processed(ignoreInterrupts + 1)]
    {
      if hardwareOffline {
        handled := handled + [Refused];
        return;
      }
      ignoreInterrupts := ignoreInterrupts + 1;
      handled := handled + [Processed(ignoreInterrupts)];
      ignoreInterrupts := ignoreInterrupts - 1;
    }

    method DispatchDriverPowerControl(enable: bool, driver: Driver, cbs: seq<Callback>)
      modifies this`commandByte, this`handled, this`ignoreInterrupts, this`calls
      requires !hardwareOffline
      ensures commandByte == Byte(cbs, old(commandByte)) && ignoreInterrupts == old(ignoreInterrupts)
      ensures calls == old(calls) + [Call(driver, enable, old(commandByte))]
      ensures handled == old(handled) + Times(Processed(ignoreInterrupts + 1), Requests(cbs))
    {
      calls := calls + [Call(driver, enable, commandByte)];
      var i := 0;
      ghost var n: nat := 0;
      while i < |cbs|
        invariant i <= |cbs| && ignoreInterrupts == old(ignoreInterrupts)
        invariant calls == old(calls) + [Call(driver, enable, old(commandByte))]
        invariant Byte(cbs[i..], commandByte) == Byte(cbs, old(commandByte))
        invariant n + Requests(cbs[i..]) == Requests(cbs)
        invariant handled == old(handled) + Times(Processed(ignoreInterrupts + 1), n)
      {
        assert cbs[i..][1..] == cbs[i + 1..];
        match cbs[i] {
          case SubmitRequest =>
            Submit();
            n := n + 1;
          case ModifyCommandByte(s, c) =>
            var _ := SetCommandByte(s, c);
        }
        i := i + 1;
      }
    }

    /** Both drivers' callbacks, one after the other. */
    method CallBoth(enable: bool, first: Driver, firsts: seq<Callback>, seconds: seq<Callback>)
      requires !hardwareOffline
      modifies this`commandByte, this`handled, this`ignoreInterrupts, this`calls
      ensures commandByte == Byte(seconds, Byte(firsts, old(commandByte))) && ignoreInterrupts == old(ignoreInterrupts)
      ensures calls == old(calls) + [Call(first, enable, old(commandByte)),
                                     Call(if first == Mouse then Keyboard else Mouse, enable,
                                          Byte(firsts, old(commandByte)))]
      ensures handled == old(handled) + Times(Processed(ignoreInterrupts + 1), Requests(firsts) + Requests(seconds))
    {
      TimesTwice(handled, Processed(ignoreInterrupts + 1), Requests(firsts), Requests(seconds));
      DispatchDriverPowerControl(enable, first, firsts);
      DispatchDriverPowerControl(enable, if first == Mouse then Keyboard else Mouse, seconds);
    }

    /** Full initialisation after wake, as far as the command byte goes. */
    method ResetController()
      modifies this`commandByte
      ensures commandByte == ((old(commandByte) & !DISABLE_CLOCKS) & !ENABLE_IRQS) | TRANSLATE_MODE
    {
      commandByte := commandByte | DISABLE_KEYBOARD_CLOCK;
      commandByte := commandByte | DISABLE_MOUSE_CLOCK;
      commandByte := commandByte & !DISABLE_MOUSE_CLOCK;
      commandByte := commandByte & !DISABLE_KEYBOARD_CLOCK;
      var byte := commandByte & !(ENABLE_IRQS | DISABLE_MOUSE_CLOCK);
      commandByte := byte | TRANSLATE_MODE;
    }

    method GoToSleep(mouse: seq<Callback>, keyboard: seq<Callback>)
      requires AtRest(View()) && currentPowerState != Sleep
      modifies this`hardwareOffline, this`ignoreInterrupts, this`commandByte, this`handled, this`calls
      ensures View().(state := Sleep) == Becomes(old(View()), Sleep, Mouse, mouse, keyboard)
    {
      ignoreInterrupts := ignoreInterrupts + 1;
      ClearBits(ENABLE_IRQS);
      CallBoth(false, Mouse, mouse, keyboard);
      hardwareOffline := true;
      SetBits(DISABLE_CLOCKS);
    }

    method Wake(ghost to: State, first: Driver, firsts: seq<Callback>, seconds: seq<Callback>)
      requires AtRest(View()) && currentPowerState == Sleep && to != Sleep
      modifies this`hardwareOffline, this`ignoreInterrupts, this`commandByte, this`handled, this`calls
      ensures View().(state := to) == Becomes(old(View()), to, first, firsts, seconds)
    {
      ResetController();
      ClearBits(DISABLE_CLOCKS | ENABLE_IRQS);
      hardwareOffline := false;
      CallBoth(true, first, firsts, seconds);
      SetBits(ENABLE_IRQS | SYSTEM_FLAG);
      ignoreInterrupts := ignoreInterrupts - 1;
    }

    /** A transition.  Falling asleep calls the mouse's driver and then the keyboard's,
        the first with both interrupts off, and stops both clocks whatever they do;
        waking calls the keyboard's first unless the mouse is to be, the first with
        interrupts off and clocks running, and turns both interrupts on.  Other
        transitions do nothing. */
    method SetPowerState(to: State, mouse: seq<Callback>, keyboard: seq<Callback>)
      requires AtRest(View())
      modifies this`currentPowerState, this`hardwareOffline, this`ignoreInterrupts, this`commandByte, this`handled,
               this`calls
      ensures AtRest(View()) && View() == Act(old(View()), mouseWakeFirst, SetPower(to, mouse, keyboard))
      ensures Crosses(old(View()), to) ==> Crossed(old(View()), View(), mouseWakeFirst, mouse, keyboard)
      ensures !Crosses(old(View()), to) ==> View() == old(View()).(state := to)
    {
      TransitionLaw(View(), mouseWakeFirst, to, mouse, keyboard);
      if currentPowerState != to {
        if to == Sleep {
          GoToSleep(mouse, keyboard);
        } else if currentPowerState == Sleep {
          if mouseWakeFirst {
            Wake(to, Mouse, mouse, keyboard);
          } else {
            Wake(to, Keyboard, keyboard, mouse);
          }
        }
        currentPowerState := to;
      }
    }
  }

  // ---- What a transition promises, told from the command byte before and after

  /** The transition goes into or out of sleep. */
  predicate Crosses(p: Power, to: State) {
    (p.state == Sleep) != (to == Sleep)
  }

  predicate LeaveByteAlone(cbs: seq<Callback>) {
    forall c :: c in cbs ==> c.SubmitRequest?
  }

  /** Both drivers have been called, in order, the first with the command byte bits
      given clear; the byte ends with the bits required, and as the one it was but for
      those if the callbacks leave it alone. */
  predicate Crossed(p: Power, q: Power, mouseWakeFirst: bool, mouse: seq<Callback>, keyboard: seq<Callback>) {
    && |q.calls| == |p.calls| + 2 && p.calls <= q.calls
    && var c, d := q.calls[|p.calls|], q.calls[|p.calls| + 1];
       && c.enable == d.enable == (p.state == Sleep) && c.driver != d.driver
       && (c.driver == Mouse <==> p.state != Sleep || mouseWakeFirst)
       && c.found & ENABLE_IRQS == 0
       && if p.state != Sleep then
            && q.commandByte & DISABLE_CLOCKS == DISABLE_CLOCKS
            && (LeaveByteAlone(mouse + keyboard) ==> q.commandByte == (p.commandByte & !ENABLE_IRQS) | DISABLE_CLOCKS)
          else
            && c.found & DISABLE_CLOCKS == 0
            && q.commandByte & (ENABLE_IRQS | SYSTEM_FLAG) == ENABLE_IRQS | SYSTEM_FLAG
            && (LeaveByteAlone(mouse + keyboard) ==>
                  q.commandByte == (p.commandByte & !DISABLE_CLOCKS) | ENABLE_IRQS | SYSTEM_FLAG | TRANSLATE_MODE)
  }

  lemma AloneBoth(mouse: seq<Callback>, keyboard: seq<Callback>, b: bv8)
    requires LeaveByteAlone(mouse + keyboard)
    ensures Byte(mouse, Byte(keyboard, b)) == b && Byte(keyboard, Byte(mouse, b)) == b
  {
    assert forall c :: c in mouse ==> c in mouse + keyboard;
    assert forall c :: c in keyboard ==> c in mouse + keyboard;
    ByteUntouched(mouse, b);
    ByteUntouched(keyboard, b);
  }

  lemma BitLaws(b: bv8, c: bv8)
    ensures b & !ENABLE_IRQS & ENABLE_IRQS == 0 && (c | DISABLE_CLOCKS) & DISABLE_CLOCKS == DISABLE_CLOCKS
    ensures (((b & !DISABLE_CLOCKS) | TRANSLATE_MODE) & !ENABLE_IRQS) & (DISABLE_CLOCKS | ENABLE_IRQS) == 0
    ensures (((b & !DISABLE_CLOCKS) | TRANSLATE_MODE) & !ENABLE_IRQS) & DISABLE_CLOCKS == 0
    ensures (((b & !DISABLE_CLOCKS) | TRANSLATE_MODE) & !ENABLE_IRQS) & ENABLE_IRQS == 0
    ensures (c | ENABLE_IRQS | SYSTEM_FLAG) & (ENABLE_IRQS | SYSTEM_FLAG) == ENABLE_IRQS | SYSTEM_FLAG
    ensures (((b & !DISABLE_CLOCKS) | TRANSLATE_MODE) & !ENABLE_IRQS) | ENABLE_IRQS | SYSTEM_FLAG
            == (b & !DISABLE_CLOCKS) | ENABLE_IRQS | SYSTEM_FLAG | TRANSLATE_MODE
  {
  }

  // Every transition keeps that promise, and sleep's and waking's laws with it.
  lemma TransitionLaw(p: Power, mouseWakeFirst: bool, to: State, mouse: seq<Callback>, keyboard: seq<Callback>)
    requires AtRest(p)
    ensures var q := Act(p, mouseWakeFirst, SetPower(to, mouse, keyboard));
            && AtRest(q)
            && (if Crosses(p, to) then Crossed(p, q, mouseWakeFirst, mouse, keyboard) else q == p.(state := to))
  {
    var b := if p.state == Sleep then ((p.commandByte & !DISABLE_CLOCKS) | TRANSLATE_MODE) & !ENABLE_IRQS
             else p.commandByte & !ENABLE_IRQS;
    BitLaws(p.commandByte, Byte(keyboard, Byte(mouse, b)));
    BitLaws(p.commandByte, Byte(mouse, Byte(keyboard, b)));
    if LeaveByteAlone(mouse + keyboard) {
      AloneBoth(mouse, keyboard, b);
    }
  }

  // ---- Over every run

  /** The controller after one action; at wake the keyboard is called first unless
      mouseWakeFirst. */
  function Act(p: Power, mouseWakeFirst: bool, a: Action): Power {
    match a
    case Submit => p.(handled := p.handled + [if p.offline then Refused else Processed(p.ignoreInterrupts + 1)])
    case SetPower(to, mouse, keyboard) =>
      if to == Sleep || mouseWakeFirst then Becomes(p, to, Mouse, mouse, keyboard)
      else Becomes(p, to, Keyboard, keyboard, mouse)
  }

  function Run(p: Power, mouseWakeFirst: bool, actions: seq<Action>): Power
    decreases |actions|
  {
    if actions == [] then p else Run(Act(p, mouseWakeFirst, actions[0]), mouseWakeFirst, actions[1..])
  }

  function StateAfter(state: State, a: Action): State {
    if a.SetPower? then a.to else state
  }

  /** How the requests of one action must be met, told from the ordinals alone:
      refused while asleep, otherwise processed; those made during a transition are
      served with interrupts off on two counts. */
  function MetBy(state: State, a: Action): seq<Handling> {
    match a
    case Submit => [if state == Sleep then Refused else Processed(1)]
    case SetPower(to, mouse, keyboard) =>
      if (state == Sleep) != (to == Sleep) then Times(Processed(2), Requests(mouse) + Requests(keyboard)) else []
  }

  function Met(state: State, actions: seq<Action>): seq<Handling>
    decreases |actions|
  {
    if actions == [] then [] else MetBy(state, actions[0]) + Met(StateAfter(state, actions[0]), actions[1..])
  }

  lemma ActMet(p: Power, mouseWakeFirst: bool, a: Action)
    requires AtRest(p)
    ensures var q := Act(p, mouseWakeFirst, a);
            AtRest(q) && q.state == StateAfter(p.state, a) && q.handled == p.handled + MetBy(p.state, a)
  {
    if a.SetPower? {
      TransitionLaw(p, mouseWakeFirst, a.to, a.mouse, a.keyboard);
    }
  }

  // For every sequence of power ordinals and requests: the invariant holds after
  // each action, and the requests are met as Met says.
  lemma {:induction false} EveryRun(p: Power, mouseWakeFirst: bool, actions: seq<Action>)
    requires AtRest(p)
    ensures var q := Run(p, mouseWakeFirst, actions);
            && AtRest(q) && q.handled == p.handled + Met(p.state, actions)
            && (q.offline <==> q.state == Sleep)
            && (q.state == Sleep ==> q.commandByte & DISABLE_CLOCKS == DISABLE_CLOCKS)
            && p.calls <= q.calls && CallsBy(p.state, mouseWakeFirst, actions, q.calls[|p.calls|..])
    decreases |actions|
  {
    if actions != [] {
      var a := actions[0];
      var next := Act(p, mouseWakeFirst, a);
      ActMet(p, mouseWakeFirst, a);
      if a.SetPower? {
        TransitionLaw(p, mouseWakeFirst, a.to, a.mouse, a.keyboard);
      }
      EveryRun(next, mouseWakeFirst, actions[1..]);
      var q := Run(next, mouseWakeFirst, actions[1..]);
      var now, later := MetBy(p.state, a), Met(next.state, actions[1..]);
      assert p.handled + (now + later) == p.handled + now + later;
      assert q.calls[|p.calls|..][|next.calls| - |p.calls|..] == q.calls[|next.calls|..];
      assert p.calls <= next.calls <= q.calls;
    }
  }

  /** The drivers' callbacks over a run: two for every crossing and none else, in the
      order of the direction, each first one finding both interrupts off. */
  predicate CallsBy(state: State, mouseWakeFirst: bool, actions: seq<Action>, calls: seq<Call>)
    decreases |actions|
  {
    if actions == [] then calls == []
    else
      var a := actions[0];
      if a.SetPower? && (state == Sleep) != (a.to == Sleep) then
        && |calls| >= 2 && calls[0].enable == calls[1].enable == (state == Sleep)
        && calls[0].driver != calls[1].driver && (calls[0].driver == Mouse <==> state != Sleep || mouseWakeFirst)
        && calls[0].found & ENABLE_IRQS == 0
        && CallsBy(a.to, mouseWakeFirst, actions[1..], calls[2..])
      else CallsBy(if a.SetPower? then a.to else state, mouseWakeFirst, actions[1..], calls)
  }

  lemma {:induction false} ByteUntouched(cbs: seq<Callback>, b: bv8)
    requires forall c :: c in cbs ==> c.SubmitRequest?
    ensures Byte(cbs, b) == b
  {
    if cbs != [] {
      assert cbs[0] in cbs;
      ByteUntouched(cbs[1..], b);
    }
  }

  // After every wake both interrupts are enabled, and both clocks run exactly when
  // the callbacks left the clock bits clear, as they do if they leave the byte alone.
  lemma AfterWake(p: Power, to: State, first: Driver, firsts: seq<Callback>, seconds: seq<Callback>)
    requires p.state == Sleep && to != Sleep
    ensures var q := Becomes(p, to, first, firsts, seconds);
            var b := ((p.commandByte & !DISABLE_CLOCKS) | TRANSLATE_MODE) & !ENABLE_IRQS;
            && q.commandByte & ENABLE_IRQS == ENABLE_IRQS
            && (q.commandByte & DISABLE_CLOCKS == 0 <==> Byte(seconds, Byte(firsts, b)) & DISABLE_CLOCKS == 0)
            && (LeaveByteAlone(firsts + seconds) ==> q.commandByte & DISABLE_CLOCKS == 0)
  {
    var b := ((p.commandByte & !DISABLE_CLOCKS) | TRANSLATE_MODE) & !ENABLE_IRQS;
    if LeaveByteAlone(firsts + seconds) {
      AloneBoth(firsts, seconds, b);
    }
  }
}
