/** Middle-button emulation: both buttons pressed together count as the middle one,
    so a single press is held back until the other button or a timer decides. */
module MiddleButton {
  import opened ButtonSet

  datatype State = NoButtons | Middle | Wait4Two | Wait4None | Noop

  datatype From = Passthru | Timer | Trackpad | Cancel

  const LEFT_RIGHT := Buttons(true, true, false)
  const LEFT := Buttons(true, false, false)
  const MIDDLE_BUTTON := Buttons(false, false, true)
  const TWO_TO_THE_64 := 0x1_0000_0000_0000_0000

  predicate Single(b: Buttons) {
    b == Buttons(true, false, false) || b == Buttons(false, true, false)
  }

  /** Left and right are both down. */
  predicate Both(b: Buttons) {
    b.left && b.right
  }

  function OnlyMiddle(b: Buttons): Buttons {
    Buttons(false, false, b.middle)
  }

  predicate Waiting(s: State) {
    s == Wait4Two || s == Wait4None
  }

  datatype Machine = Machine(state: State, pending: Buttons, time: int, armed: bool)

  /** The timer runs exactly while a button is held back, and a press held back for
      its companion is a single left or right one. */
  predicate Consistent(m: Machine) {
    && (m.armed <==> Waiting(m.state))
    && (m.pending != NONE <==> Waiting(m.state))
    && (m.state == Wait4Two ==> Single(m.pending))
  }

  /** The transition table. */
  function Next(s: State, pending: Buttons, buttons: Buttons, from: From, timeout: bool): State {
    if buttons == NONE then NoButtons
    else
      match s
      case NoButtons =>
        if from == Cancel then NoButtons
        else if buttons.middle then Noop
        else if buttons == LEFT_RIGHT then Middle
        else Wait4Two
      case Wait4Two =>
        if !timeout && buttons == LEFT_RIGHT then Middle
        else if timeout || buttons != pending then Noop
        else Wait4Two
      case Middle => if Both(buttons) then Middle else Wait4None
      case Wait4None => if timeout || buttons != pending then Noop else Wait4None
      case Noop => Noop
  }

  /** The buttons shown for the physical ones in a state. */
  function Shown(s: State, buttons: Buttons): Buttons {
    match s
    case Middle => MIDDLE_BUTTON
    case Wait4Two => OnlyMiddle(buttons)
    case Wait4None => OnlyMiddle(buttons)
    case _ => buttons
  }

  /** What is dispatched on the way to a state: a button held back, when the timer
      decides, or when it went up again before anything was decided. */
  function LetGo(m: Machine, buttons: Buttons, from: From, s: State): seq<Buttons> {
    if Waiting(m.state) && s != Middle && !Waiting(s)
       && (from == Timer || (m.state == Wait4Two && !buttons.Meets(m.pending)))
    then [buttons.Join(m.pending)] else []
  }

  class Emulator {
    const enabled: bool
    const maxMiddleClickTime: int
    var state: State
    var pending: Buttons
    var time: int
    var armed: bool
    /** Button values dispatched by the emulation itself. */
    var dispatched: seq<Buttons>

    ghost function View(): Machine
      reads this
    {
      Machine(state, pending, time, armed)
    }

    constructor (enabled: bool, maxMiddleClickTime: int)
      ensures this.enabled == enabled && Consistent(View()) && state == NoButtons && dispatched == []
    {
      this.enabled, this.maxMiddleClickTime := enabled, maxMiddleClickTime;
      state, pending, time, armed, dispatched := NoButtons, NONE, 0, false, [];
    }

    predicate TimedOut(now: int, from: From)
      reads this
    {
      from == Timer || from == Cancel || (now - time) % TWO_TO_THE_64 > maxMiddleClickTime
    }

    method Hold(buttons: Buttons, now: int, s: State)
      modifies this`pending, this`time, this`armed, this`state
      ensures pending == buttons && time == now && armed && state == s
    {
      pending, time, armed, state := buttons, now, true, s;
    }

    method Release(s: State)
      modifies this`pending, this`armed, this`state
      ensures pending == NONE && !armed && state == s
    {
      pending, armed, state := NONE, false, s;
    }

    /** The state moves as the table says; a button held back is dispatched when the
        timer decides, or when it went up again before anything was decided. */
    method HandleButtons(buttons: Buttons, now: int, from: From, ignoreAll: bool) returns (shown: Buttons)
      requires Consistent(View())
      modifies this
      ensures Consistent(View())
      ensures !enabled || (ignoreAll && from == Trackpad) ==>
        shown == buttons && View() == old(View()) && dispatched == old(dispatched)
      ensures enabled && !(ignoreAll && from == Trackpad) ==>
        && state == Next(old(state), old(pending), buttons, from, old(TimedOut(now, from)))
        && shown == Shown(state, buttons)
        && (Waiting(state) && state != old(state) ==> pending == buttons && time == now)
        && (Waiting(state) && state == old(state) ==> pending == old(pending) && time == old(time))
        && dispatched == old(dispatched) + LetGo(old(View()), buttons, from, state)
    {
      shown := buttons;
      if !enabled || (ignoreAll && from == Trackpad) {
        return;
      }
      var timeout := TimedOut(now, from);
      match state {
        case NoButtons =>
          if from != Cancel {
            if buttons.middle {
              state := Noop;
            } else if buttons == LEFT_RIGHT {
              state := Middle;
            } else if buttons != NONE {
              Hold(buttons, now, Wait4Two);
            }
          }
        case Wait4Two =>
          if !timeout && buttons == LEFT_RIGHT {
            Release(Middle);
          } else if timeout || buttons != pending {
            if from == Timer || !buttons.Meets(pending) {
              dispatched := dispatched + [buttons.Join(pending)];
            }
            Release(if buttons == NONE then NoButtons else Noop);
          }
        case Middle =>
          if buttons == NONE {
            state := NoButtons;
          } else if !Both(buttons) {
            Hold(buttons, now, Wait4None);
          }
        case Wait4None =>
          if !timeout && buttons == NONE {
            Release(NoButtons);
          } else if timeout || buttons != pending {
            if from == Timer {
              dispatched := dispatched + [buttons.Join(pending)];
            }
            Release(if buttons == NONE then NoButtons else Noop);
          }
        case Noop =>
          if buttons == NONE {
            state := NoButtons;
          }
      }
      match state {
        case Middle => shown := MIDDLE_BUTTON;
        case Wait4None => shown := OnlyMiddle(buttons);
        case Wait4Two => shown := OnlyMiddle(buttons);
        case _ =>
      }
    }

    /** What the system is told in one step: what the emulation dispatches, then the
        value returned, if the caller passes it on. */
    method Step(input: Input) returns (told: seq<Buttons>)
      requires Consistent(View()) && (input.from == Timer ==> armed)
      modifies this
      ensures Consistent(View())
      ensures enabled && !(input.ignoreAll && input.from == Trackpad) ==>
        && state == Next(old(state), old(pending), input.buttons, input.from, old(TimedOut(input.now, input.from)))
        && (Waiting(state) && state != old(state) ==> pending == input.buttons && time == input.now)
        && told == LetGo(old(View()), input.buttons, input.from, state)
                   + if PassedOn(input) then [Shown(state, input.buttons)] else []
      ensures enabled && old(state) == Wait4Two && state != Wait4Two ==>
        (Reported(old(pending), told) <==> !Swallows(input, old(pending)))
      ensures enabled && old(state) == Wait4Two && state == Wait4Two ==>
        pending == old(pending) && !Reported(old(pending), told)
      ensures enabled && input.from == Timer ==> !Waiting(state)
    {
      var n := |dispatched|;
      var shown := HandleButtons(input.buttons, input.now, input.from, input.ignoreAll);
      told := dispatched[n..] + if PassedOn(input) then [shown] else [];
      assert PassedOn(input) ==> told[|told| - 1] == shown;
      assert |dispatched| > n ==> told[0] == dispatched[n];
    }
  }

  /** A call of the emulation, and whether its caller goes on to dispatch the value
      returned: a packet may be dropped after its buttons have been through the
      emulation, and a touch going down puts them through twice and keeps only the
      second value. */
  datatype Input = Input(buttons: Buttons, now: int, from: From, ignoreAll: bool, used: bool)

  /** The timer's call drops the value, and so does a packet while all are ignored. */
  predicate PassedOn(input: Input) {
    input.used && input.from != Timer && !(input.ignoreAll && input.from == Trackpad)
  }

  /** The press has been told to the system, as itself or as part of a middle click. */
  predicate Reported(press: Buttons, told: seq<Buttons>) {
    exists i :: 0 <= i < |told| && (told[i] == MIDDLE_BUTTON || told[i].Covers(press))
  }

  /** A call that decides about the press and tells nobody: the button is still down,
      so nothing is dispatched, and the value returned is dropped. */
  predicate Swallows(input: Input, press: Buttons) {
    !PassedOn(input) && input.from != Timer && input.buttons.Meets(press)
  }

  /** A series of calls and timer ticks; a tick that finds the timer not armed does not
      happen.  A press held back at the start is reported by the call that decides
      about it, not before, and if and only if that call does not swallow it; until
      then it is still held back. */
  method RunAll(e: Emulator, inputs: seq<Input>) returns (told: seq<seq<Buttons>>, ghost decided: nat)
    requires Consistent(e.View())
    modifies e
    ensures Consistent(e.View()) && |told| == |inputs| && decided <= |inputs|
    ensures e.enabled && old(e.state) == Wait4Two ==>
      && (forall i :: 0 <= i < decided ==> !Reported(old(e.pending), told[i]))
      && (decided == |inputs| ==> e.state == Wait4Two && e.pending == old(e.pending))
      && (decided < |inputs| ==>
            (Reported(old(e.pending), told[decided]) <==> !Swallows(inputs[decided], old(e.pending))))
  {
    told, decided := [], |inputs|;
    for n := 0 to |inputs|
      invariant Consistent(e.View()) && |told| == n && (decided < n || decided == |inputs|)
      invariant e.enabled && old(e.state) == Wait4Two ==>
        && (forall i :: 0 <= i < decided && i < n ==> !Reported(old(e.pending), told[i]))
        && (decided == |inputs| ==> e.state == Wait4Two && e.pending == old(e.pending))
        && (decided < n ==> (Reported(old(e.pending), told[decided]) <==> !Swallows(inputs[decided], old(e.pending))))
    {
      var now: seq<Buttons> := [];
      if inputs[n].from != Timer || e.armed {
        now := e.Step(inputs[n]);
      }
      told := told + [now];
      if decided == |inputs| && e.state != Wait4Two {
        decided := n;
      }
    }
  }

  /** A press that is lost: the left button is held back, the right one comes down in a
      packet that is dropped, and both are up again in the next. */
  method LostPress() returns (e: Emulator, told: seq<Buttons>, later: seq<Buttons>)
    ensures fresh(e) && !Reported(LEFT, told) && !Reported(LEFT, later) && e.state == NoButtons
  {
    e := new Emulator(true, 100);
    var _ := e.Step(Input(LEFT, 0, Trackpad, false, true));
    told := e.Step(Input(LEFT_RIGHT, 10, Trackpad, false, false));
    later := e.Step(Input(NONE, 20, Trackpad, false, true));
  }
}
