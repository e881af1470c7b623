/** The touch state machine: from touches and timers to pointer motion, scrolling,
    drags and swipes. */
module Gestures {
  import opened Wrappers
  import opened CArith
  import opened ButtonSet
  import opened TouchCore
  import Filters

  const HISTORY := 32
  const MOVE_AFTER := 100000000
  /** No movement turns back on the one before. */
  ghost predicate OneWay(movements: seq<int>) {
    forall i, j :: 0 <= i < |movements| && 0 <= j < |movements| ==> (movements[i] < 0 <==> movements[j] < 0)
  }

  /** A scroll distance that is sent on: scrolling is on and the threshold is reached. */
  predicate Scrolls(total: int, unit: int, threshold: int) {
    unit != 0 && total != 0 && Abs(total) >= threshold
  }

  /** The units sent and the rest kept of a scroll distance: nothing is sent below the
      threshold, and nothing kept when scrolling is off. */
  ghost predicate ScrollsBy(total: int, unit: int, threshold: int, sent: int, rest: int) {
    if unit == 0 then sent == 0 && rest == 0
    else if Abs(total) < threshold then sent == 0 && rest == total
    else Splits(total, unit, sent, rest)
  }

  function Units(total: int, unit: int, threshold: int): int {
    if Scrolls(total, unit, threshold) then CDiv(total, unit) else 0
  }

  // One axis of a scroll: d is what is left of the total to send, rest what is kept.
  lemma AxisScrolls(total: int, unit: int, threshold: int, d: int, rest: int)
    requires unit == 0 ==> d == rest == 0
    requires unit != 0 ==>
      if Abs(total) < threshold then d == 0 && rest == total else d == total && rest == CMod(total, unit)
    ensures ScrollsBy(total, unit, threshold, Units(total, unit, threshold), rest)
    ensures Scrolls(total, unit, threshold) <==> d != 0
    ensures unit != 0 ==>
      CDiv(d, unit) == Units(total, unit, threshold) && CDiv(-d, unit) == -Units(total, unit, threshold)
  {
    if unit != 0 {
      CDivMod(total, unit);
    }
  }

  // ---- Swipes

  datatype Swipe = Up | Down | Left | Right | Up4 | Down4 | Left4 | Right4

  /** What happened, as far as swipes go: a message sent to the keyboard driver, or the
      fingers lifted. */
  datatype Mark = Sent(swipe: Swipe) | Lifted

  /** Where the fingers go, right and up. */
  function Way(s: Swipe): (int, int) {
    match s
    case Up => (0, 1) case Up4 => (0, 1)
    case Down => (0, -1) case Down4 => (0, -1)
    case Left => (-1, 0) case Left4 => (-1, 0)
    case Right => (1, 0) case Right4 => (1, 0)
  }

  function Fingers(s: Swipe): nat {
    if s.Up? || s.Down? || s.Left? || s.Right? then 3 else 4
  }

  function Opposite(s: Swipe): Swipe {
    match s
    case Up => Down case Down => Up case Left => Right case Right => Left
    case Up4 => Down4 case Down4 => Up4 case Left4 => Right4 case Right4 => Left4
  }

  /** The four-finger swipe the same way. */
  function Four(s: Swipe): Swipe {
    match s case Up => Up4 case Down => Down4 case Left => Left4 case Right => Right4 case _ => s
  }

  /** The three-finger swipe the same way. */
  function Three(s: Swipe): Swipe {
    match s case Up4 => Up case Down4 => Down case Left4 => Left case Right4 => Right case _ => s
  }

  /** The marks that end a swipe, so that it may be told again: a lift, as many fingers
      going the other way, or more of them going the same way. */
  predicate Ends(m: Mark, s: Swipe) {
    m == Lifted
    || (Fingers(m.swipe) == Fingers(s) && Way(m.swipe) == (-Way(s).0, -Way(s).1))
    || (Fingers(m.swipe) > Fingers(s) && Way(m.swipe) == Way(s))
  }

  /** The swipe has been told and not ended since. */
  predicate Active(marks: seq<Mark>, s: Swipe) {
    if marks == [] then false
    else
      var last := marks[|marks| - 1];
      if last == Sent(s) then true
      else !Ends(last, s) && Active(marks[..|marks| - 1], s)
  }

  /** No swipe is told while it is active. */
  ghost predicate ToldOnce(marks: seq<Mark>) {
    forall i :: 0 <= i < |marks| && marks[i].Sent? ==> !Active(marks[..i], marks[i].swipe)
  }

  lemma ActiveSnoc(marks: seq<Mark>, m: Mark, s: Swipe)
    ensures Active(marks + [m], s) <==> m == Sent(s) || (!Ends(m, s) && Active(marks, s))
  {
    assert (marks + [m])[..|marks|] == marks;
  }

  lemma ToldOnceSnoc(marks: seq<Mark>, m: Mark)
    requires ToldOnce(marks) && (m.Sent? ==> !Active(marks, m.swipe))
    ensures ToldOnce(marks + [m])
  {
    forall i | 0 <= i <= |marks| ensures (marks + [m])[..i] == marks[..i] {}
    assert marks[..|marks|] == marks;
  }

  lemma {:induction false} ActiveUnlessEnded(marks: seq<Mark>, i: nat, s: Swipe)
    requires i < |marks| && marks[i] == Sent(s) && forall k :: i < k < |marks| ==> !Ends(marks[k], s)
    ensures Active(marks, s)
    decreases |marks|
  {
    if i < |marks| - 1 {
      ActiveUnlessEnded(marks[..|marks| - 1], i, s);
    }
  }

  // Between two messages of the same swipe there is one that ends it: its opposite,
  // the four-finger swipe the same way, or a lift.
  lemma SwipesAlternate(marks: seq<Mark>, i: nat, j: nat, s: Swipe)
    requires ToldOnce(marks) && i < j < |marks| && marks[i] == Sent(s) && marks[j] == Sent(s)
    ensures exists k :: i < k < j && Ends(marks[k], s)
  {
    if forall k :: i < k < j ==> !Ends(marks[k], s) {
      ActiveUnlessEnded(marks[..j], i, s);
    }
  }

  // A swipe and its opposite are never both active.
  lemma {:induction false} OppositesExclude(marks: seq<Mark>, s: Swipe)
    ensures !(Active(marks, s) && Active(marks, Opposite(s)))
    decreases |marks|
  {
    if marks != [] {
      OppositesExclude(marks[..|marks| - 1], s);
    }
  }

  /** The flags after a swipe is told: it is set, what it ends is cleared. */
  function Flags(inSwipe: set<Swipe>, s: Swipe): set<Swipe> {
    (set t | t in inSwipe && !Ends(Sent(s), t)) + {s}
  }

  // Telling a swipe clears its opposite and, for four fingers, the three-finger form.
  lemma FlagsAre(inSwipe: set<Swipe>, s: Swipe)
    ensures Flags(inSwipe, s) == inSwipe - {Opposite(s), Three(s)} + {s}
  {
  }

  /** The fingers have moved far enough, right and up, for a swipe that may be told. */
  predicate Due(cfg: Config, inSwipe: set<Swipe>, s: Swipe, right: int, up: int) {
    && s !in inSwipe && Four(s) !in inSwipe
    && right * Way(s).0 + up * Way(s).1 > (if Vertical(s) then cfg.swipeY else cfg.swipeX)
    && (Fingers(s) == 3 ==> if Vertical(s) then cfg.verticalSwipe else cfg.horizontalSwipe)
  }

  predicate Vertical(s: Swipe) {
    Way(s).1 != 0
  }

  // ---- The state machine

  class StateMachine {
    const cfg: Config
    /** What taps and drags depend on, held as one value. */
    var touch: Core
    var lastX: int
    var lastY: int
    var lastFingers: nat
    var xRest: int
    var yRest: int
    var keyTime: int
    var wasScroll: bool
    var ignoreAll: bool
    var ignoreDeltas: nat
    var ignoreSingle: nat
    var xMoved: int
    var yMoved: int
    var inSwipe: set<Swipe>
    var momentum: int
    var momentumInterval: int
    var dyHistory: seq<int>
    var timeHistory: seq<int>
    /** Swipe messages sent and lifts, pointer motions and scrolls dispatched. */
    var marks: seq<Mark>
    var motions: seq<Motion>
    /** The mode each motion was made in. */
    ghost var during: seq<Mode>
    var scrolls: seq<(int, int)>

    ghost predicate SwipesTold()
      reads this`marks, this`inSwipe
    {
      ToldOnce(marks) && forall s :: s in inSwipe <==> Active(marks, s)
    }

    /** What else matters for them when a packet comes. */
    function Around(p: Packet): Setting
      reads this`keyTime, this`lastFingers, this`momentum, this`touch, this`ignoreSingle
    {
      Setting(keyTime, lastFingers, momentum != 0,
              lastFingers == 1 && Counted(cfg, p) == 1 && !cfg.sticky && !touch.debounce && ignoreSingle == 0)
    }

    /** A drag goes on without a touch only if it is locked or its timer is running. */
    ghost predicate DragHeld()
      reads this`touch
    {
      touch.mode == DragNoTouch ==> cfg.dragLock || touch.lockTemp || touch.timed
    }

    /** Valid between packets. */
    ghost predicate Steady()
      reads this`marks, this`inSwipe, this`touch, this`motions, this`during
    {
      && cfg.Valid() && SwipesTold() && DragHeld() && |during| == |motions|
      && (touch.mode == DragNoTouch || touch.mode == DragLock ==> motions != [] && LastMotion().buttons.left)
    }

    constructor (cfg: Config)
      requires cfg.Valid()
      ensures Steady() && this.cfg == cfg && marks == [] && motions == [] && touch.mode == NoTouch
    {
      this.cfg := cfg;
      touch := Core(NoTouch, Tap(0, 0, 0, false, false), 0, false, false, false);
      lastX, lastY, lastFingers, xRest, yRest, keyTime, wasScroll := 0, 0, 0, 0, 0, 0, false;
      ignoreAll, ignoreDeltas, ignoreSingle, xMoved, yMoved, inSwipe := false, 0, 0, 0, 0, {};
      momentum, momentumInterval, dyHistory, timeHistory := 0, 0, [], [];
      marks, motions, scrolls, during := [], [], [], [];
    }

    // -- Swipes

    method Tell(s: Swipe)
      requires SwipesTold() && s !in inSwipe
      modifies this`inSwipe, this`marks
      ensures SwipesTold() && inSwipe == Flags(old(inSwipe), s) && marks == old(marks) + [Sent(s)]
    {
      FlagsAre(inSwipe, s);
      forall t: Swipe ensures Active(marks + [Sent(s)], t) <==> t == s || (!Ends(Sent(s), t) && Active(marks, t)) {
        ActiveSnoc(marks, Sent(s), t);
      }
      ToldOnceSnoc(marks, Sent(s));
      inSwipe := inSwipe - {Opposite(s), Three(s)} + {s};
      marks := marks + [Sent(s)];
    }

    method SwipeDue(four: bool) returns (due: Option<Swipe>)
      ensures due.None? ==> forall s :: (Fingers(s) == 4 <==> four) ==> !Due(cfg, inSwipe, s, -xMoved, yMoved)
      ensures due.Some? ==> (Fingers(due.value) == 4 <==> four) && Due(cfg, inSwipe, due.value, -xMoved, yMoved)
      ensures due.Some? && !Vertical(due.value) ==>
        forall v :: Vertical(v) && (Fingers(v) == 4 <==> four) ==> !Due(cfg, inSwipe, v, -xMoved, yMoved)
    {
      var up, down, left, right := if four then Up4 else Up, if four then Down4 else Down,
                                   if four then Left4 else Left, if four then Right4 else Right;
      if yMoved > cfg.swipeY && up !in inSwipe && Up4 !in inSwipe && (four || cfg.verticalSwipe) {
        return Some(up);
      }
      if yMoved < -cfg.swipeY && down !in inSwipe && Down4 !in inSwipe && (four || cfg.verticalSwipe) {
        return Some(down);
      }
      if xMoved < -cfg.swipeX && right !in inSwipe && Right4 !in inSwipe && (four || cfg.horizontalSwipe) {
        return Some(right);
      }
      if xMoved > cfg.swipeX && left !in inSwipe && Left4 !in inSwipe && (four || cfg.horizontalSwipe) {
        return Some(left);
      }
      return None;
    }

    /** One step of a multi-finger movement: a swipe that is due is told, a vertical one
        first, and its distance starts again; without one the distances add up. */
    method MoveFingers(x: int, y: int, four: bool) returns (ghost told: Option<Swipe>)
      requires SwipesTold()
      modifies this`inSwipe, this`marks, this`xMoved, this`yMoved
      ensures SwipesTold()
      ensures var left, up := old(xMoved) + lastX - x, old(yMoved) + y - lastY;
        match told
        case None =>
          && inSwipe == old(inSwipe) && marks == old(marks) && xMoved == left && yMoved == up
          && forall s :: (Fingers(s) == 4 <==> four) ==> !Due(cfg, inSwipe, s, -left, up)
        case Some(s) =>
          && (Fingers(s) == 4 <==> four) && Due(cfg, old(inSwipe), s, -left, up)
          && inSwipe == Flags(old(inSwipe), s) && marks == old(marks) + [Sent(s)]
          && xMoved == (if Vertical(s) then left else 0) && yMoved == (if Vertical(s) then 0 else up)
          && (!Vertical(s) ==> forall v :: Vertical(v) && (Fingers(v) == 4 <==> four) ==>
                !Due(cfg, old(inSwipe), v, -left, up))
    {
      xMoved := xMoved + lastX - x;
      yMoved := yMoved + y - lastY;
      var swipe := SwipeDue(four);
      told := swipe;
      if swipe.Some? {
        Tell(swipe.value);
        if Vertical(swipe.value) {
          yMoved := 0;
        } else {
          xMoved := 0;
        }
      }
    }

    // -- A packet, section by section

    /** What was collected during the touch is forgotten, swipes included. */
    method ForgetTouch(now: int)
      requires SwipesTold()
      modifies this`xRest, this`yRest, this`inSwipe, this`marks, this`xMoved, this`yMoved, this`touch
      ensures SwipesTold() && marks == old(marks) + [Lifted] && inSwipe == {}
      ensures xRest == yRest == xMoved == yMoved == 0 && touch == old(touch).(untouched := now)
    {
      forall t: Swipe ensures !Active(marks + [Lifted], t) {
        ActiveSnoc(marks, Lifted, t);
      }
      ToldOnceSnoc(marks, Lifted);
      xRest, yRest, xMoved, yMoved, inSwipe := 0, 0, 0, 0, {};
      marks := marks + [Lifted];
      touch := touch.(untouched := now);
    }

    /** A lift out of several fingers, or of scrolling, after enough movements that took
        some time, leaves momentum: the timer's interval times their sum in 32 bits. */
    twostate predicate Flies()
      reads this
    {
      var n := |old(timeHistory)|;
      var flung := (old(touch.mode) == MTouch || old(touch.mode) == VScroll) && cfg.momentumScroll
                   && cfg.momentumTimer != 0 && |old(dyHistory)| > cfg.momentumSamples;
      && momentumInterval == (if !flung then old(momentumInterval)
                              else if n == 0 then 0 else old(timeHistory)[n - 1] - old(timeHistory)[0])
      && momentum == (if flung && momentumInterval != 0 then cfg.momentumTimer * Int32(Filters.Sum(old(dyHistory)))
                      else old(momentum))
    }

    /** A lift out of scrolling may leave momentum. */
    method StartMomentum()
      modifies this`momentum, this`momentumInterval, this`dyHistory, this`timeHistory
      ensures dyHistory == [] && timeHistory == [] && Flies()
    {
      if (touch.mode == MTouch || touch.mode == VScroll) && cfg.momentumScroll && cfg.momentumTimer != 0 {
        if |dyHistory| > cfg.momentumSamples {
          momentumInterval := if timeHistory == [] then 0 else timeHistory[|timeHistory| - 1] - timeHistory[0];
          if momentumInterval != 0 {
            momentum := cfg.momentumTimer * Int32(Filters.Sum(dyHistory));
          }
        }
      }
      timeHistory, dyHistory := [], [];
    }

    /** The collected movements are spent on momentum, and the touch forgotten. */
    method EndTouch(now: int)
      requires SwipesTold()
      modifies this`xRest, this`yRest, this`inSwipe, this`marks, this`xMoved, this`yMoved, this`touch,
               this`momentum, this`momentumInterval, this`dyHistory, this`timeHistory
      ensures SwipesTold() && marks == old(marks) + [Lifted] && inSwipe == {}
      ensures xRest == yRest == xMoved == yMoved == 0 && touch == old(touch).(untouched := now)
      ensures Flies()
    {
      ForgetTouch(now);
      StartMomentum();
    }

    /** The mode after a lift, its click, and the memory for taps. */
    method LeaveTouch(now: int, buttons: Buttons) returns (down: Buttons)
      requires touch.mode.Touching() && touch.untouched == now
      modifies this`touch, this`motions
      ensures touch == AfterLift(cfg, old(touch), now)
      ensures down == LiftButtons(cfg, old(touch), now, buttons)
      ensures motions == old(motions) + DragClick(cfg, old(touch), now)
    {
      down := buttons;
      if Short(cfg, touch.tap, now) {
        down := ClickTap(buttons);
      } else if (touch.mode == Drag || touch.mode == DragLock) && Outlives(cfg, touch.lockTemp) {
        touch := touch.(mode := DragNoTouch);
        if !cfg.dragLock && !touch.lockTemp {
          touch := touch.(timed := true);
        }
      } else {
        touch := touch.(mode := NoTouch, lockTemp := false);
      }
      touch := touch.(tap := touch.tap.(double := false, triple := false));
    }

    /** A quick tap: its click, and the mode it leads to. */
    method ClickTap(buttons: Buttons) returns (down: Buttons)
      requires touch.mode.Touching()
      modifies this`touch, this`motions
      ensures touch == old(touch).(mode := LiftMode(cfg, old(touch.mode), true,
                                                   cfg.rightTap && (touch.tap.double || touch.tap.triple), false))
      ensures down == (if old(touch.mode) == DragLock then buttons
                       else Tapped(cfg, touch.tap.double, touch.tap.triple,
                                   if old(touch.mode) == Drag && !cfg.immediateClick then NONE else buttons))
      ensures motions == old(motions) + (if old(touch.mode) == Drag && !cfg.immediateClick then LEFT_CLICK else [])
    {
      down := buttons;
      if touch.mode == Drag {
        if !cfg.immediateClick {
          down := NONE;
          motions := motions + [Motion(0, 0, down.(left := true)), Motion(0, 0, down)];
        }
        down := Tapped(cfg, touch.tap.double, touch.tap.triple, down);
        touch := touch.(mode := NoTouch);
      } else if touch.mode == DragLock {
        touch := touch.(mode := NoTouch);
      } else {
        down := Tapped(cfg, touch.tap.double, touch.tap.triple, down);
        touch := touch.(mode := if !cfg.dragging || ((touch.tap.triple || touch.tap.double) && cfg.rightTap)
                                then NoTouch else PreDrag);
      }
    }

    /** The fingers have gone: everything about the touch is forgotten, and the mode
        becomes one without touch. */
    method Lift(now: int, buttons: Buttons) returns (down: Buttons)
      requires SwipesTold() && touch.mode.Touching()
      modifies this`touch, this`xRest, this`yRest, this`inSwipe, this`marks, this`xMoved, this`yMoved,
               this`momentum, this`momentumInterval, this`dyHistory, this`timeHistory, this`motions
      ensures SwipesTold() && marks == old(marks) + [Lifted] && inSwipe == {}
      ensures xRest == yRest == xMoved == yMoved == 0
      ensures Flies()
      ensures touch == AfterLift(cfg, old(touch), now)
      ensures down == LiftButtons(cfg, old(touch), now, buttons)
      ensures motions == old(motions) + DragClick(cfg, old(touch), now)
    {
      EndTouch(now);
      down := LeaveTouch(now, buttons);
    }

    /** The packet moves the pointer: same fingers, not pressed too hard nor too early in
        the touch, not the first after scrolling, and not too far. */
    predicate Tracks(x: int, y: int, z: int, fingers: nat, now: int)
      reads this`lastX, this`lastY, this`lastFingers, this`touch, this`wasScroll, this`xRest, this`yRest
    {
      && lastFingers == fingers && z <= cfg.zLimit && Since(now, touch.tap.time) > MOVE_AFTER && !wasScroll
      && Abs(x - lastX + xRest) <= cfg.bogusX && Abs(lastY - y + yRest) <= cfg.bogusY
    }

    /** How far the finger has gone, right and down, with what was kept back. */
    function Shift(x: int, y: int): (int, int)
      reads this`lastX, this`lastY, this`xRest, this`yRest
    {
      (x - lastX + xRest, lastY - y + yRest)
    }

    /** The pointer moves by what the distance makes in units, the rest being kept. */
    ghost predicate Moves(shift: (int, int), dx: int, dy: int, xRest: int, yRest: int)
      requires cfg.Valid()
    {
      && Splits(shift.0, cfg.divisorX, CDiv(dx, cfg.divisorX), xRest)
      && Splits(shift.1, cfg.divisorY, CDiv(dy, cfg.divisorY), yRest)
    }

    /** Motion in a moving or dragging mode.  When it is tracked, the distance kept back
        is what the divisor leaves; otherwise nothing moves. */
    method TrackMotion(x: int, y: int, z: int, fingers: nat, now: int) returns (dx: int, dy: int, ghost tracked: bool)
      requires cfg.Valid()
      modifies this`xRest, this`yRest, this`wasScroll, this`ignoreDeltas
      ensures tracked <==> old(Tracks(x, y, z, fingers, now))
      ensures tracked ==> Moves(old(Shift(x, y)), dx, dy, xRest, yRest)
      ensures tracked ==> !wasScroll && ignoreDeltas == old(ignoreDeltas)
      ensures !tracked ==> dx == dy == 0 && ((xRest == old(xRest) && yRest == old(yRest)) || xRest == yRest == 0)
    {
      dx, dy, tracked := 0, 0, false;
      if lastFingers == fingers && z <= cfg.zLimit && Since(now, touch.tap.time) > MOVE_AFTER {
        if wasScroll {
          wasScroll, ignoreDeltas := false, cfg.ignoreDeltas;
          return;
        }
        dx, dy := x - lastX + xRest, lastY - y + yRest;
        xRest, yRest := CMod(dx, cfg.divisorX), CMod(dy, cfg.divisorY);
        CDivMod(dx, cfg.divisorX);
        CDivMod(dy, cfg.divisorY);
        tracked := true;
        if Abs(dx) > cfg.bogusX || Abs(dy) > cfg.bogusY {
          dx, dy, xRest, yRest, tracked := 0, 0, 0, 0, false;
        }
      }
    }

    /** The last movements are remembered for momentum, as far back as they went the
        same way. */
    method Remember(dy: int, now: int)
      modifies this`dyHistory, this`timeHistory
      ensures var turned := dy == 0 || (old(dyHistory) != [] && (dy < 0) != (old(dyHistory)[|old(dyHistory)| - 1] < 0))
                            || (old(dyHistory) == [] && dy < 0);
        && dyHistory == (if turned then [dy] else Filters.Last(old(dyHistory) + [dy], HISTORY))
        && timeHistory == (if turned then [now] else Filters.Last(old(timeHistory) + [now], HISTORY))
      ensures OneWay(old(dyHistory)) ==> OneWay(dyHistory)
    {
      var newest := if dyHistory == [] then 0 else dyHistory[|dyHistory| - 1];
      if (dy < 0) != (newest < 0) || dy == 0 {
        dyHistory, timeHistory := [], [];
      }
      dyHistory := Filters.Last(dyHistory + [dy], HISTORY);
      timeHistory := Filters.Last(timeHistory + [now], HISTORY);
    }

    /** Two fingers have scrolled: up and sideways, what is sent and what is kept back
        add up to the distance, and once the touch is no tap the units are sent. */
    twostate predicate Scrolled(x: int, y: int)
      reads this
    {
      var dy, dx := y - lastY + old(yRest), x - lastX + old(xRest);
      var up := Scrolls(dy, cfg.scrollDivisorY, cfg.scrollThresholdY);
      var sideways := Scrolls(dx, SidewaysUnit(), cfg.scrollThresholdX);
      var u, v := Units(dy, cfg.scrollDivisorY, cfg.scrollThresholdY), Units(dx, SidewaysUnit(), cfg.scrollThresholdX);
      && ScrollsBy(dy, cfg.scrollDivisorY, cfg.scrollThresholdY, u, yRest)
      && ScrollsBy(dx, SidewaysUnit(), cfg.scrollThresholdX, v, xRest)
      && scrolls == old(scrolls) + (if (up || sideways) && touch.tap.time == 0 then [(u, -v)] else [])
      && ignoreSingle == if up || sideways then 3 else old(ignoreSingle)
    }

    /** Two fingers scroll; the pointer does not move. */
    method ScrollFingers(x: int, y: int, now: int)
      modifies this`xRest, this`yRest, this`dyHistory, this`timeHistory, this`scrolls, this`ignoreSingle
      ensures Scrolled(x, y)
    {
      ghost var ty, tx := y - lastY + yRest, x - lastX + xRest;
      var dy := if cfg.scrollDivisorY != 0 then y - lastY + yRest else 0;
      var dx := if SidewaysUnit() != 0 then x - lastX + xRest else 0;
      yRest := if cfg.scrollDivisorY != 0 then CMod(dy, cfg.scrollDivisorY) else 0;
      xRest := if SidewaysUnit() != 0 then CMod(dx, SidewaysUnit()) else 0;
      Remember(dy, now);
      if Abs(dx) < cfg.scrollThresholdX {
        xRest, dx := dx, 0;
      }
      if Abs(dy) < cfg.scrollThresholdY {
        yRest, dy := dy, 0;
      }
      AxisScrolls(ty, cfg.scrollDivisorY, cfg.scrollThresholdY, dy, yRest);
      AxisScrolls(tx, SidewaysUnit(), cfg.scrollThresholdX, dx, xRest);
      SendScroll(dy, dx);
    }

    /** Sends what is left of a scroll, unless the touch may still be a tap. */
    method SendScroll(dy: int, dx: int)
      modifies this`scrolls, this`ignoreSingle
      ensures ignoreSingle == if dy != 0 || dx != 0 then 3 else old(ignoreSingle)
      ensures scrolls == old(scrolls) +
        (if (dy != 0 || dx != 0) && touch.tap.time == 0
         then [(if cfg.scrollDivisorY != 0 then CDiv(dy, cfg.scrollDivisorY) else 0,
                if SidewaysUnit() != 0 then CDiv(-dx, SidewaysUnit()) else 0)] else [])
    {
      if dy != 0 || dx != 0 {
        if touch.tap.time == 0 {
          scrolls := scrolls + [(if cfg.scrollDivisorY != 0 then CDiv(dy, cfg.scrollDivisorY) else 0,
                                 if SidewaysUnit() != 0 then CDiv(-dx, SidewaysUnit()) else 0)];
        }
        ignoreSingle := 3;
      }
    }

    /** The unit of horizontal scrolling, 0 when it is off. */
    function SidewaysUnit(): int {
      if cfg.horizontalScroll then cfg.scrollDivisorX else 0
    }

    /** Several fingers, or one left of several.  The mode stays, except that a single
        finger that stays goes back to moving once scrolling has been debounced. */
    method MultiTouch(x: int, y: int, z: int, fingers: nat, now: int)
      requires SwipesTold() && touch.mode == MTouch
      modifies this`touch, this`xRest, this`yRest, this`dyHistory, this`timeHistory, this`scrolls,
               this`ignoreSingle, this`wasScroll, this`inSwipe, this`marks, this`xMoved, this`yMoved
      ensures SwipesTold()
      ensures
        var single := lastFingers == fingers == 1 && !cfg.sticky && !old(touch.debounce) && old(ignoreSingle) == 0;
        touch == if single then old(touch).(mode := Move, debounce := true) else old(touch)
      ensures if fingers == 2 && lastFingers == 2 && !(cfg.palm && z > cfg.zLimit)
                 && !(cfg.palmTyping && Since(now, keyTime) < cfg.maxAfterTyping)
              then Scrolled(x, y) else scrolls == old(scrolls) && xRest == old(xRest) && yRest == old(yRest)
      ensures (inSwipe == old(inSwipe) && marks == old(marks)) || ((fingers == 3 || fingers == 4) &&
              exists s :: Due(cfg, old(inSwipe), s, old(-xMoved) - lastX + x, old(yMoved) + y - lastY)
                          && Fingers(s) == fingers
                          && inSwipe == Flags(old(inSwipe), s) && marks == old(marks) + [Sent(s)])
    {
      if lastFingers != fingers {
        return;
      }
      match fingers {
        case 1 =>
          if !cfg.sticky && !touch.debounce && ignoreSingle == 0 {
            touch := touch.(mode := Move, debounce := true);
            wasScroll, dyHistory, timeHistory := true, [], [];
          } else if ignoreSingle != 0 {
            ignoreSingle := ignoreSingle - 1;
          }
        case 2 =>
          if !(cfg.palm && z > cfg.zLimit) && !(cfg.palmTyping && Since(now, keyTime) < cfg.maxAfterTyping) {
            ScrollFingers(x, y, now);
          }
        case 3 =>
          if cfg.horizontalSwipe || cfg.verticalSwipe {
            var _ := MoveFingers(x, y, false);
          }
        case 4 =>
          var _ := MoveFingers(x, y, true);
        case _ =>
      }
    }

    /** Times and places of taps, and how many fingers they had. */
    method CaptureTap(x: int, y: int, fingers: nat, now: int)
      modifies this`touch
      ensures touch == old(touch).(tap := Tap(
        if touch.mode.Touching() then old(touch.tap.time) else now,
        if lastFingers < fingers then x else old(touch.tap.x), if lastFingers < fingers then y else old(touch.tap.y),
        Latch(old(touch.tap.double), 2, lastFingers, fingers), Latch(old(touch.tap.triple), 3, lastFingers, fingers)))
    {
      if !touch.mode.Touching() {
        touch := touch.(tap := touch.tap.(time := now));
      }
      if lastFingers < fingers {
        touch := touch.(tap := touch.tap.(x := x, y := y));
      }
      touch := touch.(tap := touch.tap.(double := fingers == 2 || (touch.tap.double && lastFingers != fingers)));
      touch := touch.(tap := touch.tap.(triple := fingers == 3 || (touch.tap.triple && lastFingers != fingers)));
    }

    /** A touch stops momentum scrolling, unless scrolling is being debounced. */
    method StopMomentum()
      modifies this`momentum, this`touch
      ensures momentum == (if old(touch.debounce) then old(momentum) else 0)
      ensures touch == old(touch).(debounce := old(touch.debounce) || old(momentum) != 0)
    {
      if !touch.debounce && momentum != 0 {
        momentum, touch := 0, touch.(debounce := true);
      }
    }

    /** A touch enters the mode it calls for: it resumes a drag, or starts one, or
        counts as several fingers, or moves the pointer. */
    method EnterMode(fingers: nat, lockKeys: bool)
      modifies this`touch
      ensures touch == old(touch).(
        mode := Entered(old(touch.mode), fingers, touch.debounce),
        lockTemp := if old(touch.mode) == PreDrag then lockKeys else old(touch.lockTemp),
        timed := old(touch.timed) && !(old(touch.mode) == DragNoTouch && cfg.hasDragTimer))
    {
      if touch.mode == PreDrag {
        touch := touch.(mode := Drag, lockTemp := lockKeys);
      }
      if touch.mode == DragNoTouch {
        if cfg.hasDragTimer {
          touch := touch.(timed := false);
        }
        touch := touch.(mode := DragLock);
      }
      if touch.mode != MTouch && fingers > 1 {
        touch := touch.(mode := MTouch);
      }
      if touch.mode == NoTouch && !touch.debounce {
        touch := touch.(mode := Move);
      }
    }

    /** A touch that moves too far, or started too far away, is no tap. */
    method CancelTap(x: int, y: int, z: int, fingers: nat)
      modifies this`touch
      ensures touch == if old(touch.mode).Touching() && z > cfg.zFinger && lastFingers == fingers
                          && TooFar(cfg, old(touch.tap), x, y)
                       then old(touch).(tap := old(touch.tap).(time := 0)) else old(touch)
    {
      if touch.mode.Touching() && z > cfg.zFinger && lastFingers == fingers {
        var dy, dx := Abs(touch.tap.y - y), Abs(touch.tap.x - x);
        if !touch.tap.double && !touch.tap.triple && (dx > cfg.tapX || dy > cfg.tapY) {
          touch := touch.(tap := touch.tap.(time := 0));
        } else if dx > cfg.doubleTapX || dy > cfg.doubleTapY {
          touch := touch.(tap := touch.tap.(time := 0));
        }
      }
    }

    /** Motion, scrolling or swipes, as the mode asks; modes without touch do nothing. */
    method ActInMode(p: Packet, fingers: nat) returns (dx: int, dy: int, ghost tracked: bool)
      requires cfg.Valid() && SwipesTold() && fingers == Counted(cfg, p)
      modifies this`touch, this`xRest, this`yRest, this`dyHistory, this`timeHistory, this`scrolls,
               this`ignoreSingle, this`ignoreDeltas, this`wasScroll, this`inSwipe, this`marks, this`xMoved,
               this`yMoved
      ensures SwipesTold() && old(marks) <= marks && touch == Acted(old(touch), old(Around(p)))
      ensures old(touch.mode) != MTouch ==> inSwipe == old(inSwipe) && marks == old(marks)
      ensures tracked <==> old(Moving() && Tracks(p.x, p.y, p.z, fingers, p.now))
      ensures !tracked ==> dx == dy == 0
      ensures tracked ==> Moves(old(Shift(p.x, p.y)), dx, dy, xRest, yRest)
      ensures tracked ==> !wasScroll && ignoreDeltas == old(ignoreDeltas)
    {
      dx, dy, tracked := 0, 0, false;
      if Moving() {
        dx, dy, tracked := TrackMotion(p.x, p.y, p.z, fingers, p.now);
      } else if touch.mode == MTouch {
        MultiTouch(p.x, p.y, p.z, fingers, p.now);
      }
    }

    /** The mode is one that moves the pointer. */
    predicate Moving()
      reads this`touch
    {
      touch.mode == Move || touch.mode == Drag || touch.mode == DragLock
    }

    /** Settling the finger count and the deltas to ignore; false when the packet is to
        be ignored altogether. */
    method Admit(p: Packet, fingers: nat) returns (admitted: bool)
      modifies this`lastX, this`lastY, this`ignoreDeltas
      ensures var changed := lastFingers > 0 && fingers > 0 && lastFingers != fingers;
        var ignored := if changed then cfg.ignoreDeltas else old(ignoreDeltas);
        if ignored == 0 then lastX == old(lastX) && lastY == old(lastY) && ignoreDeltas == 0
        else lastX == p.x && lastY == p.y && ignoreDeltas == ignored - 1
      ensures lastFingers == fingers ==>
                Shift(p.x, p.y) == if old(ignoreDeltas) != 0 then (xRest, yRest) else old(Shift(p.x, p.y))
      ensures admitted <==> !ignoreAll && !Stray(cfg, keyTime, p)
    {
      if lastFingers > 0 && fingers > 0 && lastFingers != fingers {
        ignoreDeltas := cfg.ignoreDeltas;
      }
      if ignoreDeltas != 0 {
        lastX, lastY, ignoreDeltas := p.x, p.y, ignoreDeltas - 1;
      }
      if Stray(cfg, keyTime, p) {
        return false;
      }
      return !ignoreAll;
    }

    /** Lifts, late second taps, and touches that move too far for a tap. */
    method Settle(p: Packet, fingers: nat) returns (down: Buttons)
      requires SwipesTold() && fingers == Counted(cfg, p)
      modifies this`touch, this`xRest, this`yRest, this`inSwipe, this`marks, this`xMoved, this`yMoved,
               this`momentum, this`momentumInterval, this`dyHistory, this`timeHistory, this`motions
      ensures SwipesTold() && touch == Settled(cfg, old(touch), old(Around(p)), p)
      ensures down == if Lifts(cfg, old(touch), p) then LiftButtons(cfg, old(touch), p.now, p.buttons) else p.buttons
      ensures motions == old(motions) + LiftClick(cfg, old(touch), p)
      ensures if Lifts(cfg, old(touch), p) then marks == old(marks) + [Lifted] && inSwipe == {}
              else marks == old(marks) && momentum == old(momentum)
      ensures Moving() ==> xRest == old(xRest) && yRest == old(yRest)
      ensures old(Continues(p)) ==> Moving() && Tracks(p.x, p.y, p.z, fingers, p.now)
    {
      down := p.buttons;
      if p.z < cfg.zFinger && touch.mode.Touching() {
        down := Lift(p.now, p.buttons);
      }
      if touch.mode == PreDrag && Since(p.now, touch.untouched) >= cfg.maxDragTime {
        touch := touch.(mode := NoTouch);
      }
      CancelTap(p.x, p.y, p.z, fingers);
    }

    /** ... and the buttons that are down then. */
    method Press(p: Packet, fingers: nat) returns (down: Buttons)
      requires SwipesTold() && fingers == Counted(cfg, p)
      modifies this`touch, this`xRest, this`yRest, this`inSwipe, this`marks, this`xMoved, this`yMoved,
               this`momentum, this`momentumInterval, this`dyHistory, this`timeHistory, this`motions
      ensures SwipesTold() && touch == Settled(cfg, old(touch), old(Around(p)), p)
      ensures down == ButtonsOut(cfg, old(touch), old(Around(p)), p)
      ensures motions == old(motions) + LiftClick(cfg, old(touch), p)
      ensures if Lifts(cfg, old(touch), p) then marks == old(marks) + [Lifted] && inSwipe == {}
              else marks == old(marks) && momentum == old(momentum)
      ensures Moving() ==> xRest == old(xRest) && yRest == old(yRest)
      ensures old(Continues(p)) ==> Moving() && Tracks(p.x, p.y, p.z, fingers, p.now)
    {
      down := Settle(p, fingers);
      if Holds(cfg, touch, keyTime, p.now) {
        down := down.(left := true);
      }
    }

    /** A packet that is felt: a tap may be noted, momentum stops, and the mode the touch
        calls for is entered. */
    method Feel(p: Packet, fingers: nat)
      requires fingers == p.fingers && p.z > cfg.zFinger
      modifies this`touch, this`momentum
      ensures touch == Felt(cfg, old(touch), old(Around(p)), p)
      ensures momentum == (if old(touch.debounce) then old(momentum) else 0)
    {
      if !Typing(cfg, keyTime, p.now) && momentum == 0 {
        CaptureTap(p.x, p.y, fingers, p.now);
      }
      StopMomentum();
      EnterMode(fingers, p.lockKeys);
    }

    /** What an admitted packet does before it is felt as a touch. */
    method React(p: Packet, fingers: nat) returns (dx: int, dy: int, down: Buttons, ghost tracked: bool)
      requires cfg.Valid() && SwipesTold() && fingers == Counted(cfg, p)
      modifies this`touch, this`xRest, this`yRest, this`inSwipe, this`marks, this`xMoved, this`yMoved,
               this`momentum, this`momentumInterval, this`dyHistory, this`timeHistory, this`motions,
               this`scrolls, this`ignoreSingle, this`ignoreDeltas, this`wasScroll
      ensures SwipesTold() && old(marks) <= marks
      ensures touch == Acted(Settled(cfg, old(touch), old(Around(p)), p), old(Around(p)))
      ensures down == ButtonsOut(cfg, old(touch), old(Around(p)), p)
      ensures motions == old(motions) + LiftClick(cfg, old(touch), p)
      ensures if Lifts(cfg, old(touch), p) then marks == old(marks) + [Lifted] && inSwipe == {}
              else momentum == old(momentum)
      ensures !tracked ==> dx == dy == 0
      ensures tracked ==> !old(wasScroll) && lastFingers == fingers && p.z <= cfg.zLimit
      ensures tracked ==> Bounded(old(Shift(p.x, p.y))) && Moves(old(Shift(p.x, p.y)), dx, dy, xRest, yRest)
      ensures old(Continues(p)) ==> tracked && ignoreDeltas == 0 && !wasScroll
    {
      down := Press(p, fingers);
      dx, dy, tracked := ActInMode(p, fingers);
    }

    /** The distance is no jump. */
    predicate Bounded(shift: (int, int)) {
      Abs(shift.0) <= cfg.bogusX && Abs(shift.1) <= cfg.bogusY
    }

    /** An admitted packet. */
    method Handle(p: Packet, fingers: nat) returns (dx: int, dy: int, down: Buttons, ghost tracked: bool)
      requires cfg.Valid() && SwipesTold() && fingers == Counted(cfg, p)
      modifies this
      ensures SwipesTold() && old(marks) <= marks && during == old(during)
      ensures touch == After(cfg, old(touch), old(Around(p)), p)
      ensures down == ButtonsOut(cfg, old(touch), old(Around(p)), p)
      ensures motions == old(motions) + LiftClick(cfg, old(touch), p)
      ensures if Lifts(cfg, old(touch), p) then marks == old(marks) + [Lifted] && inSwipe == {}
              else old(momentum) == 0 ==> momentum == 0
      ensures lastX == old(lastX) && lastY == old(lastY) && lastFingers == old(lastFingers)
      ensures ignoreAll == old(ignoreAll) && keyTime == old(keyTime)
      ensures !tracked ==> dx == dy == 0
      ensures tracked ==> !old(wasScroll) && lastFingers == fingers && p.z <= cfg.zLimit
      ensures tracked ==> Bounded(old(Shift(p.x, p.y))) && Moves(old(Shift(p.x, p.y)), dx, dy, xRest, yRest)
      ensures old(Continues(p)) ==> tracked && ignoreDeltas == 0 && !wasScroll
    {
      dx, dy, down, tracked := React(p, fingers);
      if p.z > cfg.zFinger {
        Feel(p, fingers);
      }
    }

    /** An admitted packet, and its report. */
    method Complete(p: Packet, fingers: nat) returns (ghost tracked: bool)
      requires Steady() && fingers == Counted(cfg, p)
      modifies this
      ensures Steady() && old(marks) <= marks && ignoreAll == old(ignoreAll) && keyTime == old(keyTime)
      ensures motions != [] && motions == old(motions) + LiftClick(cfg, old(touch), p) + [LastMotion()]
      ensures touch == After(cfg, old(touch), old(Around(p)), p)
      ensures Lawful(cfg, old(touch), old(Around(p)), p, touch, LastMotion().buttons)
      ensures Logged(old(motions), old(during), if old(Lifts(cfg, touch, p)) then touch.mode else old(touch.mode))
      ensures if Lifts(cfg, old(touch), p) then marks == old(marks) + [Lifted] && inSwipe == {}
              else old(momentum) == 0 ==> momentum == 0
      ensures lastX == p.x && lastY == p.y && lastFingers == Counted(cfg, p)
      ensures !tracked ==> LastMotion().dx == LastMotion().dy == 0
      ensures tracked ==> old(lastFingers) == Counted(cfg, p) && p.z <= cfg.zLimit && !old(wasScroll)
      ensures tracked ==>
                && Splits(old(Shift(p.x, p.y)).0, cfg.divisorX, LastMotion().dx, xRest)
                && Splits(old(Shift(p.x, p.y)).1, cfg.divisorY, LastMotion().dy, yRest)
      ensures old(Continues(p)) ==> tracked && ignoreDeltas == 0 && !wasScroll
    {
      ghost var before, around := touch, Around(p);
      var dx, dy, down;
      PacketLaws(cfg, before, around, p);
      dx, dy, down, tracked := Handle(p, fingers);
      Report(Motion(CDiv(dx, cfg.divisorX), CDiv(dy, cfg.divisorY), down), p.x, p.y, fingers,
             if Lifts(cfg, before, p) then touch.mode else before.mode);
    }

    /** A packet.  What it reports and the mode it leads to are told by the laws of
        reports and modes; the motion is that of an undisturbed movement or none. */
    method DispatchEvents(p: Packet) returns (completed: bool, ghost tracked: bool)
      requires Steady()
      modifies this
      ensures Steady() && old(marks) <= marks && ignoreAll == old(ignoreAll) && keyTime == old(keyTime)
      ensures completed <==> !old(ignoreAll) && !old(Stray(cfg, keyTime, p))
      ensures !completed ==>
                touch == old(touch) && marks == old(marks) && motions == old(motions) && during == old(during)
      ensures completed ==> motions != [] && motions == old(motions) + LiftClick(cfg, old(touch), p) + [LastMotion()]
      ensures completed ==> touch == After(cfg, old(touch), old(Around(p)), p)
      ensures completed ==> Lawful(cfg, old(touch), old(Around(p)), p, touch, LastMotion().buttons)
      ensures completed ==>
                Logged(old(motions), old(during), if old(Lifts(cfg, touch, p)) then touch.mode else old(touch.mode))
      ensures completed ==>
                if Lifts(cfg, old(touch), p) then marks == old(marks) + [Lifted] && inSwipe == {}
                else old(momentum) == 0 ==> momentum == 0
      ensures completed ==> lastX == p.x && lastY == p.y && lastFingers == Counted(cfg, p)
      ensures completed && !tracked ==> LastMotion().dx == LastMotion().dy == 0
      ensures completed && tracked ==> old(lastFingers) == Counted(cfg, p) && p.z <= cfg.zLimit && !old(wasScroll)
      ensures completed && tracked ==>
                var gone := old(if ignoreDeltas != 0 then (xRest, yRest) else Shift(p.x, p.y));
                && Splits(gone.0, cfg.divisorX, LastMotion().dx, xRest)
                && Splits(gone.1, cfg.divisorY, LastMotion().dy, yRest)
      ensures completed && old(Continues(p)) ==> tracked && ignoreDeltas == 0 && !wasScroll
    {
      ghost var before, around := touch, Around(p);
      var fingers := Counted(cfg, p);
      tracked := false;
      completed := Admit(p, fingers);
      assert touch == before && Around(p) == around;
      if completed {
        tracked := Complete(p, fingers);
      }
    }

    /** A packet that continues an undisturbed movement moves the pointer all the way. */
    method MoveOn(p: Packet)
      requires Steady() && Continues(p) && !ignoreAll && !Stray(cfg, keyTime, p)
      modifies this
      ensures Steady() && lastX == p.x && lastY == p.y && motions != [] && motions == old(motions) + [LastMotion()]
      ensures cfg.divisorX * LastMotion().dx + xRest == p.x - old(lastX) + old(xRest)
      ensures cfg.divisorY * LastMotion().dy + yRest == old(lastY) - p.y + old(yRest)
    {
      var _, _ := DispatchEvents(p);
    }

    /** The log of modes has grown with the motions, the last one made in this mode and
        with the buttons a mode holds. */
    ghost predicate Logged(was: seq<Motion>, log: seq<Mode>, mode: Mode)
      reads this`motions, this`during
    {
      && |during| == |motions| && was <= motions && log <= during && |was| == |log| < |during|
      && during[|during| - 1] == mode && Held(|was|)
    }

    /** Every motion from the n-th on has the buttons its mode holds. */
    ghost predicate Held(n: nat)
      reads this`motions, this`during
    {
      |during| == |motions| && forall i :: n <= i < |motions| ==> Holding(cfg, during[i], motions[i].buttons)
    }

    /** Dispatches the motion and saves the position. */
    method Report(m: Motion, x: int, y: int, fingers: nat, ghost mode: Mode)
      requires |during| <= |motions|
      modifies this`motions, this`during, this`lastX, this`lastY, this`lastFingers
      ensures motions == old(motions) + [m] && LastMotion() == m
      ensures during == old(during + seq(|motions| - |during|, _ => NoTouch)) + [mode]
      ensures lastX == x && lastY == y && lastFingers == fingers
    {
      during := during + seq(|motions| - |during|, _ => NoTouch) + [mode];
      motions := motions + [m];
      lastX, lastY, lastFingers := x, y, fingers;
    }

    function LastMotion(): Motion
      requires motions != []
      reads this`motions
    {
      motions[|motions| - 1]
    }

    /** The packet continues an undisturbed single-finger movement. */
    predicate Continues(p: Packet)
      reads this`touch, this`lastX, this`lastY, this`lastFingers, this`xRest, this`yRest, this`ignoreDeltas,
               this`wasScroll
    {
      && touch.mode == Move && cfg.zFinger < p.z <= cfg.zLimit && p.fingers == 1 && lastFingers == 1
      && ignoreDeltas == 0 && !wasScroll && Since(p.now, touch.tap.time) > MOVE_AFTER && Since(p.now, 0) > MOVE_AFTER
      && Abs(p.x - lastX + xRest) <= cfg.bogusX && Abs(lastY - p.y + yRest) <= cfg.bogusY
    }

    /** The drag timer ends a drag that goes on without a touch, letting go of the left
        button and no other. */
    method OnDragTimer(buttons: Buttons)
      requires Steady() && touch.timed
      modifies this`touch, this`motions, this`during
      ensures Steady() && old(during) <= during
      ensures if old(touch.mode) == DragNoTouch
              then touch == old(touch).(mode := NoTouch, timed := false)
                   && motions == old(motions) + [Motion(0, 0, buttons.(left := false))]
                   && during == old(during) + [NoTouch]
              else touch == old(touch).(timed := false) && motions == old(motions) && during == old(during)
    {
      touch := touch.(timed := false);
      if touch.mode == DragNoTouch {
        touch := touch.(mode := NoTouch);
        motions, during := motions + [Motion(0, 0, buttons.(left := false))], during + [NoTouch];
      }
    }

    method OnScrollDebounceTimer()
      modifies this`touch
      ensures touch == old(touch).(debounce := false)
    {
      touch := touch.(debounce := false);
    }

    /** A key going down or up stops momentum and is remembered; a modifier key does
        neither going down, and only the second going up. */
    method KeyPressed(now: int, modifier: bool, down: bool)
      modifies this`momentum, this`keyTime
      ensures momentum == if modifier then old(momentum) else 0
      ensures keyTime == if modifier && down then old(keyTime) else now
    {
      if modifier {
        if !down {
          keyTime := now;
        }
      } else {
        momentum, keyTime := 0, now;
      }
    }

    /** A tick of momentum scrolling leaves some momentum. */
    method OnScrollTimer(left: int)
      modifies this`momentum
      ensures momentum == if old(momentum) == 0 then 0 else left
    {
      if momentum != 0 {
        momentum := left;
      }
    }

    /** New settings end whatever was going on. */
    method Reconfigured()
      requires Steady()
      modifies this`touch
      ensures Steady() && touch == old(touch).(mode := NoTouch)
    {
      touch := touch.(mode := NoTouch);
    }
  }
}
