/** Taps and drags: which mode a touch is in, what is remembered for taps, and which
    buttons a packet reports, as functions of what came before. */
module TouchCore {
  import opened CArith
  import opened ButtonSet

  datatype Mode = NoTouch | PreDrag | DragNoTouch | Move | VScroll | HScroll | CScroll | MTouch | Drag | DragLock {
    /** The mode's number; touching modes are the odd ones. */
    function Number(): nat {
      match this
      case NoTouch => 0
      case PreDrag => 2
      case DragNoTouch => 4
      case Move => 1
      case VScroll => 3
      case HScroll => 5
      case CScroll => 7
      case MTouch => 9
      case Drag => 11
      case DragLock => 13
    }

    predicate Touching() {
      !NoTouch? && !PreDrag? && !DragNoTouch?
    }
  }

  lemma TouchingIsOdd(m: Mode)
    ensures m.Touching() <==> m.Number() % 2 == 1
  {
  }

  datatype Config = Config(
    zFinger: int, zLimit: int, divisorX: int, divisorY: int, bogusX: int, bogusY: int,
    clicking: bool, immediateClick: bool, swapDoubleTriple: bool, maxDoubleTapTime: int,
    dragging: bool, dragLock: bool, rightTap: bool, palm: bool, palmTyping: bool, zoneTyping: bool,
    zoneLeft: int, zoneRight: int, zoneTop: int, zoneBottom: int,
    maxTapTime: int, maxDragTime: int, maxAfterTyping: int, hasDragTimer: bool, dragExitDelay: int,
    momentumScroll: bool, momentumTimer: int, momentumSamples: int,
    scrollDivisorY: int, scrollDivisorX: int, horizontalScroll: bool, scrollThresholdX: int, scrollThresholdY: int,
    sticky: bool, tapX: int, tapY: int, doubleTapX: int, doubleTapY: int,
    swipeX: int, swipeY: int, verticalSwipe: bool, horizontalSwipe: bool, ignoreDeltas: nat)
  {
    predicate Valid() {
      divisorX > 0 && divisorY > 0
    }
  }

  const TWO_TO_THE_64 := 0x1_0000_0000_0000_0000

  /** Nanoseconds since an earlier time, on an unsigned 64-bit clock. */
  function Since(now: int, earlier: int): int {
    (now - earlier) % TWO_TO_THE_64
  }

  // ---- Taps

  /** Whether a tap counts as one of n fingers, after the next packet. */
  predicate Latch(was: bool, n: nat, last: nat, fingers: nat) {
    fingers == n || (was && last != fingers)
  }

  /** ... after a touch's finger counts, the first being the one before the touch. */
  predicate Latched(was: bool, n: nat, counts: seq<nat>)
    requires counts != []
    decreases |counts|
  {
    var k := |counts| - 1;
    if k == 0 then was else Latch(Latched(was, n, counts[..k]), n, counts[k - 1], counts[k])
  }

  /** From the i-th on, no finger count comes twice in a row. */
  predicate Unsettled(counts: seq<nat>, i: nat) {
    forall j :: i < j < |counts| ==> counts[j] != counts[j - 1]
  }

  // A tap counts as one of n fingers if and only if n fingers were seen, or it did so
  // before, and the count has not settled since.
  lemma {:induction false} TapLatched(was: bool, n: nat, counts: seq<nat>)
    requires counts != []
    ensures Latched(was, n, counts) <==>
      (exists i :: 0 < i < |counts| && counts[i] == n && Unsettled(counts, i)) || (was && Unsettled(counts, 0))
    decreases |counts|
  {
    var k := |counts| - 1;
    if k > 0 {
      TapLatched(was, n, counts[..k]);
      UnsettledSnoc(counts);
      if counts[k] == n {
        assert Unsettled(counts, k);
      } else if Latched(was, n, counts[..k]) && counts[k] != counts[k - 1] && !(was && Unsettled(counts[..k], 0)) {
        var i :| 0 < i < k && counts[..k][i] == n && Unsettled(counts[..k], i);
        assert counts[i] == n && Unsettled(counts, i);
      }
    }
  }

  lemma UnsettledSnoc(counts: seq<nat>)
    requires |counts| > 1
    ensures var k := |counts| - 1;
            forall i :: 0 <= i < k ==>
              (Unsettled(counts, i) <==> Unsettled(counts[..k], i) && counts[k] != counts[k - 1])
  {
    var k := |counts| - 1;
    assert forall j :: 0 <= j < k ==> counts[..k][j] == counts[j];
  }

  // ---- The state that taps and drags depend on

  /** A packet as the state machine sees it: coordinates scaled and filtered, buttons
      through the middle-button emulation, and whether the keys that lock a drag are
      down. */
  datatype Packet = Packet(x: int, y: int, z: int, fingers: nat, buttons: Buttons, now: int, lockKeys: bool)

  /** What is remembered for taps: when the touch began, or 0 if it is none any more,
      where the last finger came down, and whether it counts as one of two or three. */
  datatype Tap = Tap(time: int, x: int, y: int, double: bool, triple: bool)

  /** The mode, the tap, the time of the last lift, the lock that ends with a drag,
      whether the drag timer runs, and whether scrolling is being debounced. */
  datatype Core = Core(mode: Mode, tap: Tap, untouched: int, lockTemp: bool, timed: bool, debounce: bool)

  /** What else matters when a packet comes: the time of the last key, the fingers
      counted before, whether momentum scrolling goes on, and whether several fingers
      have settled to one. */
  datatype Setting = Setting(keyTime: int, lastFingers: nat, momentum: bool, single: bool)

  /** Fingers count only under enough pressure. */
  function Counted(cfg: Config, p: Packet): nat {
    if p.z > cfg.zFinger then p.fingers else 0
  }

  /** The packet lifts the fingers. */
  predicate Lifts(cfg: Config, c: Core, p: Packet) {
    p.z < cfg.zFinger && c.mode.Touching()
  }

  /** The touch is short enough for a tap. */
  predicate Short(cfg: Config, tap: Tap, now: int) {
    Since(now, tap.time) < cfg.maxTapTime && cfg.clicking
  }

  /** A drag outlives its touch. */
  predicate Outlives(cfg: Config, lockTemp: bool) {
    cfg.dragLock || lockTemp || (cfg.hasDragTimer && cfg.dragExitDelay != 0)
  }

  /** A key was pressed too recently for a touch to count. */
  predicate Typing(cfg: Config, keyTime: int, now: int) {
    cfg.palmTyping && Since(now, keyTime) < cfg.maxAfterTyping
  }

  /** A touch outside the zone too soon after typing. */
  predicate Stray(cfg: Config, keyTime: int, p: Packet) {
    && cfg.zoneTyping && p.z > cfg.zFinger && Since(p.now, keyTime) < cfg.maxAfterTyping
    && (p.x < cfg.zoneLeft || p.x > cfg.zoneRight || p.y < cfg.zoneBottom || p.y > cfg.zoneTop)
  }

  /** The touch has moved too far for a tap. */
  predicate TooFar(cfg: Config, tap: Tap, x: int, y: int) {
    var dx, dy := Abs(tap.x - x), Abs(tap.y - y);
    (!tap.double && !tap.triple && (dx > cfg.tapX || dy > cfg.tapY)) || dx > cfg.doubleTapX || dy > cfg.doubleTapY
  }

  // ---- One packet, section by section

  /** The mode a lift leads to.  A quick lift after a tap may start a drag; a lift out
      of a drag may keep it. */
  function LiftMode(cfg: Config, mode: Mode, quickTap: bool, second: bool, keepDrag: bool): Mode {
    if quickTap then
      if mode == Drag || mode == DragLock || second || !cfg.dragging then NoTouch else PreDrag
    else if (mode == Drag || mode == DragLock) && keepDrag then DragNoTouch
    else NoTouch
  }

  function AfterLift(cfg: Config, c: Core, now: int): Core {
    var quick, kept := Short(cfg, c.tap, now), Outlives(cfg, c.lockTemp);
    var mode := LiftMode(cfg, c.mode, quick, cfg.rightTap && (c.tap.double || c.tap.triple), kept);
    Core(mode, c.tap.(double := false, triple := false), now,
         c.lockTemp && (quick || mode == DragNoTouch),
         c.timed || (mode == DragNoTouch && !cfg.dragLock && !c.lockTemp), c.debounce)
  }

  /** Lifts, late second taps, and touches that move too far for a tap. */
  function Settled(cfg: Config, c: Core, s: Setting, p: Packet): Core {
    var c1 := if Lifts(cfg, c, p) then AfterLift(cfg, c, p.now) else c;
    var c2 := if c1.mode == PreDrag && Since(p.now, c1.untouched) >= cfg.maxDragTime then c1.(mode := NoTouch) else c1;
    if c2.mode.Touching() && p.z > cfg.zFinger && s.lastFingers == p.fingers && TooFar(cfg, c2.tap, p.x, p.y)
    then c2.(tap := c2.tap.(time := 0)) else c2
  }

  /** Several fingers that settled to one go back to moving, with scrolling debounced. */
  function Acted(c: Core, s: Setting): Core {
    if c.mode == MTouch && s.single then c.(mode := Move, debounce := true) else c
  }

  function Captured(tap: Tap, touching: bool, lastFingers: nat, p: Packet): Tap {
    var down := lastFingers < p.fingers;
    Tap(if touching then tap.time else p.now, if down then p.x else tap.x, if down then p.y else tap.y,
        Latch(tap.double, 2, lastFingers, p.fingers), Latch(tap.triple, 3, lastFingers, p.fingers))
  }

  /** The mode a touch calls for: it starts a drag or resumes one, counts as several
      fingers, or moves the pointer. */
  function Entered(mode: Mode, fingers: nat, debounce: bool): Mode {
    if fingers > 1 then MTouch
    else if mode == PreDrag then Drag
    else if mode == DragNoTouch then DragLock
    else if mode == NoTouch && !debounce then Move
    else mode
  }

  function Felt(cfg: Config, c: Core, s: Setting, p: Packet): Core {
    var debounce := c.debounce || s.momentum;
    Core(Entered(c.mode, p.fingers, debounce),
         if !Typing(cfg, s.keyTime, p.now) && !s.momentum
         then Captured(c.tap, c.mode.Touching(), s.lastFingers, p) else c.tap,
         c.untouched,
         if c.mode == PreDrag then p.lockKeys else c.lockTemp,
         c.timed && !(c.mode == DragNoTouch && cfg.hasDragTimer),
         debounce)
  }

  function After(cfg: Config, c: Core, s: Setting, p: Packet): Core {
    var acted := Acted(Settled(cfg, c, s, p), s);
    if p.z > cfg.zFinger then Felt(cfg, acted, s, p) else acted
  }

  // ---- Buttons

  /** The button a tap clicks: left, or with two or three fingers right or middle. */
  function Tapped(cfg: Config, double: bool, triple: bool, b: Buttons): Buttons {
    if cfg.rightTap && (triple || double) then
      if triple == cfg.swapDoubleTriple then b.(right := true) else b.(middle := true)
    else b.(left := true)
  }

  /** The buttons after a lift: a quick tap clicks, out of a locked drag excepted. */
  function LiftButtons(cfg: Config, c: Core, now: int, buttons: Buttons): Buttons {
    if !Short(cfg, c.tap, now) || c.mode == DragLock then buttons
    else Tapped(cfg, c.tap.double, c.tap.triple, if c.mode == Drag && !cfg.immediateClick then NONE else buttons)
  }

  /** The left button is held down by the mode: by a drag, and by a tap that may still
      become one. */
  predicate Holds(cfg: Config, c: Core, keyTime: int, now: int) {
    match c.mode
    case DragLock => true
    case Drag => !cfg.immediateClick || Since(now, c.tap.time) > cfg.maxDoubleTapTime
    case DragNoTouch => true
    case PreDrag => !cfg.immediateClick && !Typing(cfg, keyTime, now)
    case _ => false
  }

  function ButtonsOut(cfg: Config, c: Core, s: Setting, p: Packet): Buttons {
    var down := if Lifts(cfg, c, p) then LiftButtons(cfg, c, p.now, p.buttons) else p.buttons;
    if Holds(cfg, Settled(cfg, c, s, p), s.keyTime, p.now) then down.(left := true) else down
  }

  /** A relative motion as dispatched, with the buttons down. */
  datatype Motion = Motion(dx: int, dy: int, buttons: Buttons)

  const LEFT_CLICK: seq<Motion> := [Motion(0, 0, NONE.(left := true)), Motion(0, 0, NONE)]

  /** A tap that ends a drag clicks the left button once before its own click. */
  function DragClick(cfg: Config, c: Core, now: int): seq<Motion> {
    if c.mode == Drag && Short(cfg, c.tap, now) && !cfg.immediateClick then LEFT_CLICK else []
  }

  function LiftClick(cfg: Config, c: Core, p: Packet): seq<Motion> {
    if Lifts(cfg, c, p) then DragClick(cfg, c, p.now) else []
  }

  // ---- What the reports say, told by the mode the packet finds

  /** A report that does not lift: a locked drag and one without touch hold the left
      button; a drag holds it, with immediate clicks only once the touch is no double
      tap any more; a tap waiting to become one holds it unless clicks are immediate or
      a key was pressed lately; and otherwise no button is added. */
  predicate ReportLaw(cfg: Config, c: Core, keyTime: int, tapTime: int, p: Packet, b: Buttons) {
    var late := c.mode == PreDrag && Since(p.now, c.untouched) >= cfg.maxDragTime;
    && b.right == p.buttons.right && b.middle == p.buttons.middle
    && (c.mode == DragLock || c.mode == DragNoTouch ==> b.left)
    && (c.mode == Drag && !cfg.immediateClick ==> b.left)
    && (c.mode == Drag && cfg.immediateClick ==>
          (b.left <==> p.buttons.left || Since(p.now, tapTime) > cfg.maxDoubleTapTime))
    && (c.mode == PreDrag && !late ==>
          (b.left <==> p.buttons.left
                       || !(cfg.immediateClick || (cfg.palmTyping && Since(p.now, keyTime) < cfg.maxAfterTyping))))
    && (late || !(c.mode == DragLock || c.mode == DragNoTouch || c.mode == Drag || c.mode == PreDrag) ==>
          b == p.buttons)
  }

  lemma ReportIs(cfg: Config, c: Core, s: Setting, p: Packet)
    requires !Lifts(cfg, c, p)
    ensures ReportLaw(cfg, c, s.keyTime, After(cfg, c, s, p).tap.time, p, ButtonsOut(cfg, c, s, p))
  {
    if c.mode == Drag {
    } else if c.mode == PreDrag {
    }
  }

  /** A report that lifts: a quick one clicks, one button by the fingers of the touch,
      unless the drag is locked; the buttons of the packet stay, but for a drag that
      clicks when let go; and a drag that goes on holds the left button. */
  predicate LiftLaw(cfg: Config, c: Core, p: Packet, b: Buttons) {
    var quick := cfg.clicking && Since(p.now, c.tap.time) < cfg.maxTapTime && c.mode != DragLock;
    var dropped := c.mode == Drag && !cfg.immediateClick && quick;
    var kept := (c.mode == Drag || c.mode == DragLock) && !(cfg.clicking && Since(p.now, c.tap.time) < cfg.maxTapTime)
                && (cfg.dragLock || c.lockTemp || (cfg.hasDragTimer && cfg.dragExitDelay != 0));
    && (b.left <==>
          (p.buttons.left && !dropped) || kept || (quick && !(cfg.rightTap && (c.tap.double || c.tap.triple))))
    && (b.right <==>
          (p.buttons.right && !dropped)
          || (quick && cfg.rightTap
              && (if c.tap.triple then cfg.swapDoubleTriple else c.tap.double && !cfg.swapDoubleTriple)))
    && (b.middle <==>
          (p.buttons.middle && !dropped)
          || (quick && cfg.rightTap
              && (if c.tap.triple then !cfg.swapDoubleTriple else c.tap.double && cfg.swapDoubleTriple)))
  }

  lemma LiftIs(cfg: Config, c: Core, s: Setting, p: Packet)
    requires Lifts(cfg, c, p)
    ensures LiftLaw(cfg, c, p, ButtonsOut(cfg, c, s, p))
  {
  }

  // ---- The mode a packet leads to

  /** After a lift: a quick one may be a tap that starts a drag; another ends the touch
      unless a drag outlives it. */
  predicate LiftedTo(cfg: Config, c: Core, p: Packet, mode: Mode) {
    var quick := cfg.clicking && Since(p.now, c.tap.time) < cfg.maxTapTime;
    var drag := c.mode == Drag || c.mode == DragLock;
    && (mode == PreDrag <==> quick && !drag && cfg.dragging && !(cfg.rightTap && (c.tap.double || c.tap.triple))
                             && 0 < cfg.maxDragTime)
    && (mode == DragNoTouch <==>
          !quick && drag && (cfg.dragLock || c.lockTemp || (cfg.hasDragTimer && cfg.dragExitDelay != 0)))
    && (mode == PreDrag || mode == DragNoTouch || mode == NoTouch)
  }

  /** After a touch: several fingers count as such; one starts a drag soon after a tap,
      resumes one, goes on with what it did, or moves the pointer unless scrolling is
      being debounced; and one left of several counts as several until it settles. */
  predicate TouchedTo(cfg: Config, c: Core, s: Setting, p: Packet, mode: Mode) {
    var waiting := c.mode == PreDrag && Since(p.now, c.untouched) < cfg.maxDragTime;
    if p.fingers > 1 then mode == MTouch
    else if waiting then mode == Drag
    else if c.mode == DragNoTouch || c.mode == DragLock then mode == DragLock
    else if c.mode == Drag || c.mode == Move then mode == c.mode
    else if c.mode == MTouch then mode == if s.single then Move else MTouch
    else if c.mode == NoTouch || c.mode == PreDrag then mode == if c.debounce || s.momentum then NoTouch else Move
    else mode == c.mode
  }

  lemma ModeIs(cfg: Config, c: Core, s: Setting, p: Packet)
    ensures Lifts(cfg, c, p) ==> LiftedTo(cfg, c, p, After(cfg, c, s, p).mode)
    ensures p.z > cfg.zFinger ==> TouchedTo(cfg, c, s, p, After(cfg, c, s, p).mode)
    ensures p.z < cfg.zFinger ==> !After(cfg, c, s, p).mode.Touching()
  {
  }

  /** What a packet changes besides: a lift is timed; the keys held when a drag begins
      lock it, until it ends unless by a tap; the drag timer starts with a drag that
      goes on only for it, and stops when the drag is resumed; and scrolling is debounced
      once several fingers settle to one or momentum is stopped. */
  predicate RestLaw(cfg: Config, c: Core, s: Setting, p: Packet, c': Core) {
    var lifts, felt := Lifts(cfg, c, p), p.z > cfg.zFinger;
    var quick := cfg.clicking && Since(p.now, c.tap.time) < cfg.maxTapTime;
    && c'.untouched == (if lifts then p.now else c.untouched)
    && (felt && c.mode == PreDrag && Since(p.now, c.untouched) < cfg.maxDragTime ==> c'.lockTemp == p.lockKeys)
    && (lifts && !quick && c'.mode == NoTouch ==> !c'.lockTemp)
    && (!(felt && c.mode == PreDrag) && !(lifts && c'.mode == NoTouch && !quick) ==> c'.lockTemp == c.lockTemp)
    && (lifts && c'.mode == DragNoTouch && !cfg.dragLock && !c.lockTemp ==> c'.timed)
    && (felt && c.mode == DragNoTouch && cfg.hasDragTimer ==> !c'.timed)
    && (!(lifts && c'.mode == DragNoTouch && !cfg.dragLock && !c.lockTemp)
        && !(felt && c.mode == DragNoTouch && cfg.hasDragTimer)
        ==> c'.timed == c.timed)
    && (c'.debounce <==> c.debounce || (felt && s.momentum) || (c.mode == MTouch && s.single && !lifts))
  }

  lemma RestIs(cfg: Config, c: Core, s: Setting, p: Packet)
    ensures RestLaw(cfg, c, s, p, After(cfg, c, s, p))
  {
  }

  /** What a packet reports and leads to. */
  predicate Lawful(cfg: Config, c: Core, s: Setting, p: Packet, c': Core, b: Buttons) {
    && (if Lifts(cfg, c, p) then LiftLaw(cfg, c, p, b) && LiftedTo(cfg, c, p, c'.mode)
        else ReportLaw(cfg, c, s.keyTime, c'.tap.time, p, b))
    && (p.z > cfg.zFinger ==> TouchedTo(cfg, c, s, p, c'.mode))
    && (p.z < cfg.zFinger ==> !c'.mode.Touching())
    && (c'.mode == DragNoTouch || c'.mode == DragLock ==> b.left)
    && RestLaw(cfg, c, s, p, c')
  }

  lemma PacketLaws(cfg: Config, c: Core, s: Setting, p: Packet)
    ensures Lawful(cfg, c, s, p, After(cfg, c, s, p), ButtonsOut(cfg, c, s, p))
    ensures Holding(cfg, if Lifts(cfg, c, p) then After(cfg, c, s, p).mode else c.mode, ButtonsOut(cfg, c, s, p))
  {
    ModeIs(cfg, c, s, p);
    RestIs(cfg, c, s, p);
    StillHeld(cfg, c, s, p);
    if Lifts(cfg, c, p) {
      LiftIs(cfg, c, s, p);
    } else {
      ReportIs(cfg, c, s, p);
    }
  }

  /** In the modes of a drag the left button is down, if clicks are not immediate. */
  predicate Holding(cfg: Config, mode: Mode, b: Buttons) {
    mode == DragLock || mode == DragNoTouch || (mode == Drag && !cfg.immediateClick) ==> b.left
  }

  lemma StillHeld(cfg: Config, c: Core, s: Setting, p: Packet)
    ensures var mode := After(cfg, c, s, p).mode;
            && (mode == DragNoTouch || mode == DragLock ==> ButtonsOut(cfg, c, s, p).left)
            && Holding(cfg, if Lifts(cfg, c, p) then mode else c.mode, ButtonsOut(cfg, c, s, p))
  {
  }

  // ---- A whole touch

  /** The finger counts of a touch's first n packets, none before it. */
  function Counts(ps: seq<Packet>, n: nat): seq<nat>
    requires n <= |ps|
  {
    [0] + seq(n, i requires 0 <= i < n => ps[i].fingers)
  }

  lemma CountsSnoc(ps: seq<Packet>, n: nat)
    requires n < |ps|
    ensures Counts(ps, n + 1) == Counts(ps, n) + [ps[n].fingers]
    ensures Counts(ps, n)[n] == if n == 0 then 0 else ps[n - 1].fingers
  {
  }

  /** The last packet up to the k-th at which a finger came down. */
  function Origin(ps: seq<Packet>, k: nat): (o: nat)
    requires k < |ps|
    ensures o <= k
  {
    if k == 0 || ps[k].fingers > ps[k - 1].fingers then k else Origin(ps, k - 1)
  }

  /** Packet k, with as many fingers as the one before, lies near where the last finger
      came down: within the bounds of a double tap, and of a tap if it is none. */
  predicate Near(cfg: Config, was: Tap, ps: seq<Packet>, k: nat)
    requires 0 < k < |ps|
  {
    ps[k].fingers == ps[k - 1].fingers ==>
      var o := ps[Origin(ps, k - 1)];
      var several := Latched(was.double, 2, Counts(ps, k)) || Latched(was.triple, 3, Counts(ps, k));
      && Abs(o.x - ps[k].x) <= cfg.doubleTapX && Abs(o.y - ps[k].y) <= cfg.doubleTapY
      && (several || (Abs(o.x - ps[k].x) <= cfg.tapX && Abs(o.y - ps[k].y) <= cfg.tapY))
  }

  predicate StaysNear(cfg: Config, was: Tap, ps: seq<Packet>, n: nat)
    requires n <= |ps|
  {
    forall k: nat :: 0 < k < n ==> Near(cfg, was, ps, k)
  }

  /** What is known after the first n packets of a touch. */
  predicate InTouch(cfg: Config, was: Tap, ps: seq<Packet>, n: nat, c: Core)
    requires 0 < n <= |ps|
  {
    && (c.mode == Move || c.mode == MTouch)
    && c.tap == Tap(if StaysNear(cfg, was, ps, n) then ps[0].now else 0,
                    ps[Origin(ps, n - 1)].x, ps[Origin(ps, n - 1)].y,
                    Latched(was.double, 2, Counts(ps, n)), Latched(was.triple, 3, Counts(ps, n)))
  }

  lemma LatchedSnoc(was: bool, k: nat, ps: seq<Packet>, n: nat)
    requires n < |ps|
    ensures Latched(was, k, Counts(ps, n + 1))
            == Latch(Latched(was, k, Counts(ps, n)), k, if n == 0 then 0 else ps[n - 1].fingers, ps[n].fingers)
  {
    CountsSnoc(ps, n);
    assert Counts(ps, n + 1)[..n + 1] == Counts(ps, n);
  }

  /** A packet of a touch with no key lately. */
  predicate Plain(cfg: Config, keyTime: int, p: Packet) {
    p.z > cfg.zFinger && p.fingers > 0 && !Typing(cfg, keyTime, p.now) && !Stray(cfg, keyTime, p)
  }

  /** A packet of the touch that counts for taps. */
  predicate Tappable(cfg: Config, s: Setting, p: Packet) {
    p.z > cfg.zFinger && p.fingers > 0 && !s.momentum && !Typing(cfg, s.keyTime, p.now)
  }

  lemma TouchBegins(cfg: Config, c: Core, s: Setting, ps: seq<Packet>)
    requires ps != [] && c.mode == NoTouch && !c.debounce && s.lastFingers == 0 && Tappable(cfg, s, ps[0])
    ensures InTouch(cfg, c.tap, ps, 1, After(cfg, c, s, ps[0]))
  {
    LatchedSnoc(c.tap.double, 2, ps, 0);
    LatchedSnoc(c.tap.triple, 3, ps, 0);
  }

  lemma TapInTouch(cfg: Config, c: Core, s: Setting, p: Packet)
    requires (c.mode == Move || c.mode == MTouch) && Tappable(cfg, s, p)
    ensures var far := s.lastFingers == p.fingers && TooFar(cfg, c.tap, p.x, p.y);
            var a := After(cfg, c, s, p);
            && (a.mode == Move || a.mode == MTouch)
            && a.tap == Captured(if far then c.tap.(time := 0) else c.tap, true, s.lastFingers, p)
  {
  }

  lemma NearStep(cfg: Config, was: Tap, ps: seq<Packet>, n: nat, tap: Tap)
    requires 0 < n < |ps| && tap.x == ps[Origin(ps, n - 1)].x && tap.y == ps[Origin(ps, n - 1)].y
    requires tap.double == Latched(was.double, 2, Counts(ps, n)) && tap.triple == Latched(was.triple, 3, Counts(ps, n))
    ensures Near(cfg, was, ps, n) <==> !(ps[n - 1].fingers == ps[n].fingers && TooFar(cfg, tap, ps[n].x, ps[n].y))
    ensures StaysNear(cfg, was, ps, n + 1) <==> StaysNear(cfg, was, ps, n) && Near(cfg, was, ps, n)
  {
  }

  lemma TouchGoesOn(cfg: Config, was: Tap, ps: seq<Packet>, n: nat, c: Core, s: Setting)
    requires 0 < n < |ps| && InTouch(cfg, was, ps, n, c)
    requires s.lastFingers == ps[n - 1].fingers && Tappable(cfg, s, ps[n])
    ensures InTouch(cfg, was, ps, n + 1, After(cfg, c, s, ps[n]))
  {
    LatchedSnoc(was.double, 2, ps, n);
    LatchedSnoc(was.triple, 3, ps, n);
    NearStep(cfg, was, ps, n, c.tap);
    TapInTouch(cfg, c, s, ps[n]);
  }

  /** What a whole touch comes to when it ends: a click if it was short and stayed near
      where it began, with the button its fingers say; and then the wait for a drag,
      if the click is the left one and drags are on. */
  predicate TouchLaw(cfg: Config, was: Tap, ps: seq<Packet>, up: Packet, b: Buttons, mode: Mode)
    requires ps != []
  {
    var n := |ps|;
    var began := if StaysNear(cfg, was, ps, n) then ps[0].now else 0;
    var click := cfg.clicking && Since(up.now, began) < cfg.maxTapTime;
    var two, three := Latched(was.double, 2, Counts(ps, n)), Latched(was.triple, 3, Counts(ps, n));
    && (b.left <==> up.buttons.left || (click && !(cfg.rightTap && (two || three))))
    && (b.right <==>
          up.buttons.right
          || (click && cfg.rightTap && (if three then cfg.swapDoubleTriple else two && !cfg.swapDoubleTriple)))
    && (b.middle <==>
          up.buttons.middle
          || (click && cfg.rightTap && (if three then !cfg.swapDoubleTriple else two && cfg.swapDoubleTriple)))
    && mode == if click && !(cfg.rightTap && (two || three)) && cfg.dragging && 0 < cfg.maxDragTime
               then PreDrag else NoTouch
  }

  lemma TouchEnds(cfg: Config, was: Tap, ps: seq<Packet>, c: Core, s: Setting, up: Packet)
    requires ps != [] && InTouch(cfg, was, ps, |ps|, c) && up.z < cfg.zFinger
    ensures TouchLaw(cfg, was, ps, up, ButtonsOut(cfg, c, s, up), After(cfg, c, s, up).mode)
  {
    LiftIs(cfg, c, s, up);
    ModeIs(cfg, c, s, up);
  }

  // A touch too soon after a key, or during momentum scrolling, leaves what is
  // remembered for taps alone, but that going too far ends a tap.
  lemma NoTap(cfg: Config, c: Core, s: Setting, p: Packet)
    requires p.z > cfg.zFinger && (Typing(cfg, s.keyTime, p.now) || s.momentum)
    ensures var tap := After(cfg, c, s, p).tap; tap == c.tap || tap == c.tap.(time := 0)
  {
  }
}
