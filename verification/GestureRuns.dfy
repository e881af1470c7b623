/** Runs of the touch state machine: any events, undisturbed movements, whole touches
    and drags. */
module GestureRuns {
  import opened CArith
  import opened ButtonSet
  import opened TouchCore
  import opened Gestures

  datatype Event =
    | Touched(packet: Packet)
    | DragTimer(buttons: Buttons)
    | ScrollTimer(left: int)
    | ScrollDebounceTimer
    | Key(now: int, modifier: bool, down: bool)
    | Settings
    | Ignore(on: bool)

  /** Any sequence of packets, timers, keys and settings.  However they fall, between
      two messages of the same swipe the swipe has ended, no swipe is active with its
      opposite, a drag without a touch is locked or timed, and every report made during
      a locked drag, one without touch, or, unless clicks are immediate, any drag has
      the left button down. */
  method RunAll(m: StateMachine, events: seq<Event>)
    requires m.Steady()
    modifies m
    ensures m.Steady() && m.DragHeld() && old(m.marks) <= m.marks
    ensures old(m.motions) <= m.motions && old(m.during) <= m.during && m.Held(|old(m.motions)|)
    ensures forall i, j, s :: 0 <= i < j < |m.marks| && m.marks[i] == Sent(s) && m.marks[j] == Sent(s) ==>
              exists k :: i < k < j && Ends(m.marks[k], s)
    ensures forall s :: s in m.inSwipe ==> Opposite(s) !in m.inSwipe
  {
    for n := 0 to |events|
      invariant m.Steady() && old(m.marks) <= m.marks
      invariant old(m.motions) <= m.motions && old(m.during) <= m.during && m.Held(|old(m.motions)|)
    {
      match events[n] {
        case Touched(p) => var _, _ := m.DispatchEvents(p);
        case DragTimer(buttons) => if m.touch.timed { m.OnDragTimer(buttons); }
        case ScrollTimer(left) => m.OnScrollTimer(left);
        case ScrollDebounceTimer => m.OnScrollDebounceTimer();
        case Key(now, modifier, down) => m.KeyPressed(now, modifier, down);
        case Settings => m.Reconfigured();
        case Ignore(on) => m.ignoreAll := on;
      }
    }
    forall i, j, s | 0 <= i < j < |m.marks| && m.marks[i] == Sent(s) && m.marks[j] == Sent(s)
      ensures exists k :: i < k < j && Ends(m.marks[k], s)
    {
      SwipesAlternate(m.marks, i, j, s);
    }
    forall s | s in m.inSwipe ensures Opposite(s) !in m.inSwipe {
      OppositesExclude(m.marks, s);
    }
  }

  /** The first n packets of a touch have been reported, nothing else going on. */
  ghost predicate Touching(m: StateMachine, was: Tap, packets: seq<Packet>, n: nat)
    requires n <= |packets|
    reads m
  {
    && m.Steady() && m.momentum == 0 && !m.ignoreAll
    && m.lastFingers == (if n == 0 then 0 else packets[n - 1].fingers)
    && if n == 0 then m.touch.mode == NoTouch && !m.touch.debounce && m.touch.tap == was
       else InTouch(m.cfg, was, packets, n, m.touch)
  }

  /** One more packet of a touch: it is reported with its own buttons. */
  method TouchOn(m: StateMachine, ghost was: Tap, packets: seq<Packet>, n: nat)
    requires n < |packets| && Touching(m, was, packets, n) && Plain(m.cfg, m.keyTime, packets[n])
    modifies m
    ensures Touching(m, was, packets, n + 1) && m.keyTime == old(m.keyTime)
    ensures |m.motions| == |old(m.motions)| + 1 && old(m.motions) <= m.motions
    ensures m.LastMotion().buttons == packets[n].buttons
  {
    if n == 0 {
      TouchBegins(m.cfg, m.touch, m.Around(packets[0]), packets);
    } else {
      TouchGoesOn(m.cfg, was, packets, n, m.touch, m.Around(packets[n]));
    }
    var _, _ := m.DispatchEvents(packets[n]);
  }

  /** The end of the touch. */
  method TouchOff(m: StateMachine, ghost was: Tap, packets: seq<Packet>, up: Packet)
    requires packets != [] && Touching(m, was, packets, |packets|) && up.z < m.cfg.zFinger
    modifies m
    ensures m.Steady() && |m.motions| == |old(m.motions)| + 1 && old(m.motions) <= m.motions
    ensures TouchLaw(m.cfg, was, packets, up, m.LastMotion().buttons, m.touch.mode)
  {
    TouchEnds(m.cfg, was, packets, m.touch, m.Around(up), up);
    var _, _ := m.DispatchEvents(up);
  }

  /** The packets of a touch up to its end. */
  method TouchMost(m: StateMachine, packets: seq<Packet>)
    requires Touching(m, m.touch.tap, packets, 0)
    requires forall i :: 0 <= i < |packets| ==> Plain(m.cfg, m.keyTime, packets[i])
    modifies m
    ensures Touching(m, old(m.touch.tap), packets, |packets|)
    ensures |m.motions| == |old(m.motions)| + |packets| && old(m.motions) <= m.motions
    ensures forall i :: 0 <= i < |packets| ==> m.motions[|old(m.motions)| + i].buttons == packets[i].buttons
  {
    ghost var was, start := m.touch.tap, |m.motions|;
    for n := 0 to |packets|
      invariant Touching(m, was, packets, n) && m.keyTime == old(m.keyTime)
      invariant |m.motions| == start + n && old(m.motions) <= m.motions
      invariant forall i :: 0 <= i < n ==> m.motions[start + i].buttons == packets[i].buttons
    {
      TouchOn(m, was, packets, n);
    }
  }

  /** A whole touch, with no key lately and nothing else going on: no report during it
      adds a button, and its end clicks, and waits for a drag, as the law of touches
      says. */
  method TouchAll(m: StateMachine, packets: seq<Packet>, up: Packet)
    requires packets != [] && Touching(m, m.touch.tap, packets, 0) && up.z < m.cfg.zFinger
    requires forall i :: 0 <= i < |packets| ==> Plain(m.cfg, m.keyTime, packets[i])
    modifies m
    ensures m.Steady() && |m.motions| == |old(m.motions)| + |packets| + 1 && old(m.motions) <= m.motions
    ensures forall i :: 0 <= i < |packets| ==> m.motions[|old(m.motions)| + i].buttons == packets[i].buttons
    ensures TouchLaw(m.cfg, old(m.touch.tap), packets, up, m.LastMotion().buttons, m.touch.mode)
  {
    ghost var was := m.touch.tap;
    TouchMost(m, packets);
    TouchOff(m, was, packets, up);
  }

  /** A touch too soon after a key, of packets each too soon: it clicks only if the
      touch that taps are measured from began a tap's time ago or less. */
  method TypedAll(m: StateMachine, packets: seq<Packet>, up: Packet)
    requires m.Steady() && m.touch.mode == NoTouch && !m.ignoreAll
    requires packets != [] && up.z < m.cfg.zFinger
    requires forall i :: 0 <= i < |packets| ==>
               packets[i].z > m.cfg.zFinger && Typing(m.cfg, m.keyTime, packets[i].now)
    requires Since(up.now, m.touch.tap.time) >= m.cfg.maxTapTime && Since(up.now, 0) >= m.cfg.maxTapTime
    modifies m
    ensures m.Steady() && m.motions != [] && m.LastMotion().buttons == up.buttons && m.touch.mode == NoTouch
  {
    for n := 0 to |packets|
      invariant m.Steady() && m.keyTime == old(m.keyTime) && !m.ignoreAll
      invariant m.touch.mode == NoTouch || m.touch.mode == Move || m.touch.mode == MTouch
      invariant m.touch.tap == old(m.touch.tap) || m.touch.tap == old(m.touch.tap).(time := 0)
    {
      NoTap(m.cfg, m.touch, m.Around(packets[n]), packets[n]);
      var _, _ := m.DispatchEvents(packets[n]);
    }
    var _, _ := m.DispatchEvents(up);
  }

  /** A drag with one finger, clicks not being immediate: it goes on until the finger
      lifts, and every report has the left button down. */
  method DragAll(m: StateMachine, packets: seq<Packet>)
    requires m.Steady() && m.touch.mode == Drag && !m.cfg.immediateClick
    requires forall p :: p in packets ==> p.z > m.cfg.zFinger && p.fingers <= 1
    modifies m
    ensures m.Steady() && m.touch.mode == Drag && old(m.motions) <= m.motions
    ensures forall i :: |old(m.motions)| <= i < |m.motions| ==> m.motions[i].buttons.left
  {
    for n := 0 to |packets|
      invariant m.Steady() && m.touch.mode == Drag && old(m.motions) <= m.motions
      invariant forall i :: |old(m.motions)| <= i < |m.motions| ==> m.motions[i].buttons.left
    {
      assert packets[n] in packets;
      var _, _ := m.DispatchEvents(packets[n]);
    }
  }

  /** How far the pointer went in all, to the right and down. */
  function Travel(motions: seq<Motion>): (int, int) {
    if motions == [] then (0, 0)
    else var rest := Travel(motions[1..]); (motions[0].dx + rest.0, motions[0].dy + rest.1)
  }

  lemma {:induction false} TravelSnoc(motions: seq<Motion>, m: Motion)
    ensures Travel(motions + [m]) == (Travel(motions).0 + m.dx, Travel(motions).1 + m.dy)
  {
    if motions != [] {
      assert (motions + [m])[1..] == motions[1..] + [m];
      TravelSnoc(motions[1..], m);
    }
  }

  /** Packets as long as each continues an undisturbed movement: what was dispatched,
      scaled back by the divisor, with the distance still kept back, is exactly how far
      the finger went. */
  method MoveAll(m: StateMachine, packets: seq<Packet>) returns (n: nat)
    requires m.Steady()
    modifies m
    ensures m.Steady() && n <= |packets| && old(m.motions) <= m.motions
    ensures var travel := Travel(m.motions[|old(m.motions)|..]);
            && m.cfg.divisorX * travel.0 + m.xRest == m.lastX - old(m.lastX) + old(m.xRest)
            && m.cfg.divisorY * travel.1 + m.yRest == old(m.lastY) - m.lastY + old(m.yRest)
    ensures n > 0 ==> m.lastX == packets[n - 1].x && m.lastY == packets[n - 1].y
    ensures n < |packets| ==> !m.Continues(packets[n]) || m.ignoreAll || Stray(m.cfg, m.keyTime, packets[n])
  {
    n := 0;
    ghost var start := |m.motions|;
    assert m.motions[start..] == [];
    while n < |packets| && m.Continues(packets[n]) && !m.ignoreAll && !Stray(m.cfg, m.keyTime, packets[n])
      invariant m.Steady() && n <= |packets| && old(m.motions) <= m.motions && start == |old(m.motions)|
      invariant m.cfg.divisorX * Travel(m.motions[start..]).0 + m.xRest == m.lastX - old(m.lastX) + old(m.xRest)
      invariant m.cfg.divisorY * Travel(m.motions[start..]).1 + m.yRest == old(m.lastY) - m.lastY + old(m.yRest)
      invariant n > 0 ==> m.lastX == packets[n - 1].x && m.lastY == packets[n - 1].y
    {
      ghost var before := m.motions;
      m.MoveOn(packets[n]);
      ghost var motion := m.LastMotion();
      assert m.motions == before + [motion];
      assert m.motions[start..] == before[start..] + [motion];
      TravelSnoc(before[start..], motion);
      Distribute(m.cfg.divisorX, Travel(before[start..]).0, motion.dx);
      Distribute(m.cfg.divisorY, Travel(before[start..]).1, motion.dy);
      n := n + 1;
    }
  }

  lemma Distribute(d: int, a: int, b: int)
    ensures d * (a + b) == d * a + d * b
  {
  }
}
