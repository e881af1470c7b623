/** Middle-button emulation told without its states: what is shown and dispatched is
    read off the calls made so far. */
module MiddleHistory {
  import opened ButtonSet
  import opened MiddleButton

  /** A series of calls; what holds after the first n of them is told below. */
  type History = seq<Input>

  /** All buttons are up, or only calls that cancel have come since. */
  predicate Fresh(h: History, n: nat)
    requires n <= |h|
  {
    n == 0 || h[n - 1].buttons == NONE || (h[n - 1].from == Cancel && Fresh(h, n - 1))
  }

  /** Which calls come before the time for a decision, counted from another, is over. */
  type Rule = (Input, int) -> bool

  /** Neither the timer's nor a cancelling call, and no later than max. */
  function Within(max: int): Rule {
    (c: Input, time: int) => c.from != Timer && c.from != Cancel && (c.now - time) % TWO_TO_THE_64 <= max
  }

  /** Call i pressed the left or the right button alone, and nothing has changed since
      nor is it late. */
  predicate Press(early: Rule, h: History, n: nat, i: int)
    requires n <= |h|
  {
    && 0 <= i < n && Fresh(h, i) && h[i].from != Cancel && Single(h[i].buttons)
    && forall k :: i < k < n ==> h[k].buttons == h[i].buttons && early(h[k], h[i].now)
  }

  /** Call j makes a pair of left and right: both at once, or the second in time after
      the first. */
  ghost predicate Pair(early: Rule, h: History, j: int)
  {
    && 0 <= j < |h| && h[j].buttons == LEFT_RIGHT
    && ((Fresh(h, j) && h[j].from != Cancel) || exists i :: Press(early, h, j, i) && early(h[j], h[i].now))
  }

  /** A pair has been made and both buttons have been down since. */
  ghost predicate Paired(early: Rule, h: History, n: nat)
    requires n <= |h|
  {
    exists j :: Pair(early, h, j) && j < n && forall k :: j < k < n ==> Both(h[k].buttons)
  }

  /** Call r let go of one button of a pair, and nothing has changed since nor is it
      late. */
  ghost predicate Release(early: Rule, h: History, n: nat, r: int)
    requires n <= |h|
  {
    && 0 <= r < n && Paired(early, h, r) && !Both(h[r].buttons) && h[r].buttons != NONE
    && forall k :: r < k < n ==> h[k].buttons == h[r].buttons && early(h[k], h[r].now)
  }

  ghost predicate Pressed(early: Rule, h: History, n: nat)
    requires n <= |h|
  {
    exists i :: Press(early, h, n, i)
  }

  ghost predicate Releasing(early: Rule, h: History, n: nat)
    requires n <= |h|
  {
    exists r :: Release(early, h, n, r)
  }

  /** What call n shows: the middle button while a pair is held, no left and right
      button while one of them is early, and otherwise the buttons as they are. */
  ghost function ShownBy(early: Rule, h: History, n: nat): Buttons
    requires n < |h|
  {
    if Paired(early, h, n + 1) then MIDDLE_BUTTON
    else if Pressed(early, h, n + 1) || Releasing(early, h, n + 1) then OnlyMiddle(h[n].buttons)
    else h[n].buttons
  }

  /** What call n dispatches by itself: the buttons that had been kept back, joined to
      those down, when the timer decides, or when a press was over before anything was
      decided. */
  ghost predicate SentBy(early: Rule, h: History, n: nat, sent: seq<Buttons>)
    requires n < |h|
  {
    var c := h[n];
    var decided := !Paired(early, h, n + 1) && !Pressed(early, h, n + 1) && !Releasing(early, h, n + 1);
    && (forall i :: Press(early, h, n, i) ==>
          sent == if decided && (c.from == Timer || !c.buttons.Meets(h[i].buttons))
                  then [c.buttons.Join(h[i].buttons)] else [])
    && (forall r :: Release(early, h, n, r) ==>
          sent == if decided && c.from == Timer then [c.buttons.Join(h[r].buttons)] else [])
    && (!Pressed(early, h, n) && !Releasing(early, h, n) ==> sent == [])
  }

  // ---- One more call

  lemma PressStep(early: Rule, h: History, n: nat, i: int)
    requires n < |h|
    ensures Press(early, h, n + 1, i) <==>
      if i == n then Fresh(h, n) && h[n].from != Cancel && Single(h[n].buttons)
      else Press(early, h, n, i) && h[n].buttons == h[i].buttons && early(h[n], h[i].now)
  {
  }

  lemma PressNext(early: Rule, h: History, n: nat, pending: Buttons, time: int)
    requires n < |h| && forall i :: Press(early, h, n, i) ==> pending == h[i].buttons && time == h[i].now
    ensures Pressed(early, h, n + 1) <==>
      || (Fresh(h, n) && h[n].from != Cancel && Single(h[n].buttons))
      || (Pressed(early, h, n) && h[n].buttons == pending && early(h[n], time))
    ensures forall i :: Press(early, h, n + 1, i) ==> if i == n then Fresh(h, n) else Press(early, h, n, i)
  {
    PressStep(early, h, n, n);
    forall i: int ensures Press(early, h, n + 1, i) ==> if i == n then Fresh(h, n) else Press(early, h, n, i) {
      PressStep(early, h, n, i);
    }
    if Pressed(early, h, n + 1) {
      var i :| Press(early, h, n + 1, i);
      PressStep(early, h, n, i);
    } else if Pressed(early, h, n) {
      var i :| Press(early, h, n, i);
      PressStep(early, h, n, i);
    }
  }

  lemma PairNext(early: Rule, h: History, n: nat, pending: Buttons, time: int)
    requires n < |h| && forall i :: Press(early, h, n, i) ==> pending == h[i].buttons && time == h[i].now
    ensures Paired(early, h, n + 1) <==>
      || (h[n].buttons == LEFT_RIGHT
          && ((Fresh(h, n) && h[n].from != Cancel) || (Pressed(early, h, n) && early(h[n], time))))
      || (Paired(early, h, n) && Both(h[n].buttons))
  {
    if Pair(early, h, n) {
      assert Paired(early, h, n + 1);
    } else if Paired(early, h, n + 1) {
      var j :| Pair(early, h, j) && j < n + 1 && forall k :: j < k < n + 1 ==> Both(h[k].buttons);
      assert j != n && Both(h[n].buttons);
    }
  }

  lemma ReleaseStep(early: Rule, h: History, n: nat, r: int)
    requires n < |h|
    ensures Release(early, h, n + 1, r) <==>
      if r == n then Paired(early, h, n) && !Both(h[n].buttons) && h[n].buttons != NONE
      else Release(early, h, n, r) && h[n].buttons == h[r].buttons && early(h[n], h[r].now)
  {
  }

  lemma ReleaseNext(early: Rule, h: History, n: nat, pending: Buttons, time: int)
    requires n < |h| && forall r :: Release(early, h, n, r) ==> pending == h[r].buttons && time == h[r].now
    ensures Releasing(early, h, n + 1) <==>
      || (Paired(early, h, n) && !Both(h[n].buttons) && h[n].buttons != NONE)
      || (Releasing(early, h, n) && h[n].buttons == pending && early(h[n], time))
    ensures forall r :: Release(early, h, n + 1, r) ==> if r == n then Paired(early, h, n) else Release(early, h, n, r)
  {
    ReleaseStep(early, h, n, n);
    forall r: int
      ensures Release(early, h, n + 1, r) ==> if r == n then Paired(early, h, n) else Release(early, h, n, r)
    {
      ReleaseStep(early, h, n, r);
    }
    if Releasing(early, h, n + 1) {
      var r :| Release(early, h, n + 1, r);
      ReleaseStep(early, h, n, r);
    } else if Releasing(early, h, n) {
      var r :| Release(early, h, n, r);
      ReleaseStep(early, h, n, r);
    }
  }

  // ---- The machine's state, read off the history

  ghost predicate Remembers(early: Rule, h: History, n: nat, m: Machine)
    requires n <= |h|
  {
    && (m.state == NoButtons <==> Fresh(h, n)) && (m.state == Wait4Two <==> Pressed(early, h, n))
    && (m.state == Middle <==> Paired(early, h, n)) && (m.state == Wait4None <==> Releasing(early, h, n))
    && (forall i :: Press(early, h, n, i) ==> m.pending == h[i].buttons && m.time == h[i].now)
    && (forall r :: Release(early, h, n, r) ==> m.pending == h[r].buttons && m.time == h[r].now)
  }

  /** The machine after a call that is heeded. */
  predicate Moves(early: Rule, m: Machine, c: Input, m': Machine) {
    && m'.state == Next(m.state, m.pending, c.buttons, c.from, !early(c, m.time))
    && (Waiting(m'.state) && m'.state != m.state ==> m'.pending == c.buttons && m'.time == c.now)
    && (Waiting(m'.state) && m'.state == m.state ==> m'.pending == m.pending && m'.time == m.time)
  }

  // When the table leads to each state.
  lemma NextWhen(m: Machine, c: Input, timeout: bool)
    requires Consistent(m)
    ensures var s := Next(m.state, m.pending, c.buttons, c.from, timeout);
            && (s == NoButtons <==> c.buttons == NONE || (m.state == NoButtons && c.from == Cancel))
            && (s == Wait4Two <==> (m.state == NoButtons && c.from != Cancel && Single(c.buttons))
                                   || (m.state == Wait4Two && c.buttons == m.pending && !timeout))
            && (s == Middle <==> (m.state == NoButtons && c.from != Cancel && c.buttons == LEFT_RIGHT)
                                 || (m.state == Wait4Two && c.buttons == LEFT_RIGHT && !timeout)
                                 || (m.state == Middle && Both(c.buttons)))
            && (s == Wait4None <==> (m.state == Middle && !Both(c.buttons) && c.buttons != NONE)
                                    || (m.state == Wait4None && c.buttons == m.pending && !timeout))
  {
  }

  // The machine never forgets: its state is what the history makes of it.
  lemma RemembersNext(early: Rule, h: History, n: nat, m: Machine, m': Machine)
    requires n < |h| && Remembers(early, h, n, m) && Consistent(m) && Moves(early, m, h[n], m')
    ensures Remembers(early, h, n + 1, m')
  {
    NextWhen(m, h[n], !early(h[n], m.time));
    PressNext(early, h, n, m.pending, m.time);
    PairNext(early, h, n, m.pending, m.time);
    ReleaseNext(early, h, n, m.pending, m.time);
  }

  lemma RemembersStart(early: Rule, h: History, m: Machine)
    requires m.state == NoButtons
    ensures Remembers(early, h, 0, m)
  {
  }

  lemma ShownIs(early: Rule, h: History, n: nat, m': Machine)
    requires n < |h| && Remembers(early, h, n + 1, m')
    ensures Shown(m'.state, h[n].buttons) == ShownBy(early, h, n)
  {
  }

  lemma SentIs(early: Rule, h: History, n: nat, m: Machine, m': Machine)
    requires n < |h| && Remembers(early, h, n, m) && Remembers(early, h, n + 1, m')
    ensures SentBy(early, h, n, LetGo(m, h[n].buttons, h[n].from, m'.state))
  {
  }

  /** The machine's states along a run, with what is shown and sent at each call. */
  predicate Runs(early: Rule, calls: History, states: seq<Machine>, shown: seq<Buttons>, sent: seq<seq<Buttons>>) {
    && |states| == |calls| + 1 && |shown| == |sent| == |calls| && states[0].state == NoButtons
    && (forall n :: 0 <= n < |states| ==> Consistent(states[n]))
    && (forall n :: 0 <= n < |calls| ==>
          && Moves(early, states[n], calls[n], states[n + 1])
          && shown[n] == Shown(states[n + 1].state, calls[n].buttons)
          && sent[n] == LetGo(states[n], calls[n].buttons, calls[n].from, states[n + 1].state))
  }

  lemma {:induction false} RunRemembers(early: Rule, calls: History, states: seq<Machine>, shown: seq<Buttons>,
                                        sent: seq<seq<Buttons>>, n: nat)
    requires Runs(early, calls, states, shown, sent) && n <= |calls|
    ensures Remembers(early, calls, n, states[n])
  {
    if n == 0 {
      RemembersStart(early, calls, states[0]);
    } else {
      RunRemembers(early, calls, states, shown, sent, n - 1);
      RemembersNext(early, calls, n - 1, states[n - 1], states[n]);
    }
  }

  lemma RunTells(early: Rule, calls: History, states: seq<Machine>, shown: seq<Buttons>, sent: seq<seq<Buttons>>,
                 n: nat)
    requires Runs(early, calls, states, shown, sent) && n < |calls|
    ensures shown[n] == ShownBy(early, calls, n) && SentBy(early, calls, n, sent[n])
  {
    RunRemembers(early, calls, states, shown, sent, n);
    RunRemembers(early, calls, states, shown, sent, n + 1);
    ShownIs(early, calls, n, states[n + 1]);
    SentIs(early, calls, n, states[n], states[n + 1]);
  }

  lemma RunsOn(early: Rule, calls: History, states: seq<Machine>, shown: seq<Buttons>, sent: seq<seq<Buttons>>,
               c: Input, m: Machine, s: Buttons, t: seq<Buttons>)
    requires Runs(early, calls, states, shown, sent) && Consistent(m) && Moves(early, states[|calls|], c, m)
    requires s == Shown(m.state, c.buttons) && t == LetGo(states[|calls|], c.buttons, c.from, m.state)
    ensures Runs(early, calls + [c], states + [m], shown + [s], sent + [t])
  {
  }

  /** Calls from a trackpad that is to be ignored pass by the emulation. */
  predicate Skipped(c: Input) {
    c.ignoreAll && c.from == Trackpad
  }

  /** The calls that do not. */
  function Noted(calls: History): History
    decreases |calls|
  {
    if calls == [] then []
    else
      var n := |calls| - 1;
      Noted(calls[..n]) + if Skipped(calls[n]) then [] else [calls[n]]
  }

  function InTurn(sent: seq<seq<Buttons>>): seq<Buttons>
    decreases |sent|
  {
    if sent == [] then [] else InTurn(sent[..|sent| - 1]) + sent[|sent| - 1]
  }

  lemma InTurnSnoc(sent: seq<seq<Buttons>>, t: seq<Buttons>)
    ensures InTurn(sent + [t]) == InTurn(sent) + t
  {
    assert (sent + [t])[..|sent|] == sent;
  }

  /** What one call does to the machine, and what it shows and sends. */
  predicate Heeds(early: Rule, c: Input, m: Machine, m': Machine, shown: Buttons, sent: seq<Buttons>) {
    if Skipped(c) then m' == m && shown == c.buttons && sent == []
    else Moves(early, m, c, m') && shown == Shown(m'.state, c.buttons) && sent == LetGo(m, c.buttons, c.from, m'.state)
  }

  /** The machine's states along the calls, those skipped included. */
  predicate RunsAll(early: Rule, calls: History, states: seq<Machine>, shown: seq<Buttons>, sent: seq<seq<Buttons>>) {
    && |states| == |calls| + 1 && |shown| == |sent| == |calls| && states[0].state == NoButtons
    && (forall n :: 0 <= n < |states| ==> Consistent(states[n]))
    && (forall n :: 0 <= n < |calls| ==> Heeds(early, calls[n], states[n], states[n + 1], shown[n], sent[n]))
  }

  /** One more call. */
  method Call(e: Emulator, c: Input) returns (shown: Buttons, ghost sent: seq<Buttons>)
    requires e.enabled && Consistent(e.View())
    modifies e
    ensures Consistent(e.View()) && e.dispatched == old(e.dispatched) + sent
    ensures Heeds(Within(e.maxMiddleClickTime), c, old(e.View()), e.View(), shown, sent)
  {
    ghost var before := |e.dispatched|;
    shown := e.HandleButtons(c.buttons, c.now, c.from, c.ignoreAll);
    sent := e.dispatched[before..];
  }

  /** What the calls so far show and send, those skipped nothing but their own buttons,
      the others what the noted ones do. */
  ghost predicate Sorted(calls: History, n: nat, shown: seq<Buttons>, sent: seq<seq<Buttons>>, noted: seq<Buttons>,
                         notedSent: seq<seq<Buttons>>)
    requires n <= |calls|
  {
    && |shown| == |sent| == n
    && forall k :: 0 <= k < n ==>
         if Skipped(calls[k]) then shown[k] == calls[k].buttons && sent[k] == []
         else
           var j := |Noted(calls[..k])|;
           j < |noted| && j < |notedSent| && shown[k] == noted[j] && sent[k] == notedSent[j]
  }

  lemma SortedBefore(calls: History, n: nat, shown: seq<Buttons>, sent: seq<seq<Buttons>>, noted: seq<Buttons>,
                     notedSent: seq<seq<Buttons>>)
    requires n <= |calls| && Sorted(calls[..n], n, shown, sent, noted, notedSent)
    ensures Sorted(calls, n, shown, sent, noted, notedSent)
  {
    assert forall k :: 0 <= k < n ==> calls[..n][k] == calls[k] && calls[..n][..k] == calls[..k];
  }

  // One more call, skipped or noted, leaves the earlier ones sorted.
  lemma SortedSkip(calls: History, n: nat, shown: seq<Buttons>, sent: seq<seq<Buttons>>, noted: seq<Buttons>,
                   notedSent: seq<seq<Buttons>>)
    requires n < |calls| && Sorted(calls, n, shown, sent, noted, notedSent) && Skipped(calls[n])
    ensures Sorted(calls, n + 1, shown + [calls[n].buttons], sent + [[]], noted, notedSent)
  {
  }

  lemma SortedNote(calls: History, n: nat, shown: seq<Buttons>, sent: seq<seq<Buttons>>, noted: seq<Buttons>,
                   notedSent: seq<seq<Buttons>>, s: Buttons, t: seq<Buttons>)
    requires n < |calls| && Sorted(calls, n, shown, sent, noted, notedSent) && !Skipped(calls[n])
    requires |noted| == |notedSent| == |Noted(calls[..n])|
    ensures Sorted(calls, n + 1, shown + [s], sent + [t], noted + [s], notedSent + [t])
  {
  }

  lemma SortedOn(calls: History, n: nat, shown: seq<Buttons>, sent: seq<seq<Buttons>>, noted: seq<Buttons>,
                 notedSent: seq<seq<Buttons>>)
    requires |calls| == |shown| == |sent| == n + 1 && Sorted(calls, n, shown[..n], sent[..n], noted, notedSent)
    requires |noted| == |notedSent| == |Noted(calls[..n])|
    requires Skipped(calls[n]) ==> shown[n] == calls[n].buttons && sent[n] == []
    ensures if Skipped(calls[n]) then Sorted(calls, n + 1, shown, sent, noted, notedSent)
            else Sorted(calls, n + 1, shown, sent, noted + [shown[n]], notedSent + [sent[n]])
  {
    assert shown == shown[..n] + [shown[n]] && sent == sent[..n] + [sent[n]];
    if Skipped(calls[n]) {
      SortedSkip(calls, n, shown[..n], sent[..n], noted, notedSent);
    } else {
      SortedNote(calls, n, shown[..n], sent[..n], noted, notedSent, shown[n], sent[n]);
    }
  }

  lemma RunsAllFront(early: Rule, calls: History, states: seq<Machine>, shown: seq<Buttons>, sent: seq<seq<Buttons>>,
                     n: nat)
    requires RunsAll(early, calls, states, shown, sent) && n < |calls|
    ensures RunsAll(early, calls[..n], states[..n + 1], shown[..n], sent[..n])
    ensures Heeds(early, calls[n], states[n], states[n + 1], shown[n], sent[n]) && Consistent(states[n + 1])
  {
  }

  // One more call runs with the noted ones, unless it is skipped.
  lemma NotedOn(early: Rule, h: History, c: Input, m: Machine, s: Buttons, t: seq<Buttons>,
                states: seq<Machine>, noted: seq<Buttons>, notedSent: seq<seq<Buttons>>)
      returns (states': seq<Machine>, noted': seq<Buttons>, notedSent': seq<seq<Buttons>>)
    requires Runs(early, h, states, noted, notedSent) && Heeds(early, c, states[|h|], m, s, t) && Consistent(m)
    ensures Runs(early, if Skipped(c) then h else h + [c], states', noted', notedSent')
    ensures states'[|states'| - 1] == m
    ensures if Skipped(c) then s == c.buttons && t == [] && noted' == noted && notedSent' == notedSent
            else noted' == noted + [s] && notedSent' == notedSent + [t]
  {
    states', noted', notedSent' := states, noted, notedSent;
    if !Skipped(c) {
      RunsOn(early, h, states, noted, notedSent, c, m, s, t);
      states', noted', notedSent' := states + [m], noted + [s], notedSent + [t];
    }
  }

  // The noted calls run by themselves.
  lemma {:induction false} NotedRuns(early: Rule, calls: History, states: seq<Machine>, shown: seq<Buttons>,
                                     sent: seq<seq<Buttons>>)
      returns (notedStates: seq<Machine>, noted: seq<Buttons>, notedSent: seq<seq<Buttons>>)
    requires RunsAll(early, calls, states, shown, sent)
    ensures Runs(early, Noted(calls), notedStates, noted, notedSent)
    ensures notedStates[|notedStates| - 1] == states[|calls|]
    ensures Sorted(calls, |calls|, shown, sent, noted, notedSent)
    decreases |calls|
  {
    if calls == [] {
      return states, [], [];
    }
    var n := |calls| - 1;
    RunsAllFront(early, calls, states, shown, sent, n);
    notedStates, noted, notedSent := NotedRuns(early, calls[..n], states[..n + 1], shown[..n], sent[..n]);
    var before, beforeSent := noted, notedSent;
    SortedBefore(calls, n, shown[..n], sent[..n], noted, notedSent);
    notedStates, noted, notedSent := NotedOn(early, Noted(calls[..n]), calls[n], states[n + 1], shown[n], sent[n],
                                             notedStates, noted, notedSent);
    SortedOn(calls, n, shown, sent, before, beforeSent);
  }

  method RunThrough(e: Emulator, calls: History)
      returns (shown: seq<Buttons>, ghost sent: seq<seq<Buttons>>, ghost states: seq<Machine>)
    requires e.enabled && e.state == NoButtons && Consistent(e.View())
    modifies e
    ensures RunsAll(Within(e.maxMiddleClickTime), calls, states, shown, sent)
    ensures e.dispatched == old(e.dispatched) + InTurn(sent)
  {
    shown, sent, states := [], [], [e.View()];
    for n := 0 to |calls|
      invariant RunsAll(Within(e.maxMiddleClickTime), calls[..n], states, shown, sent) && e.View() == states[n]
      invariant e.dispatched == old(e.dispatched) + InTurn(sent)
    {
      var s, t := Call(e, calls[n]);
      InTurnSnoc(sent, t);
      shown, sent, states := shown + [s], sent + [t], states + [e.View()];
    }
    assert calls[..|calls|] == calls;
  }

  /** A run from all buttons up, whatever the calls: a call skipped shows its own
      buttons, and what any other shows and dispatches is what the history of the noted
      ones up to it says. */
  method Follow(e: Emulator, calls: History) returns (shown: seq<Buttons>, ghost sent: seq<seq<Buttons>>)
    requires e.enabled && e.state == NoButtons && Consistent(e.View())
    modifies e
    ensures |shown| == |sent| == |calls| && e.dispatched == old(e.dispatched) + InTurn(sent)
    ensures forall n :: 0 <= n < |calls| && Skipped(calls[n]) ==> shown[n] == calls[n].buttons && sent[n] == []
    ensures forall n :: 0 <= n < |calls| && !Skipped(calls[n]) ==>
              var rule, k := Within(e.maxMiddleClickTime), |Noted(calls[..n])|;
              && k < |Noted(calls)| && shown[n] == ShownBy(rule, Noted(calls), k)
              && SentBy(rule, Noted(calls), k, sent[n])
  {
    ghost var states;
    shown, sent, states := RunThrough(e, calls);
    ghost var notedStates, noted, notedSent := NotedRuns(Within(e.maxMiddleClickTime), calls, states, shown, sent);
    forall n | 0 <= n < |calls| && !Skipped(calls[n])
      ensures var rule, k := Within(e.maxMiddleClickTime), |Noted(calls[..n])|;
              && k < |Noted(calls)| && shown[n] == ShownBy(rule, Noted(calls), k)
              && SentBy(rule, Noted(calls), k, sent[n])
    {
      RunTells(Within(e.maxMiddleClickTime), Noted(calls), notedStates, noted, notedSent, |Noted(calls[..n])|);
    }
  }

  // A pair shows the middle button until one of its buttons goes up, never left and
  // right; and without a physical middle button nothing else ever shows one.
  lemma MiddleClick(early: Rule, h: History, j: int, n: nat)
    requires n < |h|
    ensures Pair(early, h, j) && j <= n && (forall k :: j < k <= n ==> Both(h[k].buttons)) ==>
      ShownBy(early, h, n) == MIDDLE_BUTTON
    ensures ShownBy(early, h, n).middle && !h[n].buttons.middle ==>
      exists j' :: Pair(early, h, j') && j' <= n && forall k :: j' < k <= n ==> Both(h[k].buttons)
  {
    if Paired(early, h, n + 1) {
      var j' :| Pair(early, h, j') && j' < n + 1 && forall k :: j' < k < n + 1 ==> Both(h[k].buttons);
    }
  }

  // A single press is held back until it is late, joined by the other button, or over.
  lemma HeldBack(early: Rule, h: History, n: nat, i: int)
    requires n < |h| && Press(early, h, n + 1, i)
    ensures ShownBy(early, h, n) == NONE || ShownBy(early, h, n) == MIDDLE_BUTTON
  {
    assert Pressed(early, h, n + 1);
  }
}
