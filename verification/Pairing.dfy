/** Two-packet reports.  A position packet marked as a first half waits for the
    packet that completes it; the driver does this with a flag and a saved packet,
    the parser below by looking ahead. */
module Pairing {
  import opened Wrappers
  import opened Bitmap
  import opened BoundingBox
  import opened Packets

  /** What is passed on: a touch to dispatch, or a trackstick packet. */
  datatype Report = Touch(x: int, y: int, z: nat, fingers: nat, buttons: bv8) | Trackstick(packet: Packet)

  /** Trackstick packets of the third protocol, handled apart. */
  predicate Aside(cfg: Config, p: Packet) {
    (cfg.format == Pinnacle || cfg.format == Rushmore) && p[5] == 0x3f
  }

  /** A trackstick packet that is not disregarded. */
  predicate Sane(cfg: Config, p: Packet) {
    cfg.dualPoint && Has(p[0], 0x40) && !(p[1] == 0x7f && p[2] == 0x7f && p[3] == 0x7f)
  }

  function StickReport(cfg: Config, p: Packet): seq<Report> {
    if Sane(cfg, p) then [Trackstick(p)] else []
  }

  /** Once the trackstick has reported a button itself, touch packets no longer do. */
  predicate NextQuirk(cfg: Config, quirk: bool, p: Packet) {
    quirk || (Sane(cfg, p) && Has(p[3], 0x07))
  }

  function Mask(left: bool, right: bool, middle: bool): bv8 {
    (if left then 0x01 else 0) | (if right then 0x02 else 0) | (if middle then 0x04 else 0)
  }

  function Buttons(cfg: Config, quirk: bool, p: Packet): bv8 {
    if cfg.format == SS4 then
      Mask(Has(p[0], 0x20), !cfg.buttonPad && Has(p[0], 0x40), !cfg.buttonPad && Has(p[0], 0x80))
    else
      var stick := cfg.dualPoint && !quirk;
      Mask(Has(p[3], 0x01) || (stick && Has(p[3], 0x10)), Has(p[3], 0x02) || (stick && Has(p[3], 0x20)),
           Has(p[3], 0x04) || (stick && Has(p[3], 0x40)))
  }

  function TouchReport(cfg: Config, quirk: bool, p: Packet, fingers: nat): Report {
    Touch(Position(cfg, p).x, cfg.panel.yMax - Position(cfg, p).y, Pressure(cfg, p), fingers, Buttons(cfg, quirk, p))
  }

  function OneFinger(cfg: Config, p: Packet): nat {
    if Pressure(cfg, p) > 0 then 1 else 0
  }

  /** A packet that stands for itself; the eighth protocol's trackstick says nothing. */
  function Alone(cfg: Config, quirk: bool, p: Packet): seq<Report> {
    if cfg.format == SS4 && KindSS4(p) == Stick then []
    else [TouchReport(cfg, quirk, p, if cfg.format == SS4 && KindSS4(p) == Two then 2 else OneFinger(cfg, p))]
  }

  /** Fingers of a report of two packets: the second tells, provided its bitmaps say
      something and it counts at least two. */
  function MergedFingers(cfg: Config, p: Packet, q: Packet): nat {
    if cfg.format == SS4 then FingerCount(cfg, q)
    else if XMap(cfg, q) != 0 && YMap(cfg, q) != 0 && FingerCount(cfg, q) >= 2 then FingerCount(cfg, q)
    else OneFinger(cfg, p)
  }

  function Merged(cfg: Config, quirk: bool, p: Packet, q: Packet): seq<Report> {
    [TouchReport(cfg, quirk, p, MergedFingers(cfg, p, q))]
  }

  // ---- The lookahead parser

  /** The first packet that is not a trackstick packet handled apart. */
  function NextTouch(cfg: Config, ps: seq<Packet>): (r: Option<nat>)
    ensures r.Some? ==> r.value < |ps|
  {
    if ps == [] then None
    else if !Aside(cfg, ps[0]) then Some(0)
    else match NextTouch(cfg, ps[1..]) case None => None case Some(j) => Some(j + 1)
  }

  function Sticks(cfg: Config, ps: seq<Packet>): seq<Report> {
    if ps == [] then [] else StickReport(cfg, ps[0]) + Sticks(cfg, ps[1..])
  }

  predicate Quirks(cfg: Config, quirk: bool, ps: seq<Packet>)
    decreases |ps|
  {
    if ps == [] then quirk else Quirks(cfg, NextQuirk(cfg, quirk, ps[0]), ps[1..])
  }

  /** A first half followed, trackstick packets apart, by a second half is reported
      merged, where the second half stands; otherwise it is dropped, and so is a
      second half without a first. */
  function Lookahead(cfg: Config, quirk: bool, ps: seq<Packet>): seq<Report>
    decreases |ps|
  {
    if ps == [] then []
    else
      var p, rest := ps[0], ps[1..];
      if Aside(cfg, p) then StickReport(cfg, p) + Lookahead(cfg, NextQuirk(cfg, quirk, p), rest)
      else if IsMp(cfg.format, p) then Lookahead(cfg, quirk, rest)
      else if !FirstMp(cfg.format, p) then Alone(cfg, quirk, p) + Lookahead(cfg, quirk, rest)
      else
        var next := NextTouch(cfg, rest);
        if next.Some? && IsMp(cfg.format, rest[next.value]) then
          var j, quirk' := next.value, Quirks(cfg, quirk, rest[..next.value]);
          Sticks(cfg, rest[..j]) + Merged(cfg, quirk', p, rest[j]) + Lookahead(cfg, quirk', rest[j + 1..])
        else Lookahead(cfg, quirk, rest)
  }

  // ---- The flag and the saved packet

  datatype Memory = Memory(saved: Option<Packet>, quirk: bool)

  /** A saved packet is always a first half that is not also a second. */
  predicate Consistent(cfg: Config, m: Memory) {
    m.saved.Some? ==>
      FirstMp(cfg.format, m.saved.value) && !IsMp(cfg.format, m.saved.value) && !Aside(cfg, m.saved.value)
  }

  function Step(cfg: Config, m: Memory, p: Packet): (Memory, seq<Report>) {
    if Aside(cfg, p) then (m.(quirk := NextQuirk(cfg, m.quirk, p)), StickReport(cfg, p))
    else if IsMp(cfg.format, p) then
      match m.saved
      case None => (m, [])
      case Some(first) => (m.(saved := None), Merged(cfg, m.quirk, first, p))
    else if FirstMp(cfg.format, p) then (m.(saved := Some(p)), [])
    else (m.(saved := None), Alone(cfg, m.quirk, p))
  }

  function Steps(cfg: Config, m: Memory, ps: seq<Packet>): (Memory, seq<Report>)
    decreases |ps|
  {
    if ps == [] then (m, [])
    else
      var (m', now) := Step(cfg, m, ps[0]);
      var (m'', later) := Steps(cfg, m', ps[1..]);
      (m'', now + later)
  }

  /** The memory before each packet and after the last, and what each packet reports. */
  ghost predicate Follows(cfg: Config, ps: seq<Packet>, ms: seq<Memory>, told: seq<seq<Report>>) {
    && |ms| == |ps| + 1 && |told| == |ps|
    && forall i {:trigger Step(cfg, ms[i], ps[i])} :: 0 <= i < |ps| ==> Step(cfg, ms[i], ps[i]) == (ms[i + 1], told[i])
  }

  function Together(told: seq<seq<Report>>): seq<Report> {
    if told == [] then [] else told[0] + Together(told[1..])
  }

  lemma {:induction false} StepsFollow(cfg: Config, m: Memory, ps: seq<Packet>)
    returns (ms: seq<Memory>, told: seq<seq<Report>>)
    ensures Follows(cfg, ps, ms, told) && ms[0] == m && Steps(cfg, m, ps).1 == Together(told)
    decreases |ps|
  {
    if ps == [] {
      ms, told := [m], [];
    } else {
      var (m', now) := Step(cfg, m, ps[0]);
      var ms', told' := StepsFollow(cfg, m', ps[1..]);
      ms, told := [m] + ms', [now] + told';
      assert forall i :: 0 < i < |ps| ==> ps[i] == ps[1..][i - 1] && ms[i] == ms'[i - 1] && told[i] == told'[i - 1];
    }
  }

  // A saved packet whose next touch packet is no second half changes nothing.
  lemma {:induction false} Unpaired(cfg: Config, p: Packet, quirk: bool, ps: seq<Packet>)
    requires var next := NextTouch(cfg, ps); next.Some? ==> !IsMp(cfg.format, ps[next.value])
    ensures Steps(cfg, Memory(Some(p), quirk), ps).1 == Steps(cfg, Memory(None, quirk), ps).1
    decreases |ps|
  {
    if ps != [] && Aside(cfg, ps[0]) {
      Unpaired(cfg, p, NextQuirk(cfg, quirk, ps[0]), ps[1..]);
    }
  }

  lemma Associate(a: seq<Report>, b: seq<Report>, c: seq<Report>, d: seq<Report>)
    ensures a + (b + c + d) == a + b + c + d
  {
  }

  // A saved packet is merged with a second half that follows, trackstick packets
  // falling between them.
  lemma {:induction false} Paired(cfg: Config, p: Packet, quirk: bool, ps: seq<Packet>)
    requires var next := NextTouch(cfg, ps); next.Some? && IsMp(cfg.format, ps[next.value])
    ensures var j := NextTouch(cfg, ps).value;
            var quirk' := Quirks(cfg, quirk, ps[..j]);
            Steps(cfg, Memory(Some(p), quirk), ps).1
            == Sticks(cfg, ps[..j]) + Merged(cfg, quirk', p, ps[j]) + Steps(cfg, Memory(None, quirk'), ps[j + 1..]).1
    decreases |ps|
  {
    var j := NextTouch(cfg, ps).value;
    if j == 0 {
      assert ps[..0] == [];
      assert Sticks(cfg, []) + Merged(cfg, quirk, p, ps[0]) == Merged(cfg, quirk, p, ps[0]);
    } else {
      var quirk1, rest := NextQuirk(cfg, quirk, ps[0]), ps[1..];
      Paired(cfg, p, quirk1, rest);
      assert ps[..j][1..] == rest[..j - 1] && ps[j + 1..] == rest[j..] && ps[j] == rest[j - 1];
      var quirk' := Quirks(cfg, quirk1, rest[..j - 1]);
      Associate(StickReport(cfg, ps[0]), Sticks(cfg, rest[..j - 1]), Merged(cfg, quirk', p, ps[j]),
                Steps(cfg, Memory(None, quirk'), ps[j + 1..]).1);
    }
  }

  // For every list of packets the flag and the saved packet report exactly what the
  // lookahead parser does.
  lemma {:induction false} MemoryIsLookahead(cfg: Config, quirk: bool, ps: seq<Packet>)
    ensures Steps(cfg, Memory(None, quirk), ps).1 == Lookahead(cfg, quirk, ps)
    decreases |ps|
  {
    if ps != [] {
      var p, rest := ps[0], ps[1..];
      var next := NextTouch(cfg, rest);
      if !Aside(cfg, p) && !IsMp(cfg.format, p) && FirstMp(cfg.format, p)
         && next.Some? && IsMp(cfg.format, rest[next.value]) {
        Paired(cfg, p, quirk, rest);
        MemoryIsLookahead(cfg, Quirks(cfg, quirk, rest[..next.value]), rest[next.value + 1..]);
      } else {
        if !Aside(cfg, p) && !IsMp(cfg.format, p) && FirstMp(cfg.format, p) { Unpaired(cfg, p, quirk, rest); }
        MemoryIsLookahead(cfg, if Aside(cfg, p) then NextQuirk(cfg, quirk, p) else quirk, rest);
      }
    }
  }
}
