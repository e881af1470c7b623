/** What the driver reports of a touch, told from the touch itself: from the layout of
    its packet through decoding and pairing to the report. */
module TouchReports {
  import opened Wrappers
  import opened Bitmap
  import opened BoundingBox
  import opened Packets
  import opened Pairing
  import opened PacketCodec
  import opened PacketHandler

  /** Exactly these buttons are down. */
  predicate Down(b: bv8, left: bool, right: bool, middle: bool) {
    Has(b, 0x01) == left && Has(b, 0x02) == right && Has(b, 0x04) == middle && b & 0xf8 == 0
  }

  lemma MaskDown(left: bool, right: bool, middle: bool)
    ensures Down(Mask(left, right, middle), left, right, middle)
  {
  }

  /** The buttons of a touch: a button pad has only the left one, and the trackstick's
      count on models with one until it reports them itself. */
  predicate KeysDown(cfg: Config, quirk: bool, b: bv8, k: Keys) {
    if cfg.format == SS4 then Down(b, k.left, k.right && !cfg.buttonPad, k.middle && !cfg.buttonPad)
    else
      var stick := cfg.dualPoint && !quirk;
      Down(b, k.left || (stick && k.stickLeft), k.right || (stick && k.stickRight),
           k.middle || (stick && k.stickMiddle))
  }

  /** The report of a touch: where it is, with y counted from the bottom, its pressure,
      and the buttons down. */
  predicate Reports(cfg: Config, quirk: bool, r: Report, s: Spot, z: nat, fingers: nat) {
    && r.Touch? && r.x == s.x as int && r.y == cfg.panel.yMax - s.y as int && r.z == z && r.fingers == fingers
    && KeysDown(cfg, quirk, r.buttons, s.keys)
  }

  lemma PadButtons(cfg: Config, quirk: bool, p: Packet, k: Keys)
    requires cfg.format == SS4 && PadKeysIn(cfg, p[0], k)
    ensures KeysDown(cfg, quirk, Buttons(cfg, quirk, p), k)
  {
    MaskDown(Has(p[0], 0x20), !cfg.buttonPad && Has(p[0], 0x40), !cfg.buttonPad && Has(p[0], 0x80));
  }

  lemma StickButtons(cfg: Config, quirk: bool, p: Packet, k: Keys)
    requires cfg.format != SS4 && KeysIn(p[3], k)
    ensures KeysDown(cfg, quirk, Buttons(cfg, quirk, p), k)
  {
    var stick := cfg.dualPoint && !quirk;
    MaskDown(Has(p[3], 0x01) || (stick && Has(p[3], 0x10)), Has(p[3], 0x02) || (stick && Has(p[3], 0x20)),
             Has(p[3], 0x04) || (stick && Has(p[3], 0x40)));
  }

  // The buttons aside, a report is made of what the decoders say.
  lemma ReportOf(cfg: Config, at: Pos, z: nat, fingers: nat, b: bv8, quirk: bool, s: Spot)
    requires at == Pos(s.x as int, s.y as int) && KeysDown(cfg, quirk, b, s.keys)
    ensures Reports(cfg, quirk, Touch(at.x, cfg.panel.yMax - at.y, z, fingers, b), s, z, fingers)
  {
  }

  lemma TouchReported(cfg: Config, quirk: bool, p: Packet, s: Spot, z: nat, fingers: nat)
    requires Says(cfg, p, s, z)
    ensures Reports(cfg, quirk, TouchReport(cfg, quirk, p, fingers), s, z, fingers)
  {
    if cfg.format == SS4 {
      PadButtons(cfg, quirk, p, s.keys);
    } else {
      StickButtons(cfg, quirk, p, s.keys);
    }
    ReportOf(cfg, Position(cfg, p), Pressure(cfg, p), fingers, Buttons(cfg, quirk, p), quirk, s);
  }

  // ---- One packet

  /** The packet a touchpad sends for a touch; the eighth protocol's may carry another. */
  function Lay(cfg: Config, s: Spot, other: Option<(bv32, bv32)>): Packet {
    match cfg.format
    case Pinnacle => SpotV3(s)
    case Rushmore => SpotV3(s)
    case Dolphin => SpotDolphin(s)
    case SS4 => if other.None? then SpotOne(s) else SpotTwo(cfg.buttonPad, s, other.value.0, other.value.1)
  }

  /** The touches a packet can carry: within the bits of its format. */
  predicate Carried(cfg: Config, s: Spot, other: Option<(bv32, bv32)>) {
    match cfg.format
    case Pinnacle => other.None? && s.x < 0x800 && s.y < 0x800 && s.z < 0x80
    case Rushmore => other.None? && s.x < 0x800 && s.y < 0x800 && s.z < 0x80
    case Dolphin => other.None? && s.x < 0x800 && s.y < 0x800 && s.z < 0x80
    case SS4 =>
      if other.None? then s.x < 0x2000 && s.y < 0x1000 && s.z < 0x100 && !s.first && !Nothing(s)
      else Coarse(cfg.buttonPad, s.x, s.y)
  }

  /** The pressures that the third protocol's packets mistake for something else. */
  predicate Mistaken(cfg: Config, s: Spot) {
    (cfg.format == Pinnacle && s.z == 63) || (cfg.format == Rushmore && s.z >= 63)
  }

  function Strength(cfg: Config, s: Spot, other: Option<(bv32, bv32)>): nat {
    if cfg.format != SS4 then s.z as nat
    else if other.None? then 2 * s.z as nat % 0x80
    else if s.z != 0 then 48 else 0
  }

  lemma LayRead(cfg: Config, s: Spot, other: Option<(bv32, bv32)>)
    requires Carried(cfg, s, other)
    ensures var p := Lay(cfg, s, other);
            && Says(cfg, p, s, Strength(cfg, s, other))
            && (Aside(cfg, p) || IsMp(cfg.format, p) <==> Mistaken(cfg, s))
            && (cfg.format == SS4 ==> KindSS4(p) == if other.None? then One else Two)
  {
    match cfg.format
    case Dolphin => SpotDolphinRead(cfg, s);
    case SS4 => if other.None? { SpotOneRead(cfg, s); } else { SpotTwoRead(cfg, s, other.value.0, other.value.1); }
    case _ => SpotV3Read(cfg, s);
  }

  function Fingers(cfg: Config, s: Spot, other: Option<(bv32, bv32)>): nat {
    if other.Some? then 2 else if Strength(cfg, s, other) > 0 then 1 else 0
  }

  // A touch is reported as it is, if no other packet completes it and its pressure is
  // none of those mistaken; if another completes it, nothing is reported yet.
  lemma SpotReported(cfg: Config, m: Memory, s: Spot, other: Option<(bv32, bv32)>)
    requires Carried(cfg, s, other) && !Mistaken(cfg, s)
    ensures var (m', now) := Step(cfg, m, Lay(cfg, s, other));
            if s.first then now == [] && m' == Memory(Some(Lay(cfg, s, other)), m.quirk)
            else |now| == 1 && Reports(cfg, m.quirk, now[0], s, Strength(cfg, s, other), Fingers(cfg, s, other))
                 && m' == Memory(None, m.quirk)
  {
    LayRead(cfg, s, other);
    TouchReported(cfg, m.quirk, Lay(cfg, s, other), s, Strength(cfg, s, other), Fingers(cfg, s, other));
  }

  // ---- Two packets

  // A touch and the packet that completes it are reported as the touch, with the
  // fingers the second packet counts: on the semi-multi-touch formats if it has a bit
  // on both axes and counts at least two, otherwise with the touch's own.
  lemma PairReported(cfg: Config, quirk: bool, s: Spot, other: Option<(bv32, bv32)>, q: Packet, xMap: nat, yMap: nat,
                     count: nat)
    requires Carried(cfg, s, other) && !Mistaken(cfg, s) && s.first
    requires IsMp(cfg.format, q) && !Aside(cfg, q) && FingerCount(cfg, q) == count
    requires XMap(cfg, q) == xMap && YMap(cfg, q) == yMap
    ensures var p, z := Lay(cfg, s, other), Strength(cfg, s, other);
            var (m, reports) := Steps(cfg, Memory(None, quirk), [p, q]);
            && m == Memory(None, quirk) && |reports| == 1
            && Reports(cfg, quirk, reports[0], s, z,
                       if cfg.format == SS4 || (xMap != 0 && yMap != 0 && count >= 2) then count
                       else if z > 0 then 1 else 0)
  {
    var p, z := Lay(cfg, s, other), Strength(cfg, s, other);
    LayRead(cfg, s, other);
    SpotReported(cfg, Memory(None, quirk), s, other);
    TouchReported(cfg, quirk, p, s, z, MergedFingers(cfg, p, q));
    PairSteps(cfg, Memory(None, quirk), p, q);
  }

  lemma PairSteps(cfg: Config, m: Memory, p: Packet, q: Packet)
    ensures var (m1, now) := Step(cfg, m, p);
            var (m2, later) := Step(cfg, m1, q);
            Steps(cfg, m, [p, q]) == (m2, now + later)
  {
    var (m1, now) := Step(cfg, m, p);
    var (m2, later) := Step(cfg, m1, q);
    assert [p, q][1..] == [q] && [q][1..] == [];
    assert Steps(cfg, m2, []) == (m2, []) && later + [] == later;
    assert Steps(cfg, m1, [q]) == (m2, later);
  }

  // ---- The handler

  /** A touch put through the running handler. */
  method ReportSpot(h: Handler, s: Spot, other: Option<(bv32, bv32)>)
    requires h.Valid() && Carried(h.cfg, s, other) && !Mistaken(h.cfg, s) && !s.first
    modifies h`multiPacket, h`multiData, h`quirk, h`reports, h.surface
    ensures h.Valid() && h.quirk == old(h.quirk) && |h.reports| == |old(h.reports)| + 1 && old(h.reports) <= h.reports
    ensures Reports(h.cfg, h.quirk, h.reports[|old(h.reports)|], s, Strength(h.cfg, s, other), Fingers(h.cfg, s, other))
  {
    SpotReported(h.cfg, h.View(), s, other);
    h.ProcessPacket(Lay(h.cfg, s, other));
  }

  // ---- Trackstick buttons

  // The trackstick's buttons stop counting in touch packets once, and only once, a
  // trackstick packet that is not disregarded has one down.
  lemma {:induction false} QuirkLatched(cfg: Config, quirk: bool, ps: seq<Packet>)
    ensures Quirks(cfg, quirk, ps) <==>
      quirk || (cfg.dualPoint && exists i :: 0 <= i < |ps| && ps[i][0] & 0x40 != 0 && ps[i][3] & 0x07 != 0
                                             && (ps[i][1] != 0x7f || ps[i][2] != 0x7f || ps[i][3] != 0x7f))
    decreases |ps|
  {
    if ps != [] {
      var later := ps[1..];
      QuirkLatched(cfg, NextQuirk(cfg, quirk, ps[0]), later);
      assert forall i :: 0 <= i < |later| ==> later[i] == ps[i + 1];
      assert forall i :: 0 < i < |ps| ==> ps[i] == later[i - 1];
    }
  }

  // A packet by hand: on the first models the bytes below are a touch at (1024, 256)
  // with pressure 32, and the report counts y from the bottom.
  lemma KnownPacket(cfg: Config)
    requires cfg.format == Pinnacle && cfg.panel.yMax == 1400
    ensures Step(cfg, Memory(None, false), [0x8f, 0x40, 0x10, 0x00, 0x00, 0x20]).1 == [Touch(1024, 1144, 32, 1, 0)]
  {
    var p: Packet := [0x8f, 0x40, 0x10, 0x00, 0x00, 0x20];
    assert XV3(p[0], p[1], p[4]) == 1024 && YV3(p[2], p[4]) == 256;
    assert Position(cfg, p) == Pos(1024, 256) && Pressure(cfg, p) == 32;
    assert Buttons(cfg, false, p) == 0;
  }
}
