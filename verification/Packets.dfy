/** The touchpad's packet formats: what each kind of packet says. */
module Packets {
  import opened Bitmap
  import opened BoundingBox

  type Packet = p: seq<bv8> | |p| == 6 witness [0, 0, 0, 0, 0, 0]

  datatype Format = Pinnacle | Rushmore | Dolphin | SS4

  datatype Config = Config(format: Format, panel: Panel, dualPoint: bool, buttonPad: bool) {
    /** The panels the formats are used with. */
    predicate Valid() {
      && panel.Valid()
      && (format == Pinnacle ==> panel.xBits == 15 && panel.yBits == 11)
      && (format == Rushmore ==> panel.xBits == 16 && panel.yBits == 12)
    }
  }

  /** The decoded fields of a packet that later stages use. */
  datatype Fields = Fields(xMap: nat, yMap: nat, fingers: nat, pressure: nat, st: Pos,
                           firstMp: bool, isMp: bool, left: bool, right: bool, middle: bool,
                           tsLeft: bool, tsRight: bool, tsMiddle: bool)

  const BLANK := Fields(0, 0, 0, 0, Pos(0, 0), false, false, false, false, false, false, false, false)

  predicate Has(b: bv8, mask: bv8) {
    b & mask != 0
  }

  // ---- Which kind of packet

  datatype SS4Kind = Idle | One | Two | Stick | Multi

  function KindSS4(p: Packet): SS4Kind {
    var id := p[3] & 0x30;
    if id == 0x10 then Two
    else if id == 0x20 then Stick
    else if id == 0x30 then Multi
    else if p[0] == 0x18 && p[1] == 0x10 && p[2] == 0x00
            && p[3] & 0x88 == 0x08 && p[4] == 0x10 && p[5] == 0x00 then Idle
    else One
  }

  /** The second half of a report: a bitmap, or the third and fourth fingers. */
  predicate IsMp(format: Format, p: Packet) {
    match format
    case Pinnacle => Has(p[0], 0x40)
    case Rushmore => Has(p[5], 0x40)
    case Dolphin => Has(p[0], 0x20)
    case SS4 => KindSS4(p) == Multi
  }

  /** Marked as the first half of a report. */
  predicate FirstMp(format: Format, p: Packet) {
    match format
    case Pinnacle => Has(p[4], 0x40)
    case Rushmore => Has(p[4], 0x40)
    case Dolphin => Has(p[0], 0x02)
    case SS4 => KindSS4(p) == Two && Has(p[2], 0x10)
  }

  // ---- Positions

  function Wide(b: bv8): bv32 {
    b as bv32
  }

  function XV3(b0: bv8, b1: bv8, b4: bv8): bv32 {
    (Wide(b1 & 0x7f) << 4) | (Wide(b4 & 0x30) >> 2) | (Wide(b0 & 0x30) >> 4)
  }

  function YV3(b2: bv8, b4: bv8): bv32 {
    (Wide(b2 & 0x7f) << 4) | Wide(b4 & 0x0f)
  }

  function XDolphin(b1: bv8, b4: bv8): bv32 {
    Wide(b1 & 0x7f) | (Wide(b4 & 0x0f) << 7)
  }

  function YDolphin(b2: bv8, b4: bv8): bv32 {
    Wide(b2 & 0x7f) | (Wide(b4 & 0xf0) << 3)
  }

  function OneX(b0: bv8, b1: bv8, b2: bv8): bv32 {
    (Wide(b0) & 0x0007) | ((Wide(b1) << 3) & 0x0078) | ((Wide(b1) << 2) & 0x0380) | ((Wide(b2) << 5) & 0x1C00)
  }

  function OneY(b2: bv8, b3: bv8, b4: bv8): bv32 {
    (Wide(b2) & 0x000F) | ((Wide(b3) >> 2) & 0x0030) | ((Wide(b4) << 6) & 0x03C0) | ((Wide(b4) << 5) & 0x0C00)
  }

  function OneZ(b4: bv8, b5: bv8): bv32 {
    (Wide(b5) & 0x0F) | ((Wide(b5) >> 1) & 0x70) | (Wide(b4) & 0x80)
  }

  /** One finger of a two-finger packet; button pads report one more bit. */
  function FingerX(buttonPad: bool, b0: bv8, b1: bv8): bv32 {
    ((Wide(b0) << 5) & 0x00E0) | ((Wide(b1) << 5) & 0x1F00) | (if buttonPad then (Wide(b0) >> 3) & 0x0010 else 0)
  }

  function FingerY(buttonPad: bool, b0: bv8, b1: bv8, b2: bv8): bv32 {
    ((Wide(b1) << 3) & 0x0010) | ((Wide(b2) << 5) & 0x01E0) | ((Wide(b2) << 4) & 0x0E00)
    | (if buttonPad then (Wide(b0) >> 3) & 0x0008 else 0)
  }

  function Position(cfg: Config, p: Packet): Pos {
    match cfg.format
    case Pinnacle => Pos(XV3(p[0], p[1], p[4]) as int, YV3(p[2], p[4]) as int)
    case Rushmore => Pos(XV3(p[0], p[1], p[4]) as int, YV3(p[2], p[4]) as int)
    case Dolphin => Pos(XDolphin(p[1], p[4]) as int, YDolphin(p[2], p[4]) as int)
    case SS4 =>
      match KindSS4(p)
      case One => Pos(OneX(p[0], p[1], p[2]) as int, OneY(p[2], p[3], p[4]) as int)
      case Two => Pos(FingerX(cfg.buttonPad, p[0], p[1]) as int, FingerY(cfg.buttonPad, p[0], p[1], p[2]) as int)
      case _ => Pos(0, 0)
  }

  function Pressure(cfg: Config, p: Packet): nat {
    match cfg.format
    case Pinnacle => (p[5] & 0x7f) as nat
    case Rushmore => (p[5] & 0x7f) as nat
    case Dolphin => if Has(p[0], 0x04) then 0 else (p[5] & 0x7f) as nat
    case SS4 =>
      match KindSS4(p)
      case One => ((OneZ(p[4], p[5]) * 2) & 0x7f) as nat
      case Two => if Has(p[1], 0x01) || Has(p[1] >> 1, 0x02) then 0x30 else 0
      case _ => 0
  }

  // ---- The second half: bitmaps and finger counts

  function Palm(b0: bv8, b1: bv8, b2: bv8, b3: bv8, b4: bv8, b5: bv8): bv64 {
    (b1 & 0x7f) as bv64 | ((b2 & 0x7f) as bv64 << 7) | ((b4 & 0x7f) as bv64 << 14) | ((b5 & 0x7f) as bv64 << 21)
    | ((b3 & 0x07) as bv64 << 28) | ((b3 & 0x70) as bv64 << 27) | ((b0 & 0x01) as bv64 << 34)
  }

  function PalmOf(p: Packet): nat {
    Palm(p[0], p[1], p[2], p[3], p[4], p[5]) as nat
  }

  function PinnacleX(b0: bv8, b1: bv8, b4: bv8): bv32 {
    (Wide(b4 & 0x7e) << 8) | (Wide(b1 & 0x7f) << 2) | (Wide(b0 & 0x30) >> 4)
  }

  function PinnacleY(b2: bv8, b3: bv8, b4: bv8): bv32 {
    (Wide(b3 & 0x70) << 4) | (Wide(b2 & 0x7f) << 1) | Wide(b4 & 0x01)
  }

  function RushmoreX(b0: bv8, b1: bv8, b4: bv8, b5: bv8): bv32 {
    (Wide(b5 & 0x10) << 11) | PinnacleX(b0, b1, b4)
  }

  function RushmoreY(b2: bv8, b3: bv8, b4: bv8, b5: bv8): bv32 {
    (Wide(b5 & 0x20) << 6) | PinnacleY(b2, b3, b4)
  }

  function XMap(cfg: Config, p: Packet): nat {
    match cfg.format
    case Pinnacle => PinnacleX(p[0], p[1], p[4]) as nat
    case Rushmore => RushmoreX(p[0], p[1], p[4], p[5]) as nat
    case Dolphin => PalmOf(p) / Pow2(cfg.panel.yBits) % Pow2(cfg.panel.xBits)
    case SS4 => 0
  }

  function YMap(cfg: Config, p: Packet): nat {
    match cfg.format
    case Pinnacle => PinnacleY(p[2], p[3], p[4]) as nat
    case Rushmore => RushmoreY(p[2], p[3], p[4], p[5]) as nat
    case Dolphin => PalmOf(p) % Pow2(cfg.panel.yBits)
    case SS4 => 0
  }

  function FingerCount(cfg: Config, p: Packet): nat {
    match cfg.format
    case Pinnacle => (p[5] & 0x03) as nat + 1
    case Rushmore => Max((p[5] & 0x03) as nat, ((p[5] >> 2) & 0x03) as nat) + 1
    case Dolphin => (((p[0] & 0x06) >> 1) | ((p[0] & 0x10) >> 2)) as nat
    case SS4 =>
      if Has(p[2], 0x10) then 5
      else if FingerX(cfg.buttonPad, p[3], p[4]) == (if cfg.buttonPad then 8176 else 8160)
              && FingerY(cfg.buttonPad, p[3], p[4], p[5]) == (if cfg.buttonPad then 4088 else 4080) then 3
      else 4
  }

  lemma PinnacleFits(b0: bv8, b1: bv8, b2: bv8, b3: bv8, b4: bv8)
    ensures PinnacleX(b0, b1, b4) as nat < 0x8000 && PinnacleY(b2, b3, b4) as nat < 0x800
  {
    assert PinnacleX(b0, b1, b4) < 0x8000 && PinnacleY(b2, b3, b4) < 0x800;
  }

  lemma RushmoreFits(b0: bv8, b1: bv8, b2: bv8, b3: bv8, b4: bv8, b5: bv8)
    ensures RushmoreX(b0, b1, b4, b5) as nat < 0x10000 && RushmoreY(b2, b3, b4, b5) as nat < 0x1000
  {
    assert RushmoreX(b0, b1, b4, b5) < 0x10000 && RushmoreY(b2, b3, b4, b5) < 0x1000;
  }

  lemma PowValues()
    ensures Pow2(11) == 0x800 && Pow2(12) == 0x1000 && Pow2(15) == 0x8000 && Pow2(16) == 0x10000
  {
    assert Pow2(4) == 16 && Pow2(8) == 256;
    assert Pow2(11) == 2 * Pow2(10) && Pow2(10) == 2 * Pow2(9) && Pow2(9) == 2 * Pow2(8);
    assert Pow2(15) == 2 * Pow2(14) && Pow2(14) == 2 * Pow2(13) && Pow2(13) == 2 * Pow2(12);
  }

  // Decoded bitmaps fit the panel, and decoded positions the touch range.
  lemma MapsFit(cfg: Config, p: Packet)
    requires cfg.Valid()
    ensures XMap(cfg, p) < Pow2(cfg.panel.xBits) && YMap(cfg, p) < Pow2(cfg.panel.yBits)
  {
    match cfg.format
    case Pinnacle => PowValues(); PinnacleFits(p[0], p[1], p[2], p[3], p[4]);
    case Rushmore => PowValues(); RushmoreFits(p[0], p[1], p[2], p[3], p[4], p[5]);
    case _ =>
  }

  lemma FitsV3(b0: bv8, b1: bv8, b2: bv8, b4: bv8)
    ensures XV3(b0, b1, b4) as int < 0x800 && YV3(b2, b4) as int < 0x800
  {
    assert XV3(b0, b1, b4) < 0x800 && YV3(b2, b4) < 0x800;
  }

  lemma FitsDolphin(b1: bv8, b2: bv8, b4: bv8)
    ensures XDolphin(b1, b4) as int < 0x800 && YDolphin(b2, b4) as int < 0x800
  {
    assert XDolphin(b1, b4) < 0x800 && YDolphin(b2, b4) < 0x800;
  }

  lemma FitsOne(b0: bv8, b1: bv8, b2: bv8, b3: bv8, b4: bv8)
    ensures OneX(b0, b1, b2) as int < 0x2000 && OneY(b2, b3, b4) as int < 0x1000
  {
    assert OneX(b0, b1, b2) < 0x2000 && OneY(b2, b3, b4) < 0x1000;
  }

  lemma FitsFinger(buttonPad: bool, b0: bv8, b1: bv8, b2: bv8)
    ensures FingerX(buttonPad, b0, b1) as int < 0x2000 && FingerY(buttonPad, b0, b1, b2) as int < 0x1000
  {
    assert FingerX(buttonPad, b0, b1) < 0x2000 && FingerY(buttonPad, b0, b1, b2) < 0x1000;
  }

  predicate Fits(at: Pos) {
    0 <= at.x < 0x4000 && 0 <= at.y < 0x4000
  }

  lemma V3Fits(b0: bv8, b1: bv8, b2: bv8, b4: bv8)
    ensures Fits(Pos(XV3(b0, b1, b4) as int, YV3(b2, b4) as int))
  {
    FitsV3(b0, b1, b2, b4);
  }

  lemma DolphinFits(b1: bv8, b2: bv8, b4: bv8)
    ensures Fits(Pos(XDolphin(b1, b4) as int, YDolphin(b2, b4) as int))
  {
    FitsDolphin(b1, b2, b4);
  }

  lemma OneFits(b0: bv8, b1: bv8, b2: bv8, b3: bv8, b4: bv8)
    ensures Fits(Pos(OneX(b0, b1, b2) as int, OneY(b2, b3, b4) as int))
  {
    FitsOne(b0, b1, b2, b3, b4);
  }

  lemma FingerFits(buttonPad: bool, b0: bv8, b1: bv8, b2: bv8)
    ensures Fits(Pos(FingerX(buttonPad, b0, b1) as int, FingerY(buttonPad, b0, b1, b2) as int))
  {
    FitsFinger(buttonPad, b0, b1, b2);
  }

  lemma PositionFits(cfg: Config, p: Packet)
    ensures Fits(Position(cfg, p))
  {
    V3Fits(p[0], p[1], p[2], p[4]);
    DolphinFits(p[1], p[2], p[4]);
    OneFits(p[0], p[1], p[2], p[3], p[4]);
    FingerFits(cfg.buttonPad, p[0], p[1], p[2]);
  }

  // ---- Decoding into a set of fields

  function ButtonsV3(f: Fields, p: Packet): Fields {
    f.(left := Has(p[3], 0x01), right := Has(p[3], 0x02), middle := Has(p[3], 0x04),
       tsLeft := Has(p[3], 0x10), tsRight := Has(p[3], 0x20), tsMiddle := Has(p[3], 0x40))
  }

  /** The semi-multi-touch decoders: a bitmap packet sets the maps and the finger
      count, any other the position, pressure and buttons; the rest stays. */
  function DecodeSemi(cfg: Config, f: Fields, p: Packet): Fields {
    var g := f.(firstMp := FirstMp(cfg.format, p), isMp := IsMp(cfg.format, p));
    if g.isMp then g.(fingers := FingerCount(cfg, p), xMap := XMap(cfg, p), yMap := YMap(cfg, p))
    else ButtonsV3(g.(st := Position(cfg, p), pressure := Pressure(cfg, p)), p)
  }

  /** The eighth protocol's decoder.  Its first touch takes the place of st. */
  function DecodeSS4(cfg: Config, f: Fields, p: Packet): Fields {
    var g := match KindSS4(p)
      case One => f.(st := Position(cfg, p), pressure := Pressure(cfg, p),
                    fingers := if Pressure(cfg, p) > 0 then 1 else 0,
                    firstMp := false, isMp := false)
      case Two => f.(st := Position(cfg, p), pressure := Pressure(cfg, p), firstMp := Has(p[2], 0x10), isMp := false,
                     fingers := if Has(p[2], 0x10) then f.fingers else 2)
      case Multi => f.(firstMp := false, isMp := true, fingers := FingerCount(cfg, p))
      case Stick => f.(firstMp := false, isMp := false)
      case Idle => BLANK;
    if KindSS4(p) == Stick then
      if cfg.buttonPad then g.(tsLeft := Has(p[0], 0x20))
      else g.(tsLeft := Has(p[0], 0x20), tsRight := Has(p[0], 0x40), tsMiddle := Has(p[0], 0x80))
    else
      if cfg.buttonPad then g.(left := Has(p[0], 0x20))
      else g.(left := Has(p[0], 0x20), right := Has(p[0], 0x40), middle := Has(p[0], 0x80))
  }
}
