/** Packets as the touchpads lay them out, and what the driver reads back from them:
    the decoders undo the layouts, field by field. */
module PacketCodec {
  import opened Wrappers
  import opened Bitmap
  import opened BoundingBox
  import opened Packets
  import opened Pairing
  import opened CArith

  /** The buttons of the touchpad, and those of the trackstick. */
  datatype Keys = Keys(left: bool, right: bool, middle: bool, stickLeft: bool, stickRight: bool, stickMiddle: bool)

  /** A touch: where, how hard, the buttons, and whether another packet completes it. */
  datatype Spot = Spot(x: bv32, y: bv32, z: bv32, keys: Keys, first: bool)

  function Bits(on: bool, mask: bv32): bv32 {
    if on then mask else 0
  }

  function Byte(v: bv32): bv8 {
    ByteFits(v);
    (v & 0xff) as bv8
  }

  lemma ByteFits(v: bv32)
    ensures (v & 0xff) as nat < 0x100
  {
    assert v & 0xff < 0x100;
  }

  /** The button byte of the third and fifth protocols. */
  function KeyByte(k: Keys): bv8 {
    Byte(Bits(k.left, 0x01) | Bits(k.right, 0x02) | Bits(k.middle, 0x04)
         | Bits(k.stickLeft, 0x10) | Bits(k.stickRight, 0x20) | Bits(k.stickMiddle, 0x40))
  }

  lemma KeysRead(k: Keys)
    ensures KeysIn(KeyByte(k), k)
  {
  }

  /** The eighth protocol's buttons, in the first byte; a button pad has but one. */
  predicate PadKeysIn(cfg: Config, b: bv8, k: Keys) {
    Has(b, 0x20) == k.left && (!cfg.buttonPad ==> Has(b, 0x40) == k.right && Has(b, 0x80) == k.middle)
  }

  predicate KeysIn(b: bv8, k: Keys) {
    && Has(b, 0x01) == k.left && Has(b, 0x02) == k.right && Has(b, 0x04) == k.middle
    && Has(b, 0x10) == k.stickLeft && Has(b, 0x20) == k.stickRight && Has(b, 0x40) == k.stickMiddle
  }

  /** The packet, decoded, is that touch with that pressure. */
  predicate Says(cfg: Config, p: Packet, s: Spot, z: nat) {
    && Position(cfg, p) == Pos(s.x as int, s.y as int) && Pressure(cfg, p) == z && FirstMp(cfg.format, p) == s.first
    && (if cfg.format == SS4 then PadKeysIn(cfg, p[0], s.keys) else KeysIn(p[3], s.keys))
  }

  // ---- The third protocol

  /** A position.  The low two bits of x lie in the first byte, the next two beside the
      low four of y, and the high seven of each in a byte of their own. */
  function SpotV3(s: Spot): Packet {
    [Byte(0x8f | ((s.x & 0x03) << 4)), Byte(s.x >> 4), Byte(s.y >> 4), KeyByte(s.keys),
     Byte((((s.x >> 2) & 0x03) << 4) | (s.y & 0x0f) | Bits(s.first, 0x40)), Byte(s.z)]
  }

  lemma PlaceV3(x: bv32, y: bv32, first: bool)
    requires x < 0x800 && y < 0x800
    ensures var b4 := Byte((((x >> 2) & 0x03) << 4) | (y & 0x0f) | Bits(first, 0x40));
            && XV3(Byte(0x8f | ((x & 0x03) << 4)), Byte(x >> 4), b4) == x
            && YV3(Byte(y >> 4), b4) == y && Has(b4, 0x40) == first
  {
  }

  lemma OtherV3(x: bv32, z: bv32)
    requires z < 0x80
    ensures (Byte(z) & 0x7f) as nat == z as nat && (Byte(z) == 0x3f <==> z == 0x3f)
    ensures (Has(Byte(z), 0x40) <==> z >= 0x40)
    ensures !Has(Byte(0x8f | ((x & 0x03) << 4)), 0x40)
  {
    assert Wide(Byte(z) & 0x7f) == z;
    assert (Byte(z) & 0x7f) as nat == Wide(Byte(z) & 0x7f) as nat;
  }

  lemma BytesV3(s: Spot)
    ensures var p := SpotV3(s);
            && p[0] == Byte(0x8f | ((s.x & 0x03) << 4)) && p[1] == Byte(s.x >> 4) && p[2] == Byte(s.y >> 4)
            && p[3] == KeyByte(s.keys)
            && p[4] == Byte((((s.x >> 2) & 0x03) << 4) | (s.y & 0x0f) | Bits(s.first, 0x40)) && p[5] == Byte(s.z)
  {
  }

  // What a packet with such fields says, whatever its bytes are.
  lemma V3Says(cfg: Config, p: Packet, s: Spot)
    requires cfg.format == Pinnacle || cfg.format == Rushmore
    requires XV3(p[0], p[1], p[4]) == s.x && YV3(p[2], p[4]) == s.y && Has(p[4], 0x40) == s.first
    requires KeysIn(p[3], s.keys)
    requires (p[5] & 0x7f) as nat == s.z as nat && (p[5] == 0x3f <==> s.z == 0x3f) && (Has(p[5], 0x40) <==> s.z >= 0x40)
    requires !Has(p[0], 0x40)
    ensures Says(cfg, p, s, s.z as nat)
    ensures Aside(cfg, p) <==> s.z == 0x3f
    ensures IsMp(cfg.format, p) <==> cfg.format == Rushmore && s.z >= 0x40
  {
  }

  // What is read back from a position.  Pressure 63 looks like a trackstick packet, and
  // on Rushmore models 64 and more like a bitmap.
  lemma SpotV3Read(cfg: Config, s: Spot)
    requires cfg.format == Pinnacle || cfg.format == Rushmore
    requires s.x < 0x800 && s.y < 0x800 && s.z < 0x80
    ensures var p := SpotV3(s);
            && Says(cfg, p, s, s.z as nat)
            && (Aside(cfg, p) <==> s.z == 0x3f) && (IsMp(cfg.format, p) <==> cfg.format == Rushmore && s.z >= 0x40)
  {
    PlaceV3(s.x, s.y, s.first);
    OtherV3(s.x, s.z);
    KeysRead(s.keys);
    BytesV3(s);
    V3Says(cfg, SpotV3(s), s);
  }

  /** Bitmaps and the number of contacts, less one, on the third protocol's first models. */
  function MapsPinnacle(xMap: bv32, yMap: bv32, more: bv32): Packet {
    [Byte(0xcf | ((xMap & 0x03) << 4)), Byte((xMap >> 2) & 0x7f), Byte((yMap >> 1) & 0x7f), Byte((yMap >> 4) & 0x70),
     Byte(((xMap >> 8) & 0x7e) | (yMap & 0x01)), Byte(more)]
  }

  lemma MapsV3(xMap: bv32, yMap: bv32, mark: bv32)
    requires xMap < 0x8000 && yMap < 0x800 && (mark == 0x8f || mark == 0xcf)
    ensures var b4 := Byte(((xMap >> 8) & 0x7e) | (yMap & 0x01));
            && PinnacleX(Byte(mark | ((xMap & 0x03) << 4)), Byte((xMap >> 2) & 0x7f), b4) == xMap
            && PinnacleY(Byte((yMap >> 1) & 0x7f), Byte((yMap >> 4) & 0x70), b4) == yMap
  {
  }

  lemma CountPinnacle(xMap: bv32, more: bv32)
    requires more < 4
    ensures (Byte(more) & 0x03) as nat == more as nat && Byte(more) != 0x3f
    ensures Has(Byte(0xcf | ((xMap & 0x03) << 4)), 0x40)
  {
    assert Wide(Byte(more) & 0x03) == more;
    assert (Byte(more) & 0x03) as nat == Wide(Byte(more) & 0x03) as nat;
  }

  lemma MapsPinnacleRead(cfg: Config, xMap: bv32, yMap: bv32, more: bv32)
    requires cfg.format == Pinnacle && xMap < 0x8000 && yMap < 0x800 && more < 4
    ensures var p := MapsPinnacle(xMap, yMap, more);
            && XMap(cfg, p) == xMap as nat && YMap(cfg, p) == yMap as nat && FingerCount(cfg, p) == more as nat + 1
            && IsMp(cfg.format, p) && !Aside(cfg, p)
  {
    MapsV3(xMap, yMap, 0xcf);
    CountPinnacle(xMap, more);
  }

  /** Rushmore models have one electrode more an axis and count each axis by itself. */
  function MapsRushmore(xMap: bv32, yMap: bv32, moreX: bv32, moreY: bv32): Packet {
    [Byte(0x8f | ((xMap & 0x03) << 4)), Byte((xMap >> 2) & 0x7f), Byte((yMap >> 1) & 0x7f), Byte((yMap >> 4) & 0x70),
     Byte(((xMap >> 8) & 0x7e) | (yMap & 0x01)),
     Byte(0x40 | ((yMap >> 6) & 0x20) | ((xMap >> 11) & 0x10) | (moreY << 2) | moreX)]
  }

  lemma TopBitsRushmore(xMap: bv32, yMap: bv32, moreX: bv32, moreY: bv32)
    requires xMap < 0x10000 && yMap < 0x1000 && moreX < 4 && moreY < 4
    ensures var b5 := Byte(0x40 | ((yMap >> 6) & 0x20) | ((xMap >> 11) & 0x10) | (moreY << 2) | moreX);
            && Wide(b5 & 0x10) << 11 == xMap & 0x8000 && Wide(b5 & 0x20) << 6 == yMap & 0x800
            && Wide(b5 & 0x03) == moreX && Wide((b5 >> 2) & 0x03) == moreY && Has(b5, 0x40) && b5 != 0x3f
  {
  }

  lemma LowBitsRushmore(xMap: bv32, yMap: bv32)
    requires xMap < 0x10000 && yMap < 0x1000
    ensures var b4 := Byte(((xMap >> 8) & 0x7e) | (yMap & 0x01));
            && PinnacleX(Byte(0x8f | ((xMap & 0x03) << 4)), Byte((xMap >> 2) & 0x7f), b4) == xMap & 0x7fff
            && PinnacleY(Byte((yMap >> 1) & 0x7f), Byte((yMap >> 4) & 0x70), b4) == yMap & 0x7ff
  {
  }

  lemma Halves(xMap: bv32, yMap: bv32)
    requires xMap < 0x10000 && yMap < 0x1000
    ensures (xMap & 0x8000) | (xMap & 0x7fff) == xMap && (yMap & 0x800) | (yMap & 0x7ff) == yMap
  {
  }

  lemma WideNat(b: bv8)
    ensures b as nat == Wide(b) as nat
  {
  }

  // What a packet with such fields says, whatever its bytes are.
  lemma RushmoreSays(cfg: Config, p: Packet, xMap: bv32, yMap: bv32, moreX: bv32, moreY: bv32)
    requires cfg.format == Rushmore
    requires RushmoreX(p[0], p[1], p[4], p[5]) == xMap && RushmoreY(p[2], p[3], p[4], p[5]) == yMap
    requires Wide(p[5] & 0x03) == moreX && Wide((p[5] >> 2) & 0x03) == moreY && Has(p[5], 0x40) && p[5] != 0x3f
    ensures XMap(cfg, p) == xMap as nat && YMap(cfg, p) == yMap as nat
    ensures FingerCount(cfg, p) == Max(moreX as nat, moreY as nat) + 1 && IsMp(cfg.format, p) && !Aside(cfg, p)
  {
    WideNat(p[5] & 0x03);
    WideNat((p[5] >> 2) & 0x03);
  }

  lemma MapsRushmoreRead(cfg: Config, xMap: bv32, yMap: bv32, moreX: bv32, moreY: bv32)
    requires cfg.format == Rushmore && xMap < 0x10000 && yMap < 0x1000 && moreX < 4 && moreY < 4
    ensures var p := MapsRushmore(xMap, yMap, moreX, moreY);
            && XMap(cfg, p) == xMap as nat && YMap(cfg, p) == yMap as nat
            && FingerCount(cfg, p) == Max(moreX as nat, moreY as nat) + 1
            && IsMp(cfg.format, p) && !Aside(cfg, p)
  {
    var p := MapsRushmore(xMap, yMap, moreX, moreY);
    BytesRushmore(xMap, yMap, moreX, moreY);
    LowBitsRushmore(xMap, yMap);
    TopBitsRushmore(xMap, yMap, moreX, moreY);
    Halves(xMap, yMap);
    RushmoreSays(cfg, p, xMap, yMap, moreX, moreY);
  }

  lemma BytesRushmore(xMap: bv32, yMap: bv32, moreX: bv32, moreY: bv32)
    ensures var p := MapsRushmore(xMap, yMap, moreX, moreY);
            && p[0] == Byte(0x8f | ((xMap & 0x03) << 4)) && p[1] == Byte((xMap >> 2) & 0x7f)
            && p[2] == Byte((yMap >> 1) & 0x7f) && p[3] == Byte((yMap >> 4) & 0x70)
            && p[4] == Byte(((xMap >> 8) & 0x7e) | (yMap & 0x01))
            && p[5] == Byte(0x40 | ((yMap >> 6) & 0x20) | ((xMap >> 11) & 0x10) | (moreY << 2) | moreX)
  {
  }

  // ---- The fifth protocol

  /** A position: the low seven bits of x and y have a byte each, the high four share one. */
  function SpotDolphin(s: Spot): Packet {
    [Byte(0xc8 | Bits(s.first, 0x02)), Byte(s.x & 0x7f), Byte(s.y & 0x7f), KeyByte(s.keys),
     Byte((s.x >> 7) | ((s.y >> 3) & 0xf0)), Byte(s.z)]
  }

  lemma PlaceDolphin(x: bv32, y: bv32, z: bv32, first: bool)
    requires x < 0x800 && y < 0x800 && z < 0x80
    ensures var b0, b4 := Byte(0xc8 | Bits(first, 0x02)), Byte((x >> 7) | ((y >> 3) & 0xf0));
            && XDolphin(Byte(x & 0x7f), b4) == x && YDolphin(Byte(y & 0x7f), b4) == y
            && Has(b0, 0x02) == first && !Has(b0, 0x20) && !Has(b0, 0x04) && Wide(Byte(z) & 0x7f) == z
  {
  }

  lemma BytesDolphin(s: Spot)
    ensures var p := SpotDolphin(s);
            && p[0] == Byte(0xc8 | Bits(s.first, 0x02)) && p[1] == Byte(s.x & 0x7f) && p[2] == Byte(s.y & 0x7f)
            && p[3] == KeyByte(s.keys) && p[4] == Byte((s.x >> 7) | ((s.y >> 3) & 0xf0)) && p[5] == Byte(s.z)
  {
  }

  lemma DolphinSays(cfg: Config, p: Packet, s: Spot)
    requires cfg.format == Dolphin
    requires XDolphin(p[1], p[4]) == s.x && YDolphin(p[2], p[4]) == s.y && Wide(p[5] & 0x7f) == s.z
    requires Has(p[0], 0x02) == s.first && !Has(p[0], 0x20) && !Has(p[0], 0x04) && KeysIn(p[3], s.keys)
    ensures Says(cfg, p, s, s.z as nat) && !Aside(cfg, p) && !IsMp(cfg.format, p)
  {
    WideNat(p[5] & 0x7f);
  }

  lemma SpotDolphinRead(cfg: Config, s: Spot)
    requires cfg.format == Dolphin && s.x < 0x800 && s.y < 0x800 && s.z < 0x80
    ensures var p := SpotDolphin(s);
            Says(cfg, p, s, s.z as nat) && !Aside(cfg, p) && !IsMp(cfg.format, p)
  {
    PlaceDolphin(s.x, s.y, s.z, s.first);
    KeysRead(s.keys);
    BytesDolphin(s);
    DolphinSays(cfg, SpotDolphin(s), s);
  }

  function Byte64(v: bv64): bv8 {
    Byte64Fits(v);
    (v & 0xff) as bv8
  }

  lemma Byte64Fits(v: bv64)
    ensures (v & 0xff) as nat < 0x100
  {
    assert v & 0xff < 0x100;
  }

  /** Thirty-five bits of bitmap, spread over the bytes, and the number of contacts. */
  function MapsDolphin(maps: bv64, count: bv64): Packet {
    [Byte64(0xe8 | ((count & 0x03) << 1) | ((count & 0x04) << 2) | ((maps >> 34) & 0x01)),
     Byte64(maps & 0x7f), Byte64((maps >> 7) & 0x7f), Byte64(((maps >> 28) & 0x07) | ((maps >> 27) & 0x70)),
     Byte64((maps >> 14) & 0x7f), Byte64((maps >> 21) & 0x7f)]
  }

  lemma BytesMapsDolphin(maps: bv64, count: bv64)
    ensures var p := MapsDolphin(maps, count);
            && p[0] == Byte64(0xe8 | ((count & 0x03) << 1) | ((count & 0x04) << 2) | ((maps >> 34) & 0x01))
            && p[1] == Byte64(maps & 0x7f) && p[2] == Byte64((maps >> 7) & 0x7f)
            && p[3] == Byte64(((maps >> 28) & 0x07) | ((maps >> 27) & 0x70))
            && p[4] == Byte64((maps >> 14) & 0x7f) && p[5] == Byte64((maps >> 21) & 0x7f)
  {
  }

  lemma PalmDolphin(maps: bv64, count: bv64)
    requires maps < 0x8_0000_0000 && count < 8
    ensures var b0 := Byte64(0xe8 | ((count & 0x03) << 1) | ((count & 0x04) << 2) | ((maps >> 34) & 0x01));
            && Palm(b0, Byte64(maps & 0x7f), Byte64((maps >> 7) & 0x7f),
                    Byte64(((maps >> 28) & 0x07) | ((maps >> 27) & 0x70)),
                    Byte64((maps >> 14) & 0x7f), Byte64((maps >> 21) & 0x7f)) == maps
            && (((b0 & 0x06) >> 1) | ((b0 & 0x10) >> 2)) as bv64 == count && Has(b0, 0x20)
  {
  }

  lemma DolphinMapsSay(cfg: Config, p: Packet, maps: bv64, count: bv64)
    requires cfg.format == Dolphin && Palm(p[0], p[1], p[2], p[3], p[4], p[5]) == maps
    requires (((p[0] & 0x06) >> 1) | ((p[0] & 0x10) >> 2)) as bv64 == count && Has(p[0], 0x20)
    ensures PalmOf(p) == maps as nat && FingerCount(cfg, p) == count as nat && IsMp(cfg.format, p) && !Aside(cfg, p)
  {
    var b := ((p[0] & 0x06) >> 1) | ((p[0] & 0x10) >> 2);
    assert b as nat == (b as bv64) as nat;
  }

  lemma MapsDolphinPalm(cfg: Config, maps: bv64, count: bv64)
    requires cfg.format == Dolphin && maps < 0x8_0000_0000 && count < 8
    ensures var p := MapsDolphin(maps, count);
            PalmOf(p) == maps as nat && FingerCount(cfg, p) == count as nat && IsMp(cfg.format, p) && !Aside(cfg, p)
  {
    BytesMapsDolphin(maps, count);
    PalmDolphin(maps, count);
    DolphinMapsSay(cfg, MapsDolphin(maps, count), maps, count);
  }

  lemma PalmSplits(cfg: Config, p: Packet, xMap: nat, yMap: nat)
    requires cfg.format == Dolphin && xMap < Pow2(cfg.panel.xBits) && yMap < Pow2(cfg.panel.yBits)
    requires PalmOf(p) == xMap * Pow2(cfg.panel.yBits) + yMap
    ensures XMap(cfg, p) == xMap && YMap(cfg, p) == yMap
  {
    var dx, dy, palm := Pow2(cfg.panel.xBits), Pow2(cfg.panel.yBits), PalmOf(p);
    Apart(xMap, yMap, dy);
    assert palm / dy == xMap;
    Below(xMap, dx);
  }

  lemma MapsDolphinRead(cfg: Config, maps: bv64, count: bv64, xMap: nat, yMap: nat)
    requires cfg.format == Dolphin && maps < 0x8_0000_0000 && count < 8
    requires xMap < Pow2(cfg.panel.xBits) && yMap < Pow2(cfg.panel.yBits)
    requires maps as nat == xMap * Pow2(cfg.panel.yBits) + yMap
    ensures var p := MapsDolphin(maps, count);
            && XMap(cfg, p) == xMap && YMap(cfg, p) == yMap && FingerCount(cfg, p) == count as nat
            && IsMp(cfg.format, p) && !Aside(cfg, p)
  {
    MapsDolphinPalm(cfg, maps, count);
    PalmSplits(cfg, MapsDolphin(maps, count), xMap, yMap);
  }

  lemma Apart(x: nat, y: nat, d: nat)
    requires y < d
    ensures (x * d + y) / d == x && (x * d + y) % d == y
  {
    var a := x * d + y;
    assert a == d * (a / d) + a % d;
    assert d * (x - a / d) == a % d - y;
    SmallMultiple(d, x - a / d);
  }

  lemma Below(x: nat, d: nat)
    requires x < d
    ensures x % d == x
  {
  }

  // ---- The eighth protocol

  /** One touch.  Its pressure has eight bits, of which the driver keeps the low six,
      doubled. */
  function SpotOne(s: Spot): Packet {
    [Byte(0x18 | (s.x & 0x07) | Bits(s.keys.left, 0x20) | Bits(s.keys.right, 0x40) | Bits(s.keys.middle, 0x80)),
     Byte(0x10 | ((s.x >> 3) & 0x0f) | ((s.x >> 2) & 0xe0)), Byte((s.y & 0x0f) | ((s.x >> 5) & 0xe0)),
     Byte(0x08 | ((s.y << 2) & 0xc0)), Byte(0x10 | ((s.y >> 6) & 0x0f) | ((s.y >> 5) & 0x60) | (s.z & 0x80)),
     Byte((s.z & 0x0f) | ((s.z << 1) & 0xe0))]
  }

  lemma BytesOne(s: Spot)
    ensures var p := SpotOne(s);
            && p[0] == Byte(0x18 | (s.x & 0x07)
                            | Bits(s.keys.left, 0x20) | Bits(s.keys.right, 0x40) | Bits(s.keys.middle, 0x80))
            && p[1] == Byte(0x10 | ((s.x >> 3) & 0x0f) | ((s.x >> 2) & 0xe0))
            && p[2] == Byte((s.y & 0x0f) | ((s.x >> 5) & 0xe0)) && p[3] == Byte(0x08 | ((s.y << 2) & 0xc0))
            && p[4] == Byte(0x10 | ((s.y >> 6) & 0x0f) | ((s.y >> 5) & 0x60) | (s.z & 0x80))
            && p[5] == Byte((s.z & 0x0f) | ((s.z << 1) & 0xe0))
  {
  }

  lemma PlaceOne(x: bv32, y: bv32, z: bv32, keys: bv32)
    requires x < 0x2000 && y < 0x1000 && z < 0x100 && keys & 0x1f == 0 && keys < 0x100
    ensures OneX(Byte(0x18 | (x & 0x07) | keys), Byte(0x10 | ((x >> 3) & 0x0f) | ((x >> 2) & 0xe0)),
                 Byte((y & 0x0f) | ((x >> 5) & 0xe0))) == x
    ensures OneY(Byte((y & 0x0f) | ((x >> 5) & 0xe0)), Byte(0x08 | ((y << 2) & 0xc0)),
                 Byte(0x10 | ((y >> 6) & 0x0f) | ((y >> 5) & 0x60) | (z & 0x80))) == y
    ensures OneZ(Byte(0x10 | ((y >> 6) & 0x0f) | ((y >> 5) & 0x60) | (z & 0x80)),
                 Byte((z & 0x0f) | ((z << 1) & 0xe0))) == z
  {
  }

  function KeyBits(k: Keys): bv32 {
    Bits(k.left, 0x20) | Bits(k.right, 0x40) | Bits(k.middle, 0x80)
  }

  lemma KeyBitsRead(k: Keys, low: bv32)
    requires low < 0x20
    ensures var b := Byte(low | KeyBits(k));
            Has(b, 0x20) == k.left && Has(b, 0x40) == k.right && Has(b, 0x80) == k.middle
    ensures KeyBits(k) & 0x1f == 0 && KeyBits(k) < 0x100
  {
  }

  /** Nothing at all in the corner: what the packet of no touch looks like. */
  predicate Nothing(s: Spot) {
    s.x == 0 && (s.y == 0 || s.y == 16) && s.z == 0 && !s.keys.left && !s.keys.right && !s.keys.middle
  }

  lemma KindOne(x: bv32, y: bv32, z: bv32, keys: bv32)
    requires x < 0x2000 && y < 0x1000 && z < 0x100 && keys & 0x1f == 0 && keys < 0x100
    ensures Byte(0x08 | ((y << 2) & 0xc0)) & 0x30 == 0
    ensures (Byte(0x18 | (x & 0x07) | keys) == 0x18 && Byte(0x10 | ((x >> 3) & 0x0f) | ((x >> 2) & 0xe0)) == 0x10
             && Byte((y & 0x0f) | ((x >> 5) & 0xe0)) == 0 && Byte(0x08 | ((y << 2) & 0xc0)) & 0x88 == 0x08
             && Byte(0x10 | ((y >> 6) & 0x0f) | ((y >> 5) & 0x60) | (z & 0x80)) == 0x10
             && Byte((z & 0x0f) | ((z << 1) & 0xe0)) == 0)
            <==> x == 0 && (y == 0 || y == 16) && z == 0 && keys == 0
  {
  }

  // What a packet with such fields says, whatever its bytes are.
  lemma OneSays(cfg: Config, p: Packet, x: bv32, y: bv32, z: bv32)
    requires cfg.format == SS4 && KindSS4(p) == One
    requires OneX(p[0], p[1], p[2]) == x && OneY(p[2], p[3], p[4]) == y && OneZ(p[4], p[5]) == z && z < 0x100
    ensures Position(cfg, p) == Pos(x as int, y as int) && Pressure(cfg, p) == 2 * z as nat % 0x80
    ensures !FirstMp(cfg.format, p) && !IsMp(cfg.format, p) && !Aside(cfg, p)
  {
    Doubled(z);
  }

  lemma Doubled(z: bv32)
    requires z < 0x100
    ensures ((z * 2) & 0x7f) as nat == 2 * z as nat % 0x80
  {
  }

  lemma OneOrIdle(p: Packet)
    requires p[3] & 0x30 == 0
    ensures KindSS4(p) == if p[0] == 0x18 && p[1] == 0x10 && p[2] == 0
                             && p[3] & 0x88 == 0x08 && p[4] == 0x10 && p[5] == 0
                          then Idle else One
  {
  }

  lemma KindOfSpotOne(s: Spot)
    requires s.x < 0x2000 && s.y < 0x1000 && s.z < 0x100
    ensures KindSS4(SpotOne(s)) == if Nothing(s) then Idle else One
  {
    BytesOne(s);
    NoKeys(s.keys);
    KindOne(s.x, s.y, s.z, KeyBits(s.keys));
    GroupKeys(s);
    OneOrIdle(SpotOne(s));
  }

  lemma NoKeys(k: Keys)
    ensures KeyBits(k) == 0 <==> !k.left && !k.right && !k.middle
    ensures KeyBits(k) & 0x1f == 0 && KeyBits(k) < 0x100
  {
  }

  lemma GroupKeys(s: Spot)
    ensures 0x18 | (s.x & 0x07) | Bits(s.keys.left, 0x20) | Bits(s.keys.right, 0x40) | Bits(s.keys.middle, 0x80)
            == 0x18 | (s.x & 0x07) | KeyBits(s.keys)
  {
  }

  lemma SpotOneRead(cfg: Config, s: Spot)
    requires cfg.format == SS4 && s.x < 0x2000 && s.y < 0x1000 && s.z < 0x100 && !s.first && !Nothing(s)
    ensures var p := SpotOne(s);
            Says(cfg, p, s, 2 * s.z as nat % 0x80) && KindSS4(p) == One && !IsMp(cfg.format, p) && !Aside(cfg, p)
  {
    BytesOne(s);
    NoKeys(s.keys);
    PlaceOne(s.x, s.y, s.z, KeyBits(s.keys));
    GroupKeys(s);
    KindOfSpotOne(s);
    OneSays(cfg, SpotOne(s), s.x, s.y, s.z);
    LowFits(s.x);
    KeyBitsRead(s.keys, 0x18 | (s.x & 0x07));
  }

  lemma LowFits(x: bv32)
    ensures 0x18 | (x & 0x07) < 0x20
  {
  }

  // Two touches in a packet.  A button pad has one button and reports one more bit of
  // each coordinate, the low ones being left out.

  function FingerByte0(pad: bool, x: bv32, y: bv32): bv32 {
    ((x >> 5) & 0x07) | (if pad then ((x << 3) & 0x80) | ((y << 3) & 0x40) else 0)
  }

  function FingerByte1(x: bv32, y: bv32): bv32 {
    ((x >> 5) & 0xf8) | ((y >> 3) & 0x02)
  }

  function FingerByte2(y: bv32): bv32 {
    ((y >> 5) & 0x0f) | ((y >> 4) & 0xe0)
  }

  /** The coordinates a packet of two touches can carry. */
  predicate Coarse(pad: bool, x: bv32, y: bv32) {
    x < 0x2000 && y < 0x1000 && x & (if pad then 0x0f else 0x1f) == 0 && y & (if pad then 0x07 else 0x0f) == 0
  }

  function PadKeys(pad: bool, k: Keys): bv32 {
    if pad then Bits(k.left, 0x20) else KeyBits(k)
  }

  function TwoByte0(pad: bool, x: bv32, y: bv32, k: Keys): bv8 {
    Byte(FingerByte0(pad, x, y) | PadKeys(pad, k))
  }

  function TwoByte1(x: bv32, y: bv32, touching: bool): bv8 {
    Byte(FingerByte1(x, y) | Bits(touching, 0x01))
  }

  function TwoByte2(y: bv32, mark: bool): bv8 {
    Byte(FingerByte2(y) | Bits(mark, 0x10))
  }

  function KindByte(pad: bool, x: bv32, y: bv32, kind: bv32): bv8 {
    Byte(FingerByte0(pad, x, y) | kind)
  }

  /** Two touches, of which the first is the one reported; a pressure says only that
      there is one. */
  function SpotTwo(pad: bool, s: Spot, x: bv32, y: bv32): Packet {
    [TwoByte0(pad, s.x, s.y, s.keys), TwoByte1(s.x, s.y, s.z != 0), TwoByte2(s.y, s.first),
     KindByte(pad, x, y, 0x10), TwoByte1(x, y, false), TwoByte2(y, false)]
  }

  lemma BytesTwo(pad: bool, s: Spot, x: bv32, y: bv32)
    ensures var p := SpotTwo(pad, s, x, y);
            && p[0] == TwoByte0(pad, s.x, s.y, s.keys) && p[1] == TwoByte1(s.x, s.y, s.z != 0)
            && p[2] == TwoByte2(s.y, s.first)
            && p[3] == KindByte(pad, x, y, 0x10)
  {
  }

  lemma MarksTwo(x: bv32, y: bv32, touching: bool, mark: bool)
    ensures var b1 := TwoByte1(x, y, touching); (Has(b1, 0x01) || Has(b1 >> 1, 0x02)) == touching
    ensures Has(TwoByte2(y, mark), 0x10) == mark
  {
  }

  lemma KindMarked(pad: bool, x: bv32, y: bv32)
    ensures KindByte(pad, x, y, 0x10) & 0x30 == 0x10 && KindByte(pad, x, y, 0x30) & 0x30 == 0x30
  {
  }

  lemma KeysTwo(cfg: Config, s: Spot)
    ensures PadKeysIn(cfg, TwoByte0(cfg.buttonPad, s.x, s.y, s.keys), s.keys)
  {
  }

  lemma PlaceTwo(pad: bool, x: bv32, y: bv32, k: Keys, touching: bool, first: bool)
    requires Coarse(pad, x, y)
    ensures var b0, b1 := TwoByte0(pad, x, y, k), TwoByte1(x, y, touching);
            FingerX(pad, b0, b1) == x && FingerY(pad, b0, b1, TwoByte2(y, first)) == y
  {
  }

  lemma PlaceLast(pad: bool, x: bv32, y: bv32)
    requires Coarse(pad, x, y)
    ensures var b0, b1 := KindByte(pad, x, y, 0x30), TwoByte1(x, y, false);
            FingerX(pad, b0, b1) == x && FingerY(pad, b0, b1, TwoByte2(y, false)) == y
  {
  }

  // What a packet with such fields says, whatever its bytes are.
  lemma TwoSays(cfg: Config, p: Packet, s: Spot)
    requires cfg.format == SS4 && p[3] & 0x30 == 0x10
    requires FingerX(cfg.buttonPad, p[0], p[1]) == s.x && FingerY(cfg.buttonPad, p[0], p[1], p[2]) == s.y
    requires (Has(p[1], 0x01) || Has(p[1] >> 1, 0x02)) == (s.z != 0) && Has(p[2], 0x10) == s.first
    requires PadKeysIn(cfg, p[0], s.keys)
    ensures Says(cfg, p, s, if s.z != 0 then 48 else 0) && KindSS4(p) == Two && !IsMp(cfg.format, p) && !Aside(cfg, p)
  {
  }

  lemma SpotTwoRead(cfg: Config, s: Spot, x: bv32, y: bv32)
    requires cfg.format == SS4 && Coarse(cfg.buttonPad, s.x, s.y)
    ensures var p := SpotTwo(cfg.buttonPad, s, x, y);
            Says(cfg, p, s, if s.z != 0 then 48 else 0) && KindSS4(p) == Two && !IsMp(cfg.format, p) && !Aside(cfg, p)
  {
    BytesTwo(cfg.buttonPad, s, x, y);
    KeysTwo(cfg, s);
    MarksTwo(s.x, s.y, s.z != 0, s.first);
    KindMarked(cfg.buttonPad, x, y);
    PlaceTwo(cfg.buttonPad, s.x, s.y, s.keys, s.z != 0, s.first);
    TwoSays(cfg, SpotTwo(cfg.buttonPad, s, x, y), s);
  }

  /** The third and fourth touches; a packet without a fourth says so by its place. */
  function MoreSS4(pad: bool, x: bv32, y: bv32, x': bv32, y': bv32, five: bool): Packet {
    [KindByte(pad, x, y, 0), TwoByte1(x, y, false), TwoByte2(y, five),
     KindByte(pad, x', y', 0x30), TwoByte1(x', y', false), TwoByte2(y', false)]
  }

  lemma BytesMore(pad: bool, x: bv32, y: bv32, x': bv32, y': bv32, five: bool)
    ensures var p := MoreSS4(pad, x, y, x', y', five);
            && p[2] == TwoByte2(y, five) && p[3] == KindByte(pad, x', y', 0x30)
            && p[4] == TwoByte1(x', y', false) && p[5] == TwoByte2(y', false)
  {
  }

  /** The place that stands for no fourth touch. */
  predicate NoFourth(pad: bool, x: bv32, y: bv32) {
    x == (if pad then 8176 else 8160) && y == (if pad then 4088 else 4080)
  }

  lemma MoreSays(cfg: Config, p: Packet, x: bv32, y: bv32, five: bool)
    requires cfg.format == SS4 && p[3] & 0x30 == 0x30 && Has(p[2], 0x10) == five
    requires FingerX(cfg.buttonPad, p[3], p[4]) == x && FingerY(cfg.buttonPad, p[3], p[4], p[5]) == y
    ensures IsMp(cfg.format, p) && !Aside(cfg, p)
    ensures FingerCount(cfg, p) == if five then 5 else if NoFourth(cfg.buttonPad, x, y) then 3 else 4
  {
  }

  lemma MoreSS4Read(cfg: Config, x: bv32, y: bv32, x': bv32, y': bv32, five: bool)
    requires cfg.format == SS4 && Coarse(cfg.buttonPad, x', y')
    ensures var p := MoreSS4(cfg.buttonPad, x, y, x', y', five);
            && IsMp(cfg.format, p) && !Aside(cfg, p)
            && FingerCount(cfg, p) == if five then 5 else if NoFourth(cfg.buttonPad, x', y') then 3 else 4
  {
    BytesMore(cfg.buttonPad, x, y, x', y', five);
    MarksTwo(x, y, false, five);
    KindMarked(cfg.buttonPad, x', y');
    PlaceLast(cfg.buttonPad, x', y');
    MoreSays(cfg, MoreSS4(cfg.buttonPad, x, y, x', y', five), x', y', five);
  }
}
