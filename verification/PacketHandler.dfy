/** The driver's packet routines, with the flag, the saved packet and the second
    touch they keep between packets. */
module PacketHandler {
  import opened Wrappers
  import opened Bitmap
  import opened BoundingBox
  import opened Packets
  import opened Pairing

  predicate IsTouch(r: Report) {
    r.Touch?
  }

  class Handler {
    const cfg: Config
    const surface: Surface
    var multiPacket: bool
    var multiData: Packet
    var quirk: bool
    var reports: seq<Report>

    ghost predicate Valid()
      reads this, surface
    {
      cfg.Valid() && surface.Valid() && surface.panel == cfg.panel && Consistent(cfg, View())
    }

    ghost function View(): Memory
      reads this
    {
      Memory(if multiPacket then Some(multiData) else None, quirk)
    }

    constructor (cfg: Config)
      requires cfg.Valid()
      ensures Valid() && View() == Memory(None, false) && reports == [] && this.cfg == cfg
      ensures fresh(surface)
    {
      this.cfg := cfg;
      surface := new Surface(cfg.panel);
      multiPacket, multiData, quirk, reports := false, [0, 0, 0, 0, 0, 0], false, [];
    }

    /** What a packet does to the choice of a second touch: a report of two fingers or
        more keeps a choice once made, a report of fewer gives it up, and a packet that
        is not reported leaves it. */
    twostate predicate SecondTouchKept()
      reads this, surface
    {
      var n := |old(reports)|;
      && old(reports) <= reports
      && (|reports| == n || !IsTouch(reports[n]) ==> surface.secondTouch == old(surface.secondTouch))
      && (|reports| > n && IsTouch(reports[n]) && reports[n].fingers < 2 ==> surface.secondTouch == -1)
      && (|reports| > n && IsTouch(reports[n]) && reports[n].fingers >= 2 ==>
            && 0 <= surface.secondTouch < 4
            && (old(surface.secondTouch) != -1 ==> surface.secondTouch == old(surface.secondTouch)))
    }

    method ProcessTrackstick(packet: Packet)
      requires Valid()
      modifies this`quirk, this`reports
      ensures Valid() && View() == old(View()).(quirk := NextQuirk(cfg, old(quirk), packet))
      ensures reports == old(reports) + StickReport(cfg, packet)
    {
      if !cfg.dualPoint || !Has(packet[0], 0x40) {
        return;
      }
      if packet[1] == 0x7f && packet[2] == 0x7f && packet[3] == 0x7f {
        return;
      }
      var left, right, middle := Has(packet[3], 0x01), Has(packet[3], 0x02), Has(packet[3], 0x04);
      assert left || right || middle <==> Has(packet[3], 0x07);
      if !quirk && (left || middle || right) {
        quirk := true;
      }
      reports := reports + [Trackstick(packet)];
    }

    /** The fields of a saved first half decoded over those of its second half, and the
        fingers the two tell of: none if a bitmap is empty. */
    method Complete(second: Packet) returns (f: Fields, fingers: nat)
      requires Valid() && multiPacket && cfg.format != SS4 && IsMp(cfg.format, second)
      modifies surface
      ensures Valid() && !f.isMp && f.firstMp && f == ButtonsV3(f, multiData)
      ensures f.st == Position(cfg, multiData) && f.pressure == Pressure(cfg, multiData)
      ensures fingers == if XMap(cfg, second) != 0 && YMap(cfg, second) != 0 then FingerCount(cfg, second) else 0
      ensures fingers != 0 ==> 0 <= surface.secondTouch < 4
      ensures fingers != 0 && old(surface.secondTouch) != -1 ==> surface.secondTouch == old(surface.secondTouch)
    {
      f := DecodeSemi(cfg, BLANK, second);
      fingers := f.fingers;
      f := DecodeSemi(cfg, f, multiData);
      MapsFit(cfg, second);
      PositionFits(cfg, multiData);
      var n, _, _, _ := surface.ProcessBitmap(f.xMap, f.yMap, f.st);
      if n == 0 {
        fingers := 0;
      }
    }

    /** The fields of a packet, completed by the saved one if this is its second half. */
    method Merge(packet: Packet) returns (f: Fields, fingers: nat)
      requires Valid() && cfg.format != SS4
      modifies this`multiPacket, surface
      ensures Valid() && multiPacket == (old(multiPacket) && IsMp(cfg.format, packet))
      ensures f.isMp == (IsMp(cfg.format, packet) && !multiPacket)
      ensures f.firstMp == (multiPacket || FirstMp(cfg.format, packet))
      ensures !f.isMp ==> var p := if multiPacket then multiData else packet;
              f.st == Position(cfg, p) && f.pressure == Pressure(cfg, p) && f == ButtonsV3(f, p)
      ensures !multiPacket ==> fingers == 0 && surface.secondTouch == old(surface.secondTouch)
      ensures multiPacket ==>
        fingers == if XMap(cfg, packet) != 0 && YMap(cfg, packet) != 0 then FingerCount(cfg, packet) else 0
      ensures multiPacket && fingers != 0 ==> 0 <= surface.secondTouch < 4
      ensures multiPacket && fingers != 0 && old(surface.secondTouch) != -1 ==>
        surface.secondTouch == old(surface.secondTouch)
    {
      f, fingers := DecodeSemi(cfg, BLANK, packet), 0;
      if multiPacket {
        if f.isMp {
          f, fingers := Complete(packet);
        } else {
          multiPacket := false;
        }
      }
    }

    /** The buttons of a touch packet, the trackstick's joined to them on models with
        two pointing devices unless it reports its own. */
    method TouchButtons(f: Fields, ghost p: Packet) returns (buttons: bv8)
      requires cfg.format != SS4 && f == ButtonsV3(f, p)
      ensures buttons == Buttons(cfg, quirk, p)
    {
      buttons := Mask(f.left, f.right, f.middle);
      if cfg.dualPoint && !quirk {
        buttons := buttons | Mask(f.tsLeft, f.tsRight, f.tsMiddle);
      }
    }

    method ProcessTouchpad(packet: Packet)
      requires Valid() && cfg.format != SS4 && !Aside(cfg, packet)
      modifies this`multiPacket, this`multiData, this`reports, surface
      ensures Valid() && SecondTouchKept()
      ensures var (m, now) := Step(cfg, old(View()), packet); View() == m && reports == old(reports) + now
    {
      var f, fingers := Merge(packet);
      if f.isMp {
        return;
      }
      if !multiPacket && f.firstMp {
        multiPacket, multiData := true, packet;
        return;
      }
      ghost var p := if multiPacket then multiData else packet;
      multiPacket := false;
      if fingers < 2 {
        fingers := if f.pressure > 0 then 1 else 0;
        surface.secondTouch := -1;
      }
      var buttons := TouchButtons(f, p);
      reports := reports + [Touch(f.st.x, cfg.panel.yMax - f.st.y, f.pressure, fingers, buttons)];
    }

    method ProcessSS4(packet: Packet)
      requires Valid() && cfg.format == SS4
      modifies this`multiPacket, this`multiData, this`reports
      ensures Valid()
      ensures var (m, now) := Step(cfg, old(View()), packet); View() == m && reports == old(reports) + now
    {
      var f := DecodeSS4(cfg, BLANK, packet);
      if multiPacket {
        if f.isMp {
          f := DecodeSS4(cfg, f, multiData);
        } else {
          multiPacket := false;
        }
      }
      if f.isMp {
        return;
      }
      if !multiPacket && f.firstMp {
        multiPacket, multiData := true, packet;
        return;
      }
      multiPacket := false;
      if KindSS4(packet) == Stick {
        return;
      }
      reports := reports + [Touch(f.st.x, cfg.panel.yMax - f.st.y, f.pressure, f.fingers,
                                  Mask(f.left, f.right, f.middle))];
    }

    method ProcessPacket(packet: Packet)
      requires Valid()
      modifies this`multiPacket, this`multiData, this`quirk, this`reports, surface
      ensures Valid() && (cfg.format != SS4 ==> SecondTouchKept())
      ensures var (m, now) := Step(cfg, old(View()), packet); View() == m && reports == old(reports) + now
    {
      match cfg.format
      case SS4 =>
        ProcessSS4(packet);
      case Dolphin =>
        ProcessTouchpad(packet);
      case _ =>
        if packet[5] == 0x3f {
          ProcessTrackstick(packet);
        } else {
          ProcessTouchpad(packet);
        }
    }

    /** One packet of a stream: what it reports, and that a second touch stays chosen
        unless it reports a touch of fewer fingers. */
    method ProcessNext(packets: seq<Packet>, i: nat, ghost ms: seq<Memory>, ghost told: seq<seq<Report>>)
      requires Valid() && i < |packets| && Follows(cfg, packets, ms, told) && View() == ms[i]
      modifies this`multiPacket, this`multiData, this`quirk, this`reports, surface
      ensures Valid() && View() == ms[i + 1] && reports == old(reports) + told[i]
      ensures cfg.format != SS4 && old(surface.secondTouch) != -1
              && (forall r :: r in told[i] && IsTouch(r) ==> r.fingers >= 2)
              ==> surface.secondTouch == old(surface.secondTouch)
    {
      ghost var before := reports;
      ProcessPacket(packets[i]);
      assert told[i] != [] ==> reports[|before|] == told[i][0];
    }

    /** The packets in turn, each reporting what it is told to. */
    method ProcessEach(packets: seq<Packet>, ghost ms: seq<Memory>, ghost told: seq<seq<Report>>)
      requires Valid() && Follows(cfg, packets, ms, told) && View() == ms[0]
      modifies this`multiPacket, this`multiData, this`quirk, this`reports, surface
      ensures Valid() && reports == old(reports) + Together(told)
      ensures cfg.format != SS4 && old(surface.secondTouch) != -1
              && (forall r :: r in Together(told) && IsTouch(r) ==> r.fingers >= 2)
              ==> surface.secondTouch == old(surface.secondTouch)
    {
      for i := 0 to |packets|
        invariant Valid() && View() == ms[i] && old(reports) + Together(told) == reports + Together(told[i..])
        invariant cfg.format != SS4 && old(surface.secondTouch) != -1
                  && (forall r :: r in Together(told) && IsTouch(r) ==> r.fingers >= 2)
                  ==> surface.secondTouch == old(surface.secondTouch)
                      && (forall r :: r in Together(told[i..]) && IsTouch(r) ==> r.fingers >= 2)
      {
        assert told[i..][1..] == told[i + 1..];
        Regroup(reports, told[i], Together(told[i + 1..]));
        ProcessNext(packets, i, ms, told);
      }
      assert reports + [] == reports;
    }

    /** A stream of packets.  The reports are the lookahead parser's, and on the
        semi-multi-touch formats a second touch once chosen stays chosen as long as
        every touch reported has at least two fingers. */
    method ProcessAll(packets: seq<Packet>)
      requires Valid() && View().saved == None
      modifies this`multiPacket, this`multiData, this`quirk, this`reports, surface
      ensures Valid() && reports == old(reports) + Lookahead(cfg, old(quirk), packets)
      ensures cfg.format != SS4 && old(surface.secondTouch) != -1
              && (forall r :: r in Lookahead(cfg, old(quirk), packets) && IsTouch(r) ==> r.fingers >= 2)
              ==> surface.secondTouch == old(surface.secondTouch)
    {
      MemoryIsLookahead(cfg, quirk, packets);
      ghost var ms, told := StepsFollow(cfg, View(), packets);
      ProcessEach(packets, ms, told);
    }
  }
}
