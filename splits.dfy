// Settings that the driver splits over several bitfields or registers.
//
// The enumerated value of such a setting packs the field values at fixed bit
// positions; the setter extracts them with masks and shifts and the getter
// adds them back at the same positions before it looks the sum up in the
// switch table of the enumeration. Sixteen-bit thresholds are split into a
// high part, assigned by a read-modify-write, and a low byte, written
// without a read.

module Splits {
  import opened Bits
  import opened Layout
  import opened Bus

  /** A single bit of `v`, moved down to bit 0, is unchanged by a one-bit field. */
  lemma OneBitValue(f: Field, v: bv8, m: bv8, k: bv8)
    requires WellFormed(f) && Ones(f) == 1 && k < 8 && m == 1 << k
    ensures Trunc(f, (v & m) >> k) == (v & m) >> k
  {
  }

  // ---------------------------------------------------------------------
  // asm330lhb_xl_hp_path_on_out_set/get: CTRL8_XL hp_ref_mode_xl, hp_slope_xl_en, hpcf_xl

  function HpPathParts(e: Env, v: bv8): (ups: seq<Update>)
    requires Fields(e.lay)
    ensures AllWellFormed(ups)
  {
    [Update(Fld(e, HpSlopeXlEn), (v & 0x10) >> 4),
     Update(Fld(e, HpRefModeXl), (v & 0x20) >> 5),
     Update(Fld(e, HpcfXl), v & 0x07)]
  }

  function HpPathSet(e: Env, c: Chip, v: bv8): (r: Res<()>)
    requires Coherent(e, c) && Fields(e.lay)
    ensures Coherent(e, r.c)
  {
    SetFields(e, c, Addr(e, Ctrl8Xl), HpPathParts(e, v))
  }

  /** The sum the getter switches on. */
  function HpPathJoin(e: Env, b: bv8): bv8
    requires Fields(e.lay)
  {
    (Get(b, Fld(e, HpRefModeXl)) << 5) + (Get(b, Fld(e, HpSlopeXlEn)) << 4) + Get(b, Fld(e, HpcfXl))
  }

  function HpPathGet(e: Env, c: Chip): (r: Res<bv8>)
    requires Coherent(e, c) && Fields(e.lay)
    ensures Coherent(e, r.c)
  {
    var rd := ReadReg(e, c, Addr(e, Ctrl8Xl), 1);
    Res(rd.c, rd.st, Decode(e.lay.table(HpPathTable), HpPathJoin(e, rd.v[0])))
  }

  /** The CTRL8_XL facts the setter and the getter rely on. */
  predicate HpPathLayout(lay: Layout)
    requires Fields(lay)
  {
    && Apart(lay, Ctrl8Xl)
    && Clear(lay, HpSlopeXlEn, HpRefModeXl) && Clear(lay, HpSlopeXlEn, HpcfXl) && Clear(lay, HpRefModeXl, HpcfXl)
    && Bit(lay, HpSlopeXlEn) && Bit(lay, HpRefModeXl) && Fits(lay.field(HpcfXl), 7)
  }

  /** The parts of a value with bits only at 0-2, 4 and 5 add up to the value. */
  lemma HpPathPartsJoin(e: Env, b: bv8, v: bv8)
    requires Fields(e.lay) && HpPathLayout(e.lay) && v & 0xC8 == 0
    ensures var ups := HpPathParts(e, v);
      Disjoint(ups) && HpPathJoin(e, Overlay(b, ups)) == v
  {
    var ups := HpPathParts(e, v);
    Disjoint3(ups[0], ups[1], ups[2]);
    OverlayGet(b, ups, 0);
    OverlayGet(b, ups, 1);
    OverlayGet(b, ups, 2);
    OneBitValue(Fld(e, HpSlopeXlEn), v, 0x10, 4);
    OneBitValue(Fld(e, HpRefModeXl), v, 0x20, 5);
    assert Trunc(Fld(e, HpcfXl), v & 0x07) == v & 0x07;
    HpPathBits(v);
  }

  lemma HpPathBits(v: bv8)
    requires v & 0xC8 == 0
    ensures (((v & 0x20) >> 5) << 5) + (((v & 0x10) >> 4) << 4) + (v & 0x07) == v
  {
  }

  /**
   * asm330lhb_xl_hp_path_on_out_set changes only CTRL8_XL; after it
   * succeeded the getter returns every enumerator of its table whose bits
   * lie in the three fields.
   */
  lemma HpPathRoundTrip(e: Env, c: Chip, v: bv8)
    requires Ready(e, c) && HpPathLayout(e.lay) && v & 0xC8 == 0 && Decode(e.lay.table(HpPathTable), v) == v
    ensures var s := HpPathSet(e, c, v);
      var g := HpPathGet(e, s.c);
      && s.c.bank == User
      && Confined(e, c, s.c, s.st, {(User, Addr(e, Ctrl8Xl))})
      && (s.st == 0 && g.st == 0 ==> g.v == v)
  {
    var a := Addr(e, Ctrl8Xl);
    SetFieldsEffect(e, c, a, HpPathParts(e, v));
    HpPathPartsJoin(e, c.user[a], v);
  }

  // ---------------------------------------------------------------------
  // asm330lhb_gy_hp_path_internal_set/get: CTRL7_G hp_en_g, hpm_g

  function GyHpParts(e: Env, v: bv8): (ups: seq<Update>)
    requires Fields(e.lay)
    ensures AllWellFormed(ups)
  {
    [Update(Fld(e, HpEnG), (v & 0x80) >> 7), Update(Fld(e, HpmG), v & 0x03)]
  }

  function GyHpSet(e: Env, c: Chip, v: bv8): (r: Res<()>)
    requires Coherent(e, c) && Fields(e.lay)
    ensures Coherent(e, r.c)
  {
    SetFields(e, c, Addr(e, Ctrl7G), GyHpParts(e, v))
  }

  function GyHpJoin(e: Env, b: bv8): bv8
    requires Fields(e.lay)
  {
    (Get(b, Fld(e, HpEnG)) << 7) + Get(b, Fld(e, HpmG))
  }

  function GyHpGet(e: Env, c: Chip): (r: Res<bv8>)
    requires Coherent(e, c) && Fields(e.lay)
    ensures Coherent(e, r.c)
  {
    var rd := ReadReg(e, c, Addr(e, Ctrl7G), 1);
    Res(rd.c, rd.st, Decode(e.lay.table(GyHpTable), GyHpJoin(e, rd.v[0])))
  }

  predicate GyHpLayout(lay: Layout)
    requires Fields(lay)
  {
    Apart(lay, Ctrl7G) && Clear(lay, HpEnG, HpmG) && Bit(lay, HpEnG) && Fits(lay.field(HpmG), 3)
  }

  lemma GyHpPartsJoin(e: Env, b: bv8, v: bv8)
    requires Fields(e.lay) && GyHpLayout(e.lay) && v & 0x7C == 0
    ensures var ups := GyHpParts(e, v);
      Disjoint(ups) && GyHpJoin(e, Overlay(b, ups)) == v
  {
    var ups := GyHpParts(e, v);
    assert Disjoint(ups) by {
      forall i, j | 0 <= i < j < 2 ensures ups[i].f.mask & ups[j].f.mask == 0 {
        assert i == 0 && j == 1;
      }
    }
    OverlayGet(b, ups, 0);
    OverlayGet(b, ups, 1);
    OneBitValue(Fld(e, HpEnG), v, 0x80, 7);
    assert Trunc(Fld(e, HpmG), v & 0x03) == v & 0x03;
  }

  /** The gyroscope filter setting round-trips like the accelerometer one. */
  lemma GyHpRoundTrip(e: Env, c: Chip, v: bv8)
    requires Ready(e, c) && GyHpLayout(e.lay) && v & 0x7C == 0 && Decode(e.lay.table(GyHpTable), v) == v
    ensures var s := GyHpSet(e, c, v);
      var g := GyHpGet(e, s.c);
      && s.c.bank == User
      && Confined(e, c, s.c, s.st, {(User, Addr(e, Ctrl7G))})
      && (s.st == 0 && g.st == 0 ==> g.v == v)
  {
    var a := Addr(e, Ctrl7G);
    SetFieldsEffect(e, c, a, GyHpParts(e, v));
    GyHpPartsJoin(e, c.user[a], v);
  }

  // ---------------------------------------------------------------------
  // asm330lhb_i3c_disable_set/get: CTRL9_XL i3c_disable, I3C_BUS_AVB i3c_bus_avb_sel

  function I3cParts(e: Env, v: bv8): (r: (seq<Update>, seq<Update>))
    requires Fields(e.lay)
    ensures AllWellFormed(r.0) && AllWellFormed(r.1)
  {
    ([Update(Fld(e, I3cDisable), (v & 0x80) >> 7)], [Update(Fld(e, I3cBusAvbSel), v & 0x03)])
  }

  function I3cSet(e: Env, c: Chip, v: bv8): (r: Res<()>)
    requires Coherent(e, c) && Fields(e.lay)
    ensures Coherent(e, r.c)
  {
    var p := I3cParts(e, v);
    SetFieldsTwice(e, c, Addr(e, Ctrl9Xl), p.0, Addr(e, I3cBusAvb), p.1)
  }

  function I3cJoin(e: Env, ctrl9: bv8, avb: bv8): bv8
    requires Fields(e.lay)
  {
    (Get(ctrl9, Fld(e, I3cDisable)) << 7) + Get(avb, Fld(e, I3cBusAvbSel))
  }

  /** Both registers are read; the second only when the first read succeeded. */
  function I3cGet(e: Env, c: Chip): (r: Res<bv8>)
    requires Coherent(e, c) && Fields(e.lay)
    ensures Coherent(e, r.c)
  {
    var rd := ReadTwo(e, c, Addr(e, Ctrl9Xl), Addr(e, I3cBusAvb));
    Res(rd.c, rd.st, Decode(e.lay.table(I3cTable), I3cJoin(e, rd.v.0, rd.v.1)))
  }

  /**
   * asm330lhb_i3c_disable_set changes only its two registers, the second
   * only after the first was written; after it succeeded the getter returns
   * every enumerator of its table with bits only at 7, 1 and 0.
   */
  lemma I3cRoundTrip(e: Env, c: Chip, v: bv8)
    requires Ready(e, c) && Apart(e.lay, Ctrl9Xl) && Apart(e.lay, I3cBusAvb) && Differ(e.lay, Ctrl9Xl, I3cBusAvb)
    requires Bit(e.lay, I3cDisable) && Fits(Fld(e, I3cBusAvbSel), 3)
    requires v & 0x7C == 0 && Decode(e.lay.table(I3cTable), v) == v
    ensures var s := I3cSet(e, c, v);
      var g := I3cGet(e, s.c);
      && s.c.bank == User
      && Confined(e, c, s.c, s.st, {(User, Addr(e, Ctrl9Xl)), (User, Addr(e, I3cBusAvb))})
      && (s.st == 0 && g.st == 0 ==> g.v == v)
  {
    var a1, a2 := Addr(e, Ctrl9Xl), Addr(e, I3cBusAvb);
    var p := I3cParts(e, v);
    var s := I3cSet(e, c, v);
    SetFieldsTwiceEffect(e, c, a1, p.0, a2, p.1);
    if s.st == 0 {
      ReadTwoEffect(e, s.c, a1, a2);
      OverlayGet(c.user[a1], p.0, 0);
      OverlayGet(c.user[a2], p.1, 0);
      OneBitValue(Fld(e, I3cDisable), v, 0x80, 7);
      assert Trunc(Fld(e, I3cBusAvbSel), v & 0x03) == v & 0x03;
      I3cBits(v);
    }
  }

  lemma I3cBits(v: bv8)
    requires v & 0x7C == 0
    ensures (((v & 0x80) >> 7) << 7) + (v & 0x03) == v
  {
  }

  // ---------------------------------------------------------------------
  // asm330lhb_int_notification_set/get: INT_CFG0 lir and int_clr_on_read,
  // PAGE_RW emb_func_lir in the embedded-functions bank

  /** The user-bank fields first, then PAGE_RW in the embedded-functions bank. */
  function NotificationSet(e: Env, c: Chip, v: bv8): (r: Res<()>)
    requires Coherent(e, c) && Fields(e.lay)
    ensures Coherent(e, r.c)
  {
    var s1 := SetFields(e, c, Addr(e, IntCfg0),
      [Update(Fld(e, Lir), v & 0x01), Update(Fld(e, IntClrOnRead), v & 0x01)]);
    if s1.st != 0 then s1 else
    EmbSetFields(e, s1.c, Addr(e, PageRw), [Update(Fld(e, EmbFuncLir), (v & 0x02) >> 1)])
  }

  function NotificationJoin(e: Env, cfg0: bv8, pageRw: bv8): bv8
    requires Fields(e.lay)
  {
    (Get(pageRw, Fld(e, EmbFuncLir)) << 1) + Get(cfg0, Fld(e, Lir))
  }

  function NotificationGet(e: Env, c: Chip): (r: Res<bv8>)
    requires Coherent(e, c) && Fields(e.lay)
    ensures Coherent(e, r.c)
  {
    var d := e.lay.table(LirTable);
    var r1 := ReadReg(e, c, Addr(e, IntCfg0), 1);
    if r1.st != 0 then Res(r1.c, r1.st, Decode(d, 0)) else
    var r2 := EmbRead(e, r1.c, Addr(e, PageRw), 1);
    if r2.st != 0 then Res(r2.c, r2.st, Decode(d, 0)) else
    Res(r2.c, r2.st, Decode(d, NotificationJoin(e, r1.v[0], r2.v[0])))
  }

  /** The setter's frame and what it stores, bank switches included. */
  lemma NotificationSetEffect(e: Env, c: Chip, v: bv8)
    requires Ready(e, c) && Apart(e.lay, IntCfg0) && Apart(e.lay, PageRw) && Clear(e.lay, Lir, IntClrOnRead)
    ensures var s := NotificationSet(e, c, v);
      && Confined(e, c, s.c, s.st, {(User, Addr(e, IntCfg0)), (Embedded, Addr(e, PageRw))})
      && (s.st == 0 ==>
           && s.c.bank == User
           && Get(s.c.user[Addr(e, IntCfg0)], Fld(e, Lir)) == Trunc(Fld(e, Lir), v & 0x01)
           && Get(s.c.user[Addr(e, IntCfg0)], Fld(e, IntClrOnRead)) == Trunc(Fld(e, IntClrOnRead), v & 0x01)
           && Get(s.c.emb[Addr(e, PageRw)], Fld(e, EmbFuncLir)) == Trunc(Fld(e, EmbFuncLir), (v & 0x02) >> 1))
  {
    var a1, a2 := Addr(e, IntCfg0), Addr(e, PageRw);
    var w1: set<(Bank, int)> := {(User, a1)};
    var w: set<(Bank, int)> := {(User, a1), (Embedded, a2)};
    var u1 := [Update(Fld(e, Lir), v & 0x01), Update(Fld(e, IntClrOnRead), v & 0x01)];
    var u2 := [Update(Fld(e, EmbFuncLir), (v & 0x02) >> 1)];
    var s1 := SetFields(e, c, a1, u1);
    SetFieldsEffect(e, c, a1, u1);
    if s1.st != 0 {
      SameWiden(e, c, s1.c, w1, w);
    } else {
      TwoFieldsGet(s1.c.user[a1], c.user[a1], u1);
      var s2 := EmbSetFields(e, s1.c, a2, u2);
      EmbSetFieldsEffect(e, s1.c, a2, u2);
      ConfinedTrans(e, c, s1.c, s2.c, s2.st, w1, {(Embedded, a2)});
      assert w1 + {(Embedded, a2)} == w;
      Kept(e, s1.c, s2.c, s2.st, {(Embedded, a2)}, User, a1);
      if s2.st == 0 {
        OverlayGet(s1.c.emb[a2], u2, 0);
      }
    }
  }

  /** Both fields of a two-field overlay read back as assigned. */
  lemma TwoFieldsGet(r: bv8, b: bv8, ups: seq<Update>)
    requires |ups| == 2 && AllWellFormed(ups) && ups[0].f.mask & ups[1].f.mask == 0
    requires r == Overlay(b, ups)
    ensures Get(r, ups[0].f) == Trunc(ups[0].f, ups[0].v) && Get(r, ups[1].f) == Trunc(ups[1].f, ups[1].v)
  {
    assert Disjoint(ups) by {
      forall i, j | 0 <= i < j < 2 ensures ups[i].f.mask & ups[j].f.mask == 0 {
        assert i == 0 && j == 1;
      }
    }
    OverlayGet(b, ups, 0);
    OverlayGet(b, ups, 1);
  }

  /** The getter changes no register and returns to the user bank when it succeeds. */
  lemma NotificationGetEffect(e: Env, c: Chip)
    requires Ready(e, c) && Apart(e.lay, PageRw)
    ensures var g := NotificationGet(e, c);
      && Confined(e, c, g.c, g.st, {})
      && (g.st == 0 ==>
           && g.c.bank == User
           && g.v == Decode(e.lay.table(LirTable), NotificationJoin(e, c.user[Addr(e, IntCfg0)], c.emb[Addr(e, PageRw)])))
  {
    var a1, a2 := Addr(e, IntCfg0), Addr(e, PageRw);
    var r1 := ReadReg(e, c, a1, 1);
    ReadRegConfined(e, c, a1, 1);
    if r1.st == 0 {
      var r2 := EmbRead(e, r1.c, a2, 1);
      EmbReadEffect(e, r1.c, a2, 1);
      ConfinedTrans(e, c, r1.c, r2.c, r2.st, {}, {});
    }
  }

  /**
   * The notification mode round-trips through its two registers in two
   * banks for every enumerator of its table below 4.
   */
  lemma NotificationRoundTrip(e: Env, c: Chip, v: bv8)
    requires Ready(e, c) && Apart(e.lay, IntCfg0) && Apart(e.lay, PageRw) && Clear(e.lay, Lir, IntClrOnRead)
    requires Bit(e.lay, Lir) && Bit(e.lay, EmbFuncLir)
    requires v & 0xFC == 0 && Decode(e.lay.table(LirTable), v) == v
    ensures var s := NotificationSet(e, c, v);
      var g := NotificationGet(e, s.c);
      s.st == 0 && g.st == 0 ==> g.v == v
  {
    var s := NotificationSet(e, c, v);
    NotificationSetEffect(e, c, v);
    if s.st == 0 {
      NotificationGetEffect(e, s.c);
      OneBitValue(Fld(e, Lir), v, 0x01, 0);
      OneBitValue(Fld(e, EmbFuncLir), v, 0x02, 1);
      assert ((((v & 0x02) >> 1) << 1) + (v & 0x01)) == v;
    }
  }

  // ---------------------------------------------------------------------
  // asm330lhb_ff_dur_set/get: bit 5 in WAKE_UP_DUR ff_dur, bits 0-4 in FREE_FALL ff_dur

  function FfDurParts(e: Env, v: bv8): (r: (seq<Update>, seq<Update>))
    requires Fields(e.lay)
    ensures AllWellFormed(r.0) && AllWellFormed(r.1)
  {
    ([Update(Fld(e, WakeUpDurFfDur), (v & 0x20) >> 5)], [Update(Fld(e, FreeFallFfDur), v & 0x1F)])
  }

  function FfDurSet(e: Env, c: Chip, v: bv8): (r: Res<()>)
    requires Coherent(e, c) && Fields(e.lay)
    ensures Coherent(e, r.c)
  {
    var p := FfDurParts(e, v);
    SetFieldsTwice(e, c, Addr(e, WakeUpDur), p.0, Addr(e, FreeFall), p.1)
  }

  /** The duration the getter assembles, in uint8_t arithmetic. */
  function FfDurJoin(e: Env, wud: bv8, ff: bv8): bv8
    requires Fields(e.lay)
  {
    (Get(wud, Fld(e, WakeUpDurFfDur)) << 5) + Get(ff, Fld(e, FreeFallFfDur))
  }

  function FfDurGet(e: Env, c: Chip): (r: Res<bv8>)
    requires Coherent(e, c) && Fields(e.lay)
    ensures Coherent(e, r.c)
  {
    var rd := ReadTwo(e, c, Addr(e, WakeUpDur), Addr(e, FreeFall));
    Res(rd.c, rd.st, FfDurJoin(e, rd.v.0, rd.v.1))
  }

  /**
   * The free-fall duration is six bits wide: after a successful set the
   * getter returns the low six bits of the value, and exactly the value
   * when it is below 64.
   */
  lemma FfDurRoundTrip(e: Env, c: Chip, v: bv8)
    requires Ready(e, c) && Apart(e.lay, WakeUpDur) && Apart(e.lay, FreeFall) && Differ(e.lay, WakeUpDur, FreeFall)
    requires Bit(e.lay, WakeUpDurFfDur) && Fits(Fld(e, FreeFallFfDur), 0x1F)
    ensures var s := FfDurSet(e, c, v);
      var g := FfDurGet(e, s.c);
      && s.c.bank == User
      && Confined(e, c, s.c, s.st, {(User, Addr(e, WakeUpDur)), (User, Addr(e, FreeFall))})
      && (s.st == 0 && g.st == 0 ==> g.v == v & 0x3F && (g.v == v <==> v < 64))
  {
    var a1, a2 := Addr(e, WakeUpDur), Addr(e, FreeFall);
    var p := FfDurParts(e, v);
    var s := FfDurSet(e, c, v);
    SetFieldsTwiceEffect(e, c, a1, p.0, a2, p.1);
    if s.st == 0 {
      ReadTwoEffect(e, s.c, a1, a2);
      OverlayGet(c.user[a1], p.0, 0);
      OverlayGet(c.user[a2], p.1, 0);
      OneBitValue(Fld(e, WakeUpDurFfDur), v, 0x20, 5);
      assert Trunc(Fld(e, FreeFallFfDur), v & 0x1F) == v & 0x1F;
      FfDurBits(v);
    }
  }

  lemma FfDurBits(v: bv8)
    ensures (((v & 0x20) >> 5) << 5) + (v & 0x1F) == v & 0x3F
    ensures v & 0x3F == v <==> v < 64
  {
  }

  // ---------------------------------------------------------------------
  // asm330lhb_fifo_watermark_set/get: FIFO_CTRL2 wtm (bit 8), FIFO_CTRL1 wtm (bits 0-7)

  /**
   * The two parts the setter writes: bit 8 of the level, and the level less
   * that bit's weight truncated to uint8_t, which is its low byte (SplitAsC):
   * a level of 300 is stored as 1 in FIFO_CTRL2 and 44 in FIFO_CTRL1.
   */
  function WatermarkSplit(v: bv16): (r: (bv8, bv8))
    ensures r.0 <= 1 && Word(r.0, r.1) == v & 0x1FF
  {
    NineBits(v);
    (Hi(v) & 0x01, Lo(v))
  }

  function WatermarkSet(e: Env, c: Chip, v: bv16): (r: Res<()>)
    requires Coherent(e, c) && Fields(e.lay)
    ensures Coherent(e, r.c)
  {
    var p := WatermarkSplit(v);
    SetFieldsThenWrite(e, c, Addr(e, FifoCtrl2), [Update(Fld(e, FifoCtrl2Wtm), p.0)], Addr(e, FifoCtrl1), p.1)
  }

  /** The level the getter assembles: FIFO_CTRL2 wtm * 256 + FIFO_CTRL1 wtm. */
  function WatermarkJoin(e: Env, ctrl2: bv8, ctrl1: bv8): bv16
    requires Fields(e.lay)
  {
    Word(Get(ctrl2, Fld(e, FifoCtrl2Wtm)), Get(ctrl1, Fld(e, FifoCtrl1Wtm)))
  }

  function WatermarkGet(e: Env, c: Chip): (r: Res<bv16>)
    requires Coherent(e, c) && Fields(e.lay)
    ensures Coherent(e, r.c)
  {
    var rd := ReadTwo(e, c, Addr(e, FifoCtrl2), Addr(e, FifoCtrl1));
    Res(rd.c, rd.st, WatermarkJoin(e, rd.v.0, rd.v.1))
  }

  /**
   * The watermark is nine bits wide: after a successful set the getter
   * returns the level modulo 512, and exactly the level when it is below 512.
   */
  lemma WatermarkRoundTrip(e: Env, c: Chip, v: bv16)
    requires Ready(e, c) && Apart(e.lay, FifoCtrl2) && Apart(e.lay, FifoCtrl1) && Differ(e.lay, FifoCtrl2, FifoCtrl1)
    requires Bit(e.lay, FifoCtrl2Wtm) && Fld(e, FifoCtrl1Wtm) == Field(0xFF, 0)
    ensures var s := WatermarkSet(e, c, v);
      var g := WatermarkGet(e, s.c);
      && s.c.bank == User
      && Confined(e, c, s.c, s.st, {(User, Addr(e, FifoCtrl2)), (User, Addr(e, FifoCtrl1))})
      && (s.st == 0 && g.st == 0 ==> g.v == v & 0x1FF && (g.v == v <==> v < 512))
  {
    var a1, a2 := Addr(e, FifoCtrl2), Addr(e, FifoCtrl1);
    var p := WatermarkSplit(v);
    var u := [Update(Fld(e, FifoCtrl2Wtm), p.0)];
    var s := WatermarkSet(e, c, v);
    SetFieldsThenWriteEffect(e, c, a1, u, a2, p.1);
    if s.st == 0 {
      ReadTwoEffect(e, s.c, a1, a2);
      WatermarkValue(Fld(e, FifoCtrl2Wtm), Fld(e, FifoCtrl1Wtm), c.user[a1], v);
    }
  }

  /** The value part of the round trip, in the fields alone. */
  lemma WatermarkValue(f2: Field, f1: Field, b: bv8, v: bv16)
    requires WellFormed(f2) && Ones(f2) == 1 && f1 == Field(0xFF, 0)
    ensures var p := WatermarkSplit(v);
      var w := Word(Get(Overlay(b, [Update(f2, p.0)]), f2), Get(p.1, f1));
      w == v & 0x1FF && (w == v <==> v < 512)
  {
    var p := WatermarkSplit(v);
    OverlayGet(b, [Update(f2, p.0)], 0);
    OneBitFits(f2, p.0);
    WholeByte(p.1, p.1);
    NineBits(v);
  }

  /** A value of at most 1 fits a one-bit field. */
  lemma OneBitFits(f: Field, x: bv8)
    requires WellFormed(f) && Ones(f) == 1 && x <= 1
    ensures Trunc(f, x) == x
  {
  }

  /** The low bit of the high byte and the low byte make the value modulo 512. */
  lemma NineBits(v: bv16)
    ensures Hi(v) & 1 <= 1 && Word(Hi(v) & 1, Lo(v)) == v & 0x1FF
    ensures v & 0x1FF == v <==> v < 512
  {
  }

  // ---------------------------------------------------------------------
  // asm330lhb_batch_counter_threshold_set/get: COUNTER_BDR_REG1 cnt_bdr_th
  // (bits 8-10), COUNTER_BDR_REG2 cnt_bdr_th (bits 0-7)

  /** The high three bits and the low byte of the threshold, split as the watermark is. */
  function BatchThSplit(v: bv16): (r: (bv8, bv8))
    ensures r.0 <= 7 && Word(r.0, r.1) == v & 0x7FF
  {
    (Hi(v) & 0x07, Lo(v))
  }

  /**
   * COUNTER_BDR_REG1 is read into a struct of the COUNTER_BDR_REG2 layout,
   * so the high part is assigned through CntBdrThReg2.
   */
  function BatchThSet(e: Env, c: Chip, v: bv16): (r: Res<()>)
    requires Coherent(e, c) && Fields(e.lay)
    ensures Coherent(e, r.c)
  {
    var p := BatchThSplit(v);
    SetFieldsThenWrite(e, c, Addr(e, CounterBdrReg1), [Update(Fld(e, CntBdrThReg2), p.0)], Addr(e, CounterBdrReg2), p.1)
  }

  function BatchThJoin(e: Env, reg1: bv8, reg2: bv8): bv16
    requires Fields(e.lay)
  {
    Word(Get(reg1, Fld(e, CntBdrThReg1)), Get(reg2, Fld(e, CntBdrThReg2)))
  }

  function BatchThGet(e: Env, c: Chip): (r: Res<bv16>)
    requires Coherent(e, c) && Fields(e.lay)
    ensures Coherent(e, r.c)
  {
    var rd := ReadTwo(e, c, Addr(e, CounterBdrReg1), Addr(e, CounterBdrReg2));
    Res(rd.c, rd.st, BatchThJoin(e, rd.v.0, rd.v.1))
  }

  /** Three bits of a byte at bit 0 are what a three-bit field at bit 0 reads. */
  lemma LowField(f: Field, b: bv8)
    requires WellFormed(f) && Fits(f, 7) && f.shift == 0 && b <= 7
    ensures Get(b, f) == b
  {
  }

  /**
   * The threshold is eleven bits wide: after a successful set the getter
   * returns the value modulo 2048, and exactly the value when it is below 2048.
   */
  lemma BatchThRoundTrip(e: Env, c: Chip, v: bv16)
    requires Ready(e, c) && Apart(e.lay, CounterBdrReg1) && Apart(e.lay, CounterBdrReg2) && Differ(e.lay, CounterBdrReg1, CounterBdrReg2)
    requires Fits(Fld(e, CntBdrThReg1), 7) && Fld(e, CntBdrThReg1).shift == 0 && Fld(e, CntBdrThReg2) == Field(0xFF, 0)
    ensures var s := BatchThSet(e, c, v);
      var g := BatchThGet(e, s.c);
      && s.c.bank == User
      && Confined(e, c, s.c, s.st, {(User, Addr(e, CounterBdrReg1)), (User, Addr(e, CounterBdrReg2))})
      && (s.st == 0 && g.st == 0 ==> g.v == v & 0x7FF && (g.v == v <==> v < 2048))
  {
    var a1, a2 := Addr(e, CounterBdrReg1), Addr(e, CounterBdrReg2);
    var p := BatchThSplit(v);
    var u := [Update(Fld(e, CntBdrThReg2), p.0)];
    var s := BatchThSet(e, c, v);
    SetFieldsThenWriteEffect(e, c, a1, u, a2, p.1);
    if s.st == 0 {
      ReadTwoEffect(e, s.c, a1, a2);
      BatchThValue(Fld(e, CntBdrThReg1), Fld(e, CntBdrThReg2), c.user[a1], v);
    }
  }

  /**
   * The value part of the round trip: the high part, assigned through the
   * whole-byte field of the COUNTER_BDR_REG2 layout, reads back through the
   * three-bit field of the COUNTER_BDR_REG1 layout.
   */
  lemma BatchThValue(f1: Field, f2: Field, b: bv8, v: bv16)
    requires WellFormed(f1) && Fits(f1, 7) && f1.shift == 0 && f2 == Field(0xFF, 0)
    ensures var p := BatchThSplit(v);
      var w := Word(Get(Overlay(b, [Update(f2, p.0)]), f1), Get(p.1, f2));
      w == v & 0x7FF && (w == v <==> v < 2048)
  {
    var p := BatchThSplit(v);
    WholeByte(b, p.0);
    LowField(f1, p.0);
    WholeByte(p.1, p.1);
    ElevenBits(v);
  }

  /** Assigning a whole-byte field replaces the byte. */
  lemma WholeByte(b: bv8, x: bv8)
    ensures Overlay(b, [Update(Field(0xFF, 0), x)]) == x
    ensures Get(x, Field(0xFF, 0)) == x
  {
    OverlayGet(b, [Update(Field(0xFF, 0), x)], 0);
  }

  /** Three high bits and eight low bits make the value modulo 2048. */
  lemma ElevenBits(v: bv16)
    ensures Word(Hi(v) & 7, Lo(v)) == v & 0x7FF
    ensures v & 0x7FF == v <==> v < 2048
  {
  }

  // ---------------------------------------------------------------------
  // asm330lhb_fifo_data_level_get: FIFO_STATUS2 diff_fifo (high), FIFO_STATUS1 diff_fifo (low)

  function FifoLevelGet(e: Env, c: Chip): (r: Res<bv16>)
    requires Coherent(e, c) && Fields(e.lay)
    ensures Coherent(e, r.c)
  {
    var rd := ReadTwo(e, c, Addr(e, FifoStatus1), Addr(e, FifoStatus2));
    Res(rd.c, rd.st, Word(Get(rd.v.1, Fld(e, FifoStatus2Diff)), Get(rd.v.0, Fld(e, FifoStatus1Diff))))
  }

  /** The level is read from the two status registers; nothing changes. */
  lemma FifoLevelGetEffect(e: Env, c: Chip)
    requires Ready(e, c)
    ensures var g := FifoLevelGet(e, c);
      var hi, lo := Get(c.user[Addr(e, FifoStatus2)], Fld(e, FifoStatus2Diff)), Get(c.user[Addr(e, FifoStatus1)], Fld(e, FifoStatus1Diff));
      && g.c.bank == User
      && Confined(e, c, g.c, g.st, {})
      && (g.st == 0 ==> Hi(g.v) == hi && Lo(g.v) == lo)
  {
    ReadTwoEffect(e, c, Addr(e, FifoStatus1), Addr(e, FifoStatus2));
  }

  // ---------------------------------------------------------------------
  // asm330lhb_long_cnt_set/get: FSM_LONG_COUNTER_L/H in the embedded-functions bank

  /** The counter as the two bytes the setter writes, low byte first. */
  function LongCntBytes(v: bv16): (r: seq<bv8>)
    ensures |r| == 2 && Word(r[1], r[0]) == v
  {
    WordOfBytes(v);
    [Lo(v), Hi(v)]
  }

  function LongCntSet(e: Env, c: Chip, v: bv16): (r: Res<()>)
    requires Coherent(e, c) && Addr(e, FsmLongCounterL) + 2 <= 256
    ensures Coherent(e, r.c)
  {
    EmbWrite(e, c, Addr(e, FsmLongCounterL), LongCntBytes(v))
  }

  function LongCntGet(e: Env, c: Chip): (r: Res<bv16>)
    requires Coherent(e, c) && Addr(e, FsmLongCounterL) + 2 <= 256
    ensures Coherent(e, r.c)
  {
    var rd := EmbRead(e, c, Addr(e, FsmLongCounterL), 2);
    if rd.st != 0 then Res(rd.c, rd.st, 0) else
    Res(rd.c, rd.st, Word(rd.v[1], rd.v[0]))
  }

  /**
   * The long counter round-trips through its two bytes of the
   * embedded-functions bank, which are all the setter changes.
   */
  lemma LongCntRoundTrip(e: Env, c: Chip, v: bv16)
    requires Coherent(e, c) && Fit(e.lay, FsmLongCounterL, 2) && ApartN(e.lay, FsmLongCounterL, 2)
    ensures var s := LongCntSet(e, c, v);
      var g := LongCntGet(e, s.c);
      && Confined(e, c, s.c, s.st, {(Embedded, Addr(e, FsmLongCounterL)), (Embedded, Addr(e, FsmLongCounterL) + 1)})
      && (s.st == 0 && g.st == 0 ==> g.v == v)
  {
    var a := Addr(e, FsmLongCounterL);
    var data := LongCntBytes(v);
    var s := LongCntSet(e, c, v);
    EmbWritePairEffect(e, c, a, data);
    if s.st == 0 {
      EmbReadEffect(e, s.c, a, 2);
    }
  }
}
