// The embedded engines: the finite-state machine (FSM) and the machine-
// learning core (MLC), whose registers live in the embedded-functions bank.
//
// Every function here switches to that bank, works there and switches back.
// Most follow the driver's usual `if (ret == 0)` chain, so the first failure
// ends the operation and leaves the embedded bank selected. Four keep the
// driver's exceptions: the clock-disable accessors and asm330lhb_mlc_init_set
// always attempt the switch back and add its status to the earlier one,
// asm330lhb_mlc_init_get returns only the status of the switch back, and
// asm330lhb_fsm_status_get keeps only the status of its second read.

module Engines {
  import opened Bits
  import opened Layout
  import opened Odr
  import opened Bus

  // ---------------------------------------------------------------------
  // asm330lhb_fsm_enable_set/get: FSM_ENABLE_A, FSM_ENABLE_B and EMB_FUNC_EN_B.fsm_en

  /** fsm_en as the setter derives it: set exactly when one of the sixteen enable bits is. */
  function FsmEnBit(e: Env, a: bv8, b: bv8): (r: bv8)
    ensures r == 0 || r == 1
    ensures r == 1 <==> AnySet(a, e.lay.group(FsmEnAll1to8)) || AnySet(b, e.lay.group(FsmEnAll9to16))
  {
    if AnySet(a, e.lay.group(FsmEnAll1to8)) || AnySet(b, e.lay.group(FsmEnAll9to16)) then 1 else 0
  }

  /** The setter's transactions between its two bank switches. */
  function FsmEnableWrites(e: Env, c: Chip, a: bv8, b: bv8): (r: Res<()>)
    requires Coherent(e, c) && Fields(e.lay)
    ensures Coherent(e, r.c)
  {
    var w := WriteTwo(e, c, Addr(e, FsmEnableA), a, Addr(e, FsmEnableB), b);
    if w.st != 0 then w else
    SetFields(e, w.c, Addr(e, EmbFuncEnB), [Update(Fld(e, FsmEn), FsmEnBit(e, a, b))])
  }

  /** asm330lhb_fsm_enable_set: the two enable registers, then the derived fsm_en. */
  function FsmEnableSet(e: Env, c: Chip, a: bv8, b: bv8): (r: Res<()>)
    requires Coherent(e, c) && Fields(e.lay)
    ensures Coherent(e, r.c)
  {
    var b1 := MemBankSet(e, c, Embedded);
    if b1.st != 0 then b1 else
    var s := FsmEnableWrites(e, b1.c, a, b);
    if s.st != 0 then s else
    MemBankSet(e, s.c, User)
  }

  /** asm330lhb_fsm_enable_get: FSM_ENABLE_A and FSM_ENABLE_B. */
  function FsmEnableGet(e: Env, c: Chip): (r: Res<(bv8, bv8)>)
    requires Coherent(e, c)
    ensures Coherent(e, r.c)
  {
    var b1 := MemBankSet(e, c, Embedded);
    if b1.st != 0 then Res(b1.c, b1.st, (0, 0)) else
    var rd := ReadTwo(e, b1.c, Addr(e, FsmEnableA), Addr(e, FsmEnableB));
    if rd.st != 0 then rd else
    var b2 := MemBankSet(e, rd.c, User);
    Res(b2.c, b2.st, rd.v)
  }

  /** The registers of FSM_ENABLE_A, FSM_ENABLE_B and EMB_FUNC_EN_B are distinct and apart from FUNC_CFG_ACCESS. */
  predicate FsmEnableLayout(lay: Layout)
  {
    && Apart(lay, FsmEnableA) && Apart(lay, FsmEnableB) && Apart(lay, EmbFuncEnB)
    && Differ(lay, FsmEnableA, FsmEnableB) && Differ(lay, FsmEnableA, EmbFuncEnB) && Differ(lay, FsmEnableB, EmbFuncEnB)
  }

  /** The frame of the setter: its three registers of the embedded-functions bank. */
  function FsmEnableFrame(e: Env): set<(Bank, int)>
  {
    {(Embedded, Addr(e, FsmEnableA)), (Embedded, Addr(e, FsmEnableB)), (Embedded, Addr(e, EmbFuncEnB))}
  }

  /** The three writes change only their registers. */
  lemma FsmEnableWritesEffect(e: Env, c: Chip, a: bv8, b: bv8)
    requires Coherent(e, c) && Fields(e.lay) && FsmEnableLayout(e.lay) && c.bank == Embedded
    ensures var r := FsmEnableWrites(e, c, a, b);
      && r.c.bank == Embedded
      && Confined(e, c, r.c, r.st, FsmEnableFrame(e))
      && (r.st == 0 ==> FsmEnableHolds(e, c, r.c, a, b))
  {
    var pa, pb, n := Addr(e, FsmEnableA), Addr(e, FsmEnableB), Addr(e, EmbFuncEnB);
    var w1: set<(Bank, int)> := {(Embedded, pa), (Embedded, pb)};
    var w := WriteTwo(e, c, pa, a, pb, b);
    WriteTwoEffect(e, c, pa, a, pb, b);
    if w.st == 0 {
      var ups := [Update(Fld(e, FsmEn), FsmEnBit(e, a, b))];
      var s := SetFields(e, w.c, n, ups);
      SetFieldsEffect(e, w.c, n, ups);
      ConfinedTrans(e, c, w.c, s.c, s.st, w1, {(Embedded, n)});
      assert w1 + {(Embedded, n)} == FsmEnableFrame(e);
      if s.st == 0 {
        FsmEnableWritesValues(e, c, w.c, s.c, a, b);
      }
    } else {
      SameWiden(e, c, w.c, w1, FsmEnableFrame(e));
    }
  }

  /** A successful setter leaves the two enable bytes and fsm_en derived from them. */
  predicate FsmEnableHolds(e: Env, c: Chip, r: Chip, a: bv8, b: bv8)
    requires Coherent(e, c) && Coherent(e, r) && Fields(e.lay)
  {
    var n := Addr(e, EmbFuncEnB);
    && r.emb[Addr(e, FsmEnableA)] == a && r.emb[Addr(e, FsmEnableB)] == b
    && r.emb[n] == Overlay(c.emb[n], [Update(Fld(e, FsmEn), FsmEnBit(e, a, b))])
  }

  /** The values the two steps of the setter leave, carried to its end. */
  lemma FsmEnableWritesValues(e: Env, c: Chip, c1: Chip, c2: Chip, a: bv8, b: bv8)
    requires Coherent(e, c) && Coherent(e, c1) && Coherent(e, c2) && Fields(e.lay) && FsmEnableLayout(e.lay)
    requires c.bank == Embedded
    requires c1.emb[Addr(e, FsmEnableA)] == a && c1.emb[Addr(e, FsmEnableB)] == b
    requires SameExcept(e, c, c1, {(Embedded, Addr(e, FsmEnableA)), (Embedded, Addr(e, FsmEnableB))})
    requires SameExcept(e, c1, c2, {(Embedded, Addr(e, EmbFuncEnB))})
    requires var n := Addr(e, EmbFuncEnB); c2.emb[n] == Overlay(c1.emb[n], [Update(Fld(e, FsmEn), FsmEnBit(e, a, b))])
    ensures FsmEnableHolds(e, c, c2, a, b)
  {
  }

  /**
   * asm330lhb_fsm_enable_set changes only the three registers; on success
   * they hold the two enable bytes and fsm_en derived from them, and the user
   * bank is selected again.
   */
  lemma FsmEnableSetEffect(e: Env, c: Chip, a: bv8, b: bv8)
    requires Ready(e, c) && FsmEnableLayout(e.lay)
    ensures var r := FsmEnableSet(e, c, a, b);
      var n := Addr(e, EmbFuncEnB);
      && Confined(e, c, r.c, r.st, FsmEnableFrame(e))
      && (r.st == 0 ==> r.c.bank == User && FsmEnableHolds(e, c, r.c, a, b))
  {
    var b1 := MemBankSet(e, c, Embedded);
    Enter(e, c, FsmEnableFrame(e));
    if b1.st == 0 {
      var s := FsmEnableWrites(e, b1.c, a, b);
      FsmEnableWritesEffect(e, b1.c, a, b);
      Bracket(e, c, s.c, s.st, FsmEnableFrame(e));
    }
  }

  /** asm330lhb_fsm_enable_get changes nothing and returns the two enable registers. */
  lemma FsmEnableGetEffect(e: Env, c: Chip)
    requires Ready(e, c) && Apart(e.lay, FsmEnableA) && Apart(e.lay, FsmEnableB)
    ensures var g := FsmEnableGet(e, c);
      && Confined(e, c, g.c, g.st, {})
      && (g.st == 0 ==> g.c.bank == User && g.v == (c.emb[Addr(e, FsmEnableA)], c.emb[Addr(e, FsmEnableB)]))
  {
    var b1 := MemBankSet(e, c, Embedded);
    Enter(e, c, {});
    if b1.st == 0 {
      var rd := ReadTwo(e, b1.c, Addr(e, FsmEnableA), Addr(e, FsmEnableB));
      ReadTwoEffect(e, b1.c, Addr(e, FsmEnableA), Addr(e, FsmEnableB));
      Bracket(e, c, rd.c, rd.st, {});
    }
  }

  /**
   * The derived enable: after a successful asm330lhb_fsm_enable_set, the
   * getter returns the two enable bytes, and fsm_en is 1 exactly when one of
   * the sixteen enable bits is set.
   */
  lemma FsmEnableRoundTrip(e: Env, c: Chip, a: bv8, b: bv8)
    requires Ready(e, c) && FsmEnableLayout(e.lay) && Bit(e.lay, FsmEn)
    ensures var s := FsmEnableSet(e, c, a, b);
      var g := FsmEnableGet(e, s.c);
      && (s.st == 0 ==>
           (Get(s.c.emb[Addr(e, EmbFuncEnB)], Fld(e, FsmEn)) == 1
            <==> AnySet(a, e.lay.group(FsmEnAll1to8)) || AnySet(b, e.lay.group(FsmEnAll9to16))))
      && (s.st == 0 && g.st == 0 ==> g.v == (a, b))
  {
    var s := FsmEnableSet(e, c, a, b);
    FsmEnableSetEffect(e, c, a, b);
    if s.st == 0 {
      var n := Addr(e, EmbFuncEnB);
      FsmEnableGetEffect(e, s.c);
      OverlayGet(c.emb[n], [Update(Fld(e, FsmEn), FsmEnBit(e, a, b))], 0);
      OneBit(Fld(e, FsmEn), FsmEnBit(e, a, b));
    }
  }

  /** 0 and 1 fit a one-bit field. */
  lemma OneBit(f: Field, x: bv8)
    requires WellFormed(f) && Ones(f) == 1 && x <= 1
    ensures Trunc(f, x) == x
  {
  }

  // ---------------------------------------------------------------------
  // asm330lhb_emb_fsm_en_set/get: EMB_FUNC_EN_B.fsm_en

  function EmbFsmEnSet(e: Env, c: Chip, v: bv8): (r: Res<()>)
    requires Coherent(e, c) && Fields(e.lay)
    ensures Coherent(e, r.c)
  {
    EmbSetFields(e, c, Addr(e, EmbFuncEnB), [Update(Fld(e, FsmEn), v)])
  }

  /** The getter writes the register it read back unchanged before it switches back. */
  function EmbFsmEnGet(e: Env, c: Chip): (r: Res<bv8>)
    requires Coherent(e, c) && Fields(e.lay)
    ensures Coherent(e, r.c)
  {
    var n := Addr(e, EmbFuncEnB);
    var b1 := MemBankSet(e, c, Embedded);
    if b1.st != 0 then Res(b1.c, b1.st, 0) else
    var rd := ReadReg(e, b1.c, n, 1);
    if rd.st != 0 then Res(rd.c, rd.st, 0) else
    var v := Get(rd.v[0], Fld(e, FsmEn));
    var w := WriteReg(e, rd.c, n, [rd.v[0]]);
    if w.st != 0 then Res(w.c, w.st, v) else
    var b2 := MemBankSet(e, w.c, User);
    Res(b2.c, b2.st, v)
  }

  /**
   * asm330lhb_emb_fsm_en_get returns fsm_en and changes no register, though
   * it writes (see EmbFsmEnGetWritesBack).
   */
  lemma EmbFsmEnGetEffect(e: Env, c: Chip)
    requires Ready(e, c) && Apart(e.lay, EmbFuncEnB)
    ensures var g := EmbFsmEnGet(e, c);
      && Confined(e, c, g.c, g.st, {})
      && (g.st == 0 ==> g.c.bank == User && g.v == Get(c.emb[Addr(e, EmbFuncEnB)], Fld(e, FsmEn)))
  {
    var n := Addr(e, EmbFuncEnB);
    var b1 := MemBankSet(e, c, Embedded);
    Enter(e, c, {});
    if b1.st == 0 {
      var rd := ReadReg(e, b1.c, n, 1);
      ReadRegConfined(e, b1.c, n, 1);
      if rd.st == 0 {
        var w := WriteReg(e, rd.c, n, [rd.v[0]]);
        WriteBackConfined(e, rd.c, n);
        ConfinedTrans(e, b1.c, rd.c, w.c, w.st, {}, {});
        Bracket(e, c, w.c, w.st, {});
      } else {
        Bracket(e, c, rd.c, rd.st, {});
      }
    }
  }

  /**
   * Once the bank switch and the read succeeded, the fourth transaction of
   * asm330lhb_emb_fsm_en_get is a write of EMB_FUNC_EN_B with the byte read.
   */
  lemma EmbFsmEnGetWritesBack(e: Env, c: Chip)
    requires Ready(e, c) && Apart(e.lay, EmbFuncEnB)
    requires e.fail(|c.log|) == 0 && e.fail(|c.log| + 1) == 0 && e.fail(|c.log| + 2) == 0
    ensures var g := EmbFsmEnGet(e, c);
      var n := Addr(e, EmbFuncEnB);
      |Delta(c, g.c)| >= 4 && Delta(c, g.c)[3] == Wr(Embedded, n, [c.emb[n]], e.fail(|c.log| + 3))
  {
    var n := Addr(e, EmbFuncEnB);
    var b1 := MemBankSet(e, c, Embedded);
    MemBankSetLog(e, c, Embedded);
    MemBankSetEffect(e, c, Embedded);
    MemBankSetBank(e, c, Embedded);
    assert |b1.c.log| == |c.log| + 2;
    var rd := ReadReg(e, b1.c, n, 1);
    var w := WriteReg(e, rd.c, n, [rd.v[0]]);
    var g := EmbFsmEnGet(e, c);
    if w.st == 0 {
      MemBankSetLog(e, w.c, User);
    }
    assert Extends(w.c, g.c);
    Prefix4(c, b1.c, rd.c, w.c, g.c);
  }

  /** The write-back is the fourth transaction: the bank switch issued two, the read one. */
  lemma Prefix4(c: Chip, c1: Chip, c2: Chip, c3: Chip, c4: Chip)
    requires Extends(c, c1) && |c1.log| == |c.log| + 2
    requires Extends(c1, c2) && |c2.log| == |c1.log| + 1
    requires Extends(c2, c3) && |c3.log| == |c2.log| + 1 && Extends(c3, c4)
    ensures |Delta(c, c4)| >= 4 && Delta(c, c4)[3] == c3.log[|c2.log|]
  {
  }

  // ---------------------------------------------------------------------
  // asm330lhb_fsm_data_rate_set/get and asm330lhb_mlc_data_rate_set/get:
  // EMB_FUNC_ODR_CFG_B.fsm_odr and EMB_FUNC_ODR_CFG_C.mlc_odr

  /**
   * The switch of both getters: the enumerator whose code the field holds,
   * and 12.5 Hz, the default branch, for any other value.
   */
  function EmbOdrOf(code: EmbOdr -> bv8, raw: bv8): (r: EmbOdr)
    ensures r == Emb12Hz5 || raw == code(r)
    ensures (forall o :: raw != code(o)) ==> r == Emb12Hz5
  {
    if raw == code(Emb12Hz5) then Emb12Hz5
    else if raw == code(Emb26Hz) then Emb26Hz
    else if raw == code(Emb52Hz) then Emb52Hz
    else if raw == code(Emb104Hz) then Emb104Hz
    else Emb12Hz5
  }

  /** The four codes of an engine rate fit its field and are distinct. */
  predicate EmbCodes(code: EmbOdr -> bv8, f: Field)
    requires WellFormed(f)
  {
    && Fits(f, code(Emb12Hz5)) && Fits(f, code(Emb26Hz)) && Fits(f, code(Emb52Hz)) && Fits(f, code(Emb104Hz))
    && code(Emb12Hz5) != code(Emb26Hz) && code(Emb12Hz5) != code(Emb52Hz) && code(Emb12Hz5) != code(Emb104Hz)
    && code(Emb26Hz) != code(Emb52Hz) && code(Emb26Hz) != code(Emb104Hz) && code(Emb52Hz) != code(Emb104Hz)
  }

  /** With distinct codes, the getters' switch inverts the code table. */
  lemma EmbOdrOfCode(code: EmbOdr -> bv8, f: Field, o: EmbOdr)
    requires WellFormed(f) && EmbCodes(code, f)
    ensures EmbOdrOf(code, code(o)) == o
  {
  }

  /** The FSM rate setter also writes the documented defaults of the two unused fields. */
  function FsmOdrParts(e: Env, o: EmbOdr): seq<Update>
  {
    [Update(Fld(e, OdrCfgBNotUsed01), 3), Update(Fld(e, OdrCfgBNotUsed02), 1), Update(Fld(e, FsmOdr), e.lay.fsmOdrCode(o))]
  }

  function FsmDataRateSet(e: Env, c: Chip, o: EmbOdr): (r: Res<()>)
    requires Coherent(e, c) && Fields(e.lay)
    ensures Coherent(e, r.c)
  {
    EmbSetFields(e, c, Addr(e, EmbFuncOdrCfgB), FsmOdrParts(e, o))
  }

  /** The getter switches back only after a successful read; it decodes either way. */
  function FsmDataRateGet(e: Env, c: Chip): (r: Res<EmbOdr>)
    requires Coherent(e, c) && Fields(e.lay)
    ensures Coherent(e, r.c)
  {
    var g := EmbGetField(e, c, Addr(e, EmbFuncOdrCfgB), Fld(e, FsmOdr), Raw);
    Res(g.c, g.st, EmbOdrOf(e.lay.fsmOdrCode, g.v))
  }

  function MlcDataRateSet(e: Env, c: Chip, o: EmbOdr): (r: Res<()>)
    requires Coherent(e, c) && Fields(e.lay)
    ensures Coherent(e, r.c)
  {
    EmbSetFields(e, c, Addr(e, EmbFuncOdrCfgC), [Update(Fld(e, MlcOdr), e.lay.mlcOdrCode(o))])
  }

  function MlcDataRateGet(e: Env, c: Chip): (r: Res<EmbOdr>)
    requires Coherent(e, c) && Fields(e.lay)
    ensures Coherent(e, r.c)
  {
    var g := EmbGetField(e, c, Addr(e, EmbFuncOdrCfgC), Fld(e, MlcOdr), Raw);
    Res(g.c, g.st, EmbOdrOf(e.lay.mlcOdrCode, g.v))
  }

  /** What the FSM rate functions rely on of EMB_FUNC_ODR_CFG_B. */
  predicate FsmOdrLayout(lay: Layout)
    requires Fields(lay)
  {
    && Apart(lay, EmbFuncOdrCfgB)
    && Clear(lay, OdrCfgBNotUsed01, OdrCfgBNotUsed02) && Clear(lay, OdrCfgBNotUsed01, FsmOdr) && Clear(lay, OdrCfgBNotUsed02, FsmOdr)
    && EmbCodes(lay.fsmOdrCode, lay.field(FsmOdr))
  }

  /**
   * The FSM rate round trip: after a successful set, a successful get
   * returns the rate set, and the unused fields hold their defaults.
   */
  lemma FsmDataRateRoundTrip(e: Env, c: Chip, o: EmbOdr)
    requires Ready(e, c) && FsmOdrLayout(e.lay)
    ensures var s := FsmDataRateSet(e, c, o);
      var g := FsmDataRateGet(e, s.c);
      var byte := s.c.emb[Addr(e, EmbFuncOdrCfgB)];
      && Confined(e, c, s.c, s.st, {(Embedded, Addr(e, EmbFuncOdrCfgB))})
      && (s.st == 0 ==>
           && s.c.bank == User
           && Get(byte, Fld(e, OdrCfgBNotUsed01)) == Trunc(Fld(e, OdrCfgBNotUsed01), 3)
           && Get(byte, Fld(e, OdrCfgBNotUsed02)) == Trunc(Fld(e, OdrCfgBNotUsed02), 1))
      && (s.st == 0 && g.st == 0 ==> g.v == o)
  {
    var a := Addr(e, EmbFuncOdrCfgB);
    var ups := FsmOdrParts(e, o);
    var s := FsmDataRateSet(e, c, o);
    EmbSetFieldsEffect(e, c, a, ups);
    if s.st == 0 {
      EmbGetFieldEffect(e, s.c, a, Fld(e, FsmOdr), Raw);
      Disjoint3(ups[0], ups[1], ups[2]);
      OverlayGet(c.emb[a], ups, 0);
      OverlayGet(c.emb[a], ups, 1);
      OverlayGet(c.emb[a], ups, 2);
      EmbOdrOfCode(e.lay.fsmOdrCode, Fld(e, FsmOdr), o);
    }
  }

  /** The MLC rate round trip. */
  lemma MlcDataRateRoundTrip(e: Env, c: Chip, o: EmbOdr)
    requires Ready(e, c) && Apart(e.lay, EmbFuncOdrCfgC) && EmbCodes(e.lay.mlcOdrCode, Fld(e, MlcOdr))
    ensures var s := MlcDataRateSet(e, c, o);
      var g := MlcDataRateGet(e, s.c);
      && Confined(e, c, s.c, s.st, {(Embedded, Addr(e, EmbFuncOdrCfgC))})
      && (s.st == 0 ==> s.c.bank == User)
      && (s.st == 0 && g.st == 0 ==> g.v == o)
  {
    var a := Addr(e, EmbFuncOdrCfgC);
    var ups := [Update(Fld(e, MlcOdr), e.lay.mlcOdrCode(o))];
    var s := MlcDataRateSet(e, c, o);
    EmbSetFieldsEffect(e, c, a, ups);
    if s.st == 0 {
      EmbGetFieldEffect(e, s.c, a, Fld(e, MlcOdr), Raw);
      OverlayGet(c.emb[a], ups, 0);
      EmbOdrOfCode(e.lay.mlcOdrCode, Fld(e, MlcOdr), o);
    }
  }

  // ---------------------------------------------------------------------
  // asm330lhb_mlc_set/get: EMB_FUNC_EN_B.mlc_en and EMB_FUNC_INIT_B

  /**
   * asm330lhb_mlc_set assigns mlc_en and, for a non-zero value, requests an
   * initialisation: it reads EMB_FUNC_INIT_B into a struct of the
   * EMB_FUNC_EN_B layout and assigns mlc_en there, so the bit written is the
   * one at mlc_en's position.
   */
  function MlcSet(e: Env, c: Chip, v: bv8): (r: Res<()>)
    requires Coherent(e, c) && Fields(e.lay)
    ensures Coherent(e, r.c)
  {
    var b1 := MemBankSet(e, c, Embedded);
    if b1.st != 0 then b1 else
    var s := MlcSetWrites(e, b1.c, v);
    if s.st != 0 then s else
    MemBankSet(e, s.c, User)
  }

  /** The setter's transactions between its two bank switches. */
  function MlcSetWrites(e: Env, c: Chip, v: bv8): (r: Res<()>)
    requires Coherent(e, c) && Fields(e.lay)
    ensures Coherent(e, r.c)
  {
    var u := [Update(Fld(e, MlcEn), v)];
    var s1 := SetFields(e, c, Addr(e, EmbFuncEnB), u);
    if s1.st != 0 || v == 0 then s1 else
    SetFields(e, s1.c, Addr(e, EmbFuncInitB), u)
  }

  /** asm330lhb_mlc_get: mlc_en of EMB_FUNC_EN_B. */
  function MlcGet(e: Env, c: Chip): (r: Res<bv8>)
    requires Coherent(e, c) && Fields(e.lay)
    ensures Coherent(e, r.c)
  {
    EmbGetField(e, c, Addr(e, EmbFuncEnB), Fld(e, MlcEn), Raw)
  }

  /** The registers asm330lhb_mlc_set may change: EMB_FUNC_INIT_B only for a non-zero value. */
  function MlcSetFrame(e: Env, v: bv8): set<(Bank, int)>
  {
    if v == 0 then {(Embedded, Addr(e, EmbFuncEnB))}
    else {(Embedded, Addr(e, EmbFuncEnB)), (Embedded, Addr(e, EmbFuncInitB))}
  }

  /** The values a successful asm330lhb_mlc_set leaves in its registers. */
  predicate MlcSetHolds(e: Env, c: Chip, r: Chip, v: bv8)
    requires Coherent(e, c) && Coherent(e, r) && Fields(e.lay)
  {
    var n, i := Addr(e, EmbFuncEnB), Addr(e, EmbFuncInitB);
    var u := [Update(Fld(e, MlcEn), v)];
    && r.emb[n] == Overlay(c.emb[n], u)
    && (v != 0 ==> r.emb[i] == Overlay(c.emb[i], u))
  }

  lemma MlcSetWritesEffect(e: Env, c: Chip, v: bv8)
    requires Coherent(e, c) && Fields(e.lay) && c.bank == Embedded
    requires Apart(e.lay, EmbFuncEnB) && Apart(e.lay, EmbFuncInitB) && Differ(e.lay, EmbFuncEnB, EmbFuncInitB)
    ensures var r := MlcSetWrites(e, c, v);
      && r.c.bank == Embedded
      && Confined(e, c, r.c, r.st, MlcSetFrame(e, v))
      && (r.st == 0 ==> MlcSetHolds(e, c, r.c, v))
  {
    var n, i := Addr(e, EmbFuncEnB), Addr(e, EmbFuncInitB);
    var u := [Update(Fld(e, MlcEn), v)];
    if v == 0 {
      SetFieldsEffect(e, c, n, u);
    } else {
      SetFieldsTwiceEffect(e, c, n, u, i, u);
      assert MlcSetWrites(e, c, v) == SetFieldsTwice(e, c, n, u, i, u);
    }
  }

  /**
   * asm330lhb_mlc_set changes EMB_FUNC_EN_B and, for a non-zero value,
   * EMB_FUNC_INIT_B; on success both hold the assigned bit.
   */
  lemma MlcSetEffect(e: Env, c: Chip, v: bv8)
    requires Ready(e, c)
    requires Apart(e.lay, EmbFuncEnB) && Apart(e.lay, EmbFuncInitB) && Differ(e.lay, EmbFuncEnB, EmbFuncInitB)
    ensures var r := MlcSet(e, c, v);
      && Confined(e, c, r.c, r.st, MlcSetFrame(e, v))
      && (r.st == 0 ==> r.c.bank == User && MlcSetHolds(e, c, r.c, v))
  {
    var b1 := MemBankSet(e, c, Embedded);
    Enter(e, c, MlcSetFrame(e, v));
    if b1.st == 0 {
      var s := MlcSetWrites(e, b1.c, v);
      MlcSetWritesEffect(e, b1.c, v);
      Bracket(e, c, s.c, s.st, MlcSetFrame(e, v));
    }
  }

  /**
   * The MLC enable round trip: the getter returns what C keeps of the value
   * in the one-bit field; with a non-zero value, and when mlc_init sits where
   * mlc_en does, the initialisation request carries the same bit.
   */
  lemma MlcRoundTrip(e: Env, c: Chip, v: bv8)
    requires Ready(e, c)
    requires Apart(e.lay, EmbFuncEnB) && Apart(e.lay, EmbFuncInitB) && Differ(e.lay, EmbFuncEnB, EmbFuncInitB)
    ensures var s := MlcSet(e, c, v);
      var g := MlcGet(e, s.c);
      && (s.st == 0 && v != 0 && Fld(e, MlcInit) == Fld(e, MlcEn) ==>
           Get(s.c.emb[Addr(e, EmbFuncInitB)], Fld(e, MlcInit)) == Trunc(Fld(e, MlcEn), v))
      && (s.st == 0 && g.st == 0 ==> g.v == Trunc(Fld(e, MlcEn), v))
  {
    var s := MlcSet(e, c, v);
    MlcSetEffect(e, c, v);
    if s.st == 0 {
      var u := [Update(Fld(e, MlcEn), v)];
      EmbGetFieldEffect(e, s.c, Addr(e, EmbFuncEnB), Fld(e, MlcEn), Raw);
      OverlayGet(c.emb[Addr(e, EmbFuncEnB)], u, 0);
      OverlayGet(c.emb[Addr(e, EmbFuncInitB)], u, 0);
    }
  }

  // ---------------------------------------------------------------------
  // asm330lhb_mlc_init_set/get: EMB_FUNC_INIT_B.mlc_init

  /**
   * asm330lhb_mlc_init_set: the switch back is attempted whatever happened
   * before, and its status is added to the earlier one.
   */
  function MlcInitSet(e: Env, c: Chip, v: bv8): (r: Res<()>)
    requires Coherent(e, c) && Fields(e.lay)
    ensures Coherent(e, r.c)
  {
    var s := MlcInitWrite(e, c, v);
    var b2 := MemBankSet(e, s.c, User);
    Res(b2.c, s.st + b2.st, ())
  }

  /** The part of asm330lhb_mlc_init_set before the switch back. */
  function MlcInitWrite(e: Env, c: Chip, v: bv8): (r: Res<()>)
    requires Coherent(e, c) && Fields(e.lay)
    ensures Coherent(e, r.c)
  {
    var b1 := MemBankSet(e, c, Embedded);
    if b1.st != 0 then b1 else SetFields(e, b1.c, Addr(e, EmbFuncInitB), [Update(Fld(e, MlcInit), v)])
  }

  /**
   * asm330lhb_mlc_init_get: the switch back is attempted whatever happened
   * before, and its status replaces the earlier one.
   */
  function MlcInitGet(e: Env, c: Chip): (r: Res<bv8>)
    requires Coherent(e, c) && Fields(e.lay)
    ensures Coherent(e, r.c)
  {
    var rd := SwitchThenRead(e, c, Addr(e, EmbFuncInitB));
    var v := if rd.st == 0 then Get(rd.v[0], Fld(e, MlcInit)) else 0;
    var b2 := MemBankSet(e, rd.c, User);
    Res(b2.c, b2.st, v)
  }

  /**
   * The common start of asm330lhb_mlc_init_get and the clock-disable pair:
   * the switch to the embedded bank, then one read of `a` if it succeeded.
   */
  function SwitchThenRead(e: Env, c: Chip, a: RegAddr): (r: Res<seq<bv8>>)
    requires Coherent(e, c)
    ensures Coherent(e, r.c) && |r.v| == 1
  {
    var b1 := MemBankSet(e, c, Embedded);
    if b1.st != 0 then Res(b1.c, b1.st, [0]) else ReadReg(e, b1.c, a, 1)
  }

  /**
   * The switch and read change no register; when its three transactions
   * succeed the byte read is register `a` of the embedded bank, which is
   * then selected.
   */
  lemma SwitchThenReadEffect(e: Env, c: Chip, a: RegAddr)
    requires Coherent(e, c) && a != Fca(e)
    ensures var r := SwitchThenRead(e, c, a);
      && Extends(c, r.c) && SameExcept(e, c, r.c, {})
      && (Succeed(e, |c.log|, 3) ==> r.st == 0 && r.c.bank == Embedded && r.v[0] == c.emb[a] && |r.c.log| == |c.log| + 3)
  {
    var b1 := MemBankSet(e, c, Embedded);
    Enter(e, c, {});
    if b1.st == 0 {
      ReadRegConfined(e, b1.c, a, 1);
      SameTrans(e, c, b1.c, ReadReg(e, b1.c, a, 1).c, {}, {});
    }
    if Succeed(e, |c.log|, 3) {
      var k := |c.log|;
      assert e.fail(k) == 0 && e.fail(k + 1) == 0 && e.fail(k + 2) == 0;
      MemBankSetOk(e, c, Embedded);
    }
  }

  /** Only the bank switches write: every write the switch issues is to FUNC_CFG_ACCESS. */
  lemma MemBankSetWritesFca(e: Env, c: Chip, b: Bank)
    requires Coherent(e, c)
    ensures var r := MemBankSet(e, c, b);
      forall j :: 0 <= j < |Delta(c, r.c)| ==> Delta(c, r.c)[j].reg == Fca(e)
  {
    var a := Addr(e, FuncCfgAccess);
    var rd := ReadReg(e, c, a, 1);
    if rd.st == 0 {
      var byte := Set(rd.v[0], Fld(e, RegAccess), BankCode(e.lay, b));
      var w := WriteReg(e, rd.c, a, [byte]);
      assert Delta(c, w.c) == [Rd(c.bank, a, 1, 0), Wr(c.bank, a, [byte], w.st)];
    } else {
      assert Delta(c, rd.c) == [Rd(c.bank, a, 1, rd.st)];
    }
  }

  /** The `n` transactions from the `k`-th on all succeed. */
  predicate Succeed(e: Env, k: nat, n: nat)
  {
    forall j :: k <= j < k + n ==> e.fail(j) == 0
  }

  /** A bank switch whose two transactions succeed reports success. */
  lemma MemBankSetOk(e: Env, c: Chip, b: Bank)
    requires Coherent(e, c) && e.fail(|c.log|) == 0 && e.fail(|c.log| + 1) == 0
    ensures var r := MemBankSet(e, c, b);
      r.st == 0 && |r.c.log| == |c.log| + 2
  {
  }

  /** A read-modify-write whose two transactions succeed reports success. */
  lemma SetFieldsOk(e: Env, c: Chip, a: RegAddr, ups: seq<Update>)
    requires Coherent(e, c) && AllWellFormed(ups) && e.fail(|c.log|) == 0 && e.fail(|c.log| + 1) == 0
    ensures var r := SetFields(e, c, a, ups);
      r.st == 0 && |r.c.log| == |c.log| + 2
  {
  }

  /**
   * asm330lhb_mlc_init_set changes only EMB_FUNC_INIT_B, and returns to the
   * user bank when its status is zero.
   */
  lemma MlcInitSetFrame(e: Env, c: Chip, v: bv8)
    requires Ready(e, c) && Apart(e.lay, EmbFuncInitB)
    ensures var r := MlcInitSet(e, c, v);
      Extends(c, r.c) && SameExcept(e, c, r.c, {(Embedded, Addr(e, EmbFuncInitB))})
  {
    var i := Addr(e, EmbFuncInitB);
    var s := MlcInitWrite(e, c, v);
    MlcInitWriteFrame(e, c, v);
    var b2 := MemBankSet(e, s.c, User);
    MemBankSetLog(e, s.c, User);
    MemBankSetSame(e, s.c, User);
    SameTrans(e, c, s.c, b2.c, {(Embedded, i)}, {});
    assert {(Embedded, i)} + {} == {(Embedded, i)};
  }

  lemma MlcInitWriteFrame(e: Env, c: Chip, v: bv8)
    requires Ready(e, c) && Apart(e.lay, EmbFuncInitB)
    ensures var s := MlcInitWrite(e, c, v);
      Extends(c, s.c) && SameExcept(e, c, s.c, {(Embedded, Addr(e, EmbFuncInitB))})
  {
    var i := Addr(e, EmbFuncInitB);
    var u := [Update(Fld(e, MlcInit), v)];
    var b1 := MemBankSet(e, c, Embedded);
    MemBankSetLog(e, c, Embedded);
    MemBankSetSame(e, c, Embedded);
    if b1.st == 0 {
      MemBankSetBank(e, c, Embedded);
      SetFieldsEffect(e, b1.c, i, u);
      SameTrans(e, c, b1.c, SetFields(e, b1.c, i, u).c, {}, {(Embedded, i)});
      assert {} + {(Embedded, i)} == {(Embedded, i)};
    } else {
      SameWiden(e, c, b1.c, {}, {(Embedded, i)});
    }
  }

  /**
   * When the whole sequence succeeds, asm330lhb_mlc_init_set is the ordinary
   * setter of the embedded-functions bank.
   */
  lemma MlcInitSetAgrees(e: Env, c: Chip, v: bv8)
    requires Coherent(e, c) && Fields(e.lay)
    ensures var s := EmbSetFields(e, c, Addr(e, EmbFuncInitB), [Update(Fld(e, MlcInit), v)]);
      s.st == 0 ==> MlcInitSet(e, c, v) == s
  {
  }

  /**
   * When its six transactions succeed, asm330lhb_mlc_init_set reports
   * success, EMB_FUNC_INIT_B holds the request and the user bank is selected.
   */
  lemma MlcInitSetEffect(e: Env, c: Chip, v: bv8)
    requires Ready(e, c) && Apart(e.lay, EmbFuncInitB) && Succeed(e, |c.log|, 6)
    ensures var r := MlcInitSet(e, c, v);
      var i := Addr(e, EmbFuncInitB);
      r.st == 0 && r.c.bank == User && r.c.emb[i] == Overlay(c.emb[i], [Update(Fld(e, MlcInit), v)])
  {
    var i := Addr(e, EmbFuncInitB);
    var u := [Update(Fld(e, MlcInit), v)];
    var k := |c.log|;
    assert e.fail(k) == 0 && e.fail(k + 1) == 0 && e.fail(k + 2) == 0 && e.fail(k + 3) == 0;
    assert e.fail(k + 4) == 0 && e.fail(k + 5) == 0;
    var b1 := MemBankSet(e, c, Embedded);
    MemBankSetOk(e, c, Embedded);
    SetFieldsOk(e, b1.c, i, u);
    var s := SetFields(e, b1.c, i, u);
    MemBankSetOk(e, s.c, User);
    MlcInitSetAgrees(e, c, v);
    EmbSetFieldsEffect(e, c, i, u);
  }

  /** When the switch to the embedded bank fails, the switch back is still issued. */
  lemma MlcInitSetRestores(e: Env, c: Chip, v: bv8)
    requires Ready(e, c) && e.fail(|c.log|) != 0
    ensures var r := MlcInitSet(e, c, v);
      |Delta(c, r.c)| >= 2 && Delta(c, r.c)[1] == Rd(User, Fca(e), 1, e.fail(|c.log| + 1))
  {
    var b1 := MemBankSet(e, c, Embedded);
    assert b1.c.log == c.log + [Rd(User, Fca(e), 1, e.fail(|c.log|))];
    var b2 := MemBankSet(e, b1.c, User);
    var rd := ReadReg(e, b1.c, Fca(e), 1);
    assert rd.c.log == c.log + [Rd(User, Fca(e), 1, e.fail(|c.log|)), Rd(User, Fca(e), 1, e.fail(|c.log| + 1))];
    MemBankSetLog(e, rd.c, User);
    assert rd.c.log <= b2.c.log;
  }

  /**
   * The statuses added by asm330lhb_mlc_init_set can cancel: when the first
   * transaction fails with -1 and the first of the switch back with 1, it
   * reports success though it changed nothing.
   */
  lemma MlcInitSetStatusCancels(e: Env, c: Chip, v: bv8)
    requires Ready(e, c) && e.fail(|c.log|) == -1 && e.fail(|c.log| + 1) == 1
    ensures var r := MlcInitSet(e, c, v);
      r.st == 0 && r.c.user == c.user && r.c.emb == c.emb
  {
  }

  /**
   * asm330lhb_mlc_init_get changes no register and, when its status is zero,
   * leaves the user bank selected; when its first three transactions
   * succeed, and so did its read, it returns mlc_init, whatever the switch
   * back reports.
   */
  lemma MlcInitGetEffect(e: Env, c: Chip)
    requires Ready(e, c) && Apart(e.lay, EmbFuncInitB)
    ensures var r := MlcInitGet(e, c);
      && Extends(c, r.c) && SameExcept(e, c, r.c, {}) && (r.st == 0 ==> r.c.bank == User)
      && (Succeed(e, |c.log|, 3) ==> r.v == Get(c.emb[Addr(e, EmbFuncInitB)], Fld(e, MlcInit)))
  {
    var rd := SwitchThenRead(e, c, Addr(e, EmbFuncInitB));
    SwitchThenReadEffect(e, c, Addr(e, EmbFuncInitB));
    MemBankSetLog(e, rd.c, User);
    MemBankSetSame(e, rd.c, User);
    MemBankSetBank(e, rd.c, User);
    SameTrans(e, c, rd.c, MemBankSet(e, rd.c, User).c, {}, {});
  }

  /**
   * asm330lhb_mlc_init_get hides a failed switch to the embedded bank: when
   * that first transaction fails and the switch back succeeds, it reports
   * success though it read nothing.
   */
  lemma MlcInitGetMasksFailure(e: Env, c: Chip)
    requires Ready(e, c) && e.fail(|c.log|) != 0 && e.fail(|c.log| + 1) == 0 && e.fail(|c.log| + 2) == 0
    ensures var r := MlcInitGet(e, c);
      r.st == 0 && Delta(c, r.c)[0].st != 0
  {
    var b1 := MemBankSet(e, c, Embedded);
    MemBankSetLog(e, c, Embedded);
    var b2 := MemBankSet(e, b1.c, User);
    MemBankSetLog(e, b1.c, User);
    assert Delta(c, b1.c) == [Rd(User, Fca(e), 1, e.fail(|c.log|))];
  }

  // ---------------------------------------------------------------------
  // asm330lhb_emb_func_clk_dis_set/get: PAGE_SEL.emb_func_clk_dis

  /**
   * asm330lhb_emb_func_clk_dis_set as written: it reads PAGE_SEL and assigns
   * the field in its local copy, but never writes it back; the switch back
   * is always attempted and its status added.
   */
  function ClkDisSet(e: Env, c: Chip, v: bv8): (r: Res<()>)
    requires Coherent(e, c)
    ensures Coherent(e, r.c)
  {
    var rd := SwitchThenRead(e, c, Addr(e, PageSel));
    var b2 := MemBankSet(e, rd.c, User);
    Res(b2.c, rd.st + b2.st, ())
  }

  /** asm330lhb_emb_func_clk_dis_get: the same sequence, decoding the field read. */
  function ClkDisGet(e: Env, c: Chip): (r: Res<bv8>)
    requires Coherent(e, c) && Fields(e.lay)
    ensures Coherent(e, r.c)
  {
    var rd := SwitchThenRead(e, c, Addr(e, PageSel));
    var b2 := MemBankSet(e, rd.c, User);
    Res(b2.c, rd.st + b2.st, Get(rd.v[0], Fld(e, EmbFuncClkDis)))
  }

  /**
   * asm330lhb_emb_func_clk_dis_set changes no register, whatever `v`: every
   * write it issues is a bank switch, so PAGE_SEL keeps its value; when its
   * five transactions succeed it reports success in the user bank.
   */
  lemma ClkDisSetWritesNothing(e: Env, c: Chip, v: bv8)
    requires Ready(e, c) && Apart(e.lay, PageSel)
    ensures var r := ClkDisSet(e, c, v);
      && Extends(c, r.c) && SameExcept(e, c, r.c, {})
      && r.c.emb[Addr(e, PageSel)] == c.emb[Addr(e, PageSel)]
      && OnlyBankWrites(e, Delta(c, r.c))
      && (Succeed(e, |c.log|, 5) ==> r.st == 0 && r.c.bank == User)
  {
    var p := Addr(e, PageSel);
    var rd := SwitchThenRead(e, c, p);
    SwitchThenReadEffect(e, c, p);
    var b2 := MemBankSet(e, rd.c, User);
    MemBankSetLog(e, rd.c, User);
    MemBankSetSame(e, rd.c, User);
    SameTrans(e, c, rd.c, b2.c, {}, {});
    SwitchThenReadWrites(e, c, p);
    MemBankSetWritesFca(e, rd.c, User);
    DeltaSplit(c, rd.c, b2.c);
    OnlyBankWritesConcat(e, Delta(c, rd.c), Delta(rd.c, b2.c));
    if Succeed(e, |c.log|, 5) {
      var k := |c.log|;
      assert e.fail(k + 3) == 0 && e.fail(k + 4) == 0;
      MemBankSetOk(e, rd.c, User);
      MemBankSetBank(e, rd.c, User);
    }
  }

  /** Every write of `d` is to FUNC_CFG_ACCESS, that is, a bank switch. */
  predicate OnlyBankWrites(e: Env, d: seq<Txn>)
  {
    forall j :: 0 <= j < |d| && d[j].Wr? ==> d[j].reg == Fca(e)
  }

  lemma OnlyBankWritesConcat(e: Env, d1: seq<Txn>, d2: seq<Txn>)
    requires OnlyBankWrites(e, d1) && OnlyBankWrites(e, d2)
    ensures OnlyBankWrites(e, d1 + d2)
  {
    forall j | 0 <= j < |d1 + d2| && (d1 + d2)[j].Wr?
      ensures (d1 + d2)[j].reg == Fca(e)
    {
      if j >= |d1| {
        assert (d1 + d2)[j] == d2[j - |d1|];
      }
    }
  }

  /** The transactions of two steps in sequence. */
  lemma DeltaSplit(c0: Chip, c1: Chip, c2: Chip)
    requires Extends(c0, c1) && Extends(c1, c2)
    ensures Extends(c0, c2) && Delta(c0, c2) == Delta(c0, c1) + Delta(c1, c2)
  {
    assert c1.log == c0.log + Delta(c0, c1);
    assert c2.log == c1.log + Delta(c1, c2);
  }

  /** The switch and read issue only bank-switch writes. */
  lemma SwitchThenReadWrites(e: Env, c: Chip, a: RegAddr)
    requires Coherent(e, c)
    ensures var r := SwitchThenRead(e, c, a);
      Extends(c, r.c) && OnlyBankWrites(e, Delta(c, r.c))
  {
    var b1 := MemBankSet(e, c, Embedded);
    MemBankSetWritesFca(e, c, Embedded);
    MemBankSetLog(e, c, Embedded);
    if b1.st == 0 {
      var rd := ReadReg(e, b1.c, a, 1);
      DeltaSplit(c, b1.c, rd.c);
      assert Delta(b1.c, rd.c) == [Rd(b1.c.bank, a, 1, rd.st)];
      OnlyBankWritesConcat(e, Delta(c, b1.c), Delta(b1.c, rd.c));
    }
  }

  /**
   * asm330lhb_emb_func_clk_dis_set leaves the device, the log and the status
   * exactly as the getter does: the value passed has no effect.
   */
  lemma ClkDisSetIsGet(e: Env, c: Chip, v: bv8)
    requires Coherent(e, c) && Fields(e.lay)
    ensures ClkDisSet(e, c, v).c == ClkDisGet(e, c).c && ClkDisSet(e, c, v).st == ClkDisGet(e, c).st
  {
  }

  /**
   * asm330lhb_emb_func_clk_dis_get changes no register; when its first three
   * transactions succeed it returns emb_func_clk_dis, and when all five do
   * it reports success in the user bank.
   */
  lemma ClkDisGetEffect(e: Env, c: Chip)
    requires Ready(e, c) && Apart(e.lay, PageSel)
    ensures var r := ClkDisGet(e, c);
      && Extends(c, r.c) && SameExcept(e, c, r.c, {})
      && (Succeed(e, |c.log|, 3) ==> r.v == Get(c.emb[Addr(e, PageSel)], Fld(e, EmbFuncClkDis)))
      && (Succeed(e, |c.log|, 5) ==> r.st == 0 && r.c.bank == User)
  {
    var p := Addr(e, PageSel);
    var rd := SwitchThenRead(e, c, p);
    SwitchThenReadEffect(e, c, p);
    var b2 := MemBankSet(e, rd.c, User);
    MemBankSetLog(e, rd.c, User);
    MemBankSetSame(e, rd.c, User);
    SameTrans(e, c, rd.c, b2.c, {}, {});
    if Succeed(e, |c.log|, 5) {
      var k := |c.log|;
      assert e.fail(k + 3) == 0 && e.fail(k + 4) == 0;
      MemBankSetOk(e, rd.c, User);
      MemBankSetBank(e, rd.c, User);
    }
  }

  /**
   * The clock-disable setter as evidently intended: it writes the modified
   * PAGE_SEL back, with the status handling of asm330lhb_mlc_init_set.
   */
  function ClkDisSetFixed(e: Env, c: Chip, v: bv8): (r: Res<()>)
    requires Coherent(e, c) && Fields(e.lay)
    ensures Coherent(e, r.c)
  {
    var s := ClkDisWrite(e, c, v);
    var b2 := MemBankSet(e, s.c, User);
    Res(b2.c, s.st + b2.st, ())
  }

  /** The part of the corrected setter before the switch back. */
  function ClkDisWrite(e: Env, c: Chip, v: bv8): (r: Res<()>)
    requires Coherent(e, c) && Fields(e.lay)
    ensures Coherent(e, r.c)
  {
    var b1 := MemBankSet(e, c, Embedded);
    if b1.st != 0 then b1 else SetFields(e, b1.c, Addr(e, PageSel), [Update(Fld(e, EmbFuncClkDis), v)])
  }

  /**
   * The corrected setter changes only PAGE_SEL, and when its six
   * transactions and the getter's five succeed, the getter returns the
   * value set, truncated to the field.
   */
  lemma ClkDisSetFixedThenGet(e: Env, c: Chip, v: bv8)
    requires Ready(e, c) && Apart(e.lay, PageSel)
    ensures var r := ClkDisSetFixed(e, c, v);
      && Extends(c, r.c) && SameExcept(e, c, r.c, {(Embedded, Addr(e, PageSel))})
      && (Succeed(e, |c.log|, 11) ==>
            var g := ClkDisGet(e, r.c);
            r.st == 0 && g.st == 0 && g.v == Trunc(Fld(e, EmbFuncClkDis), v))
  {
    ClkDisSetFixedFrame(e, c, v);
    if Succeed(e, |c.log|, 11) {
      var p := Addr(e, PageSel);
      var u := [Update(Fld(e, EmbFuncClkDis), v)];
      var k := |c.log|;
      var r := ClkDisSetFixed(e, c, v);
      ClkDisSetFixedOk(e, c, v);
      OverlayGet(c.emb[p], u, 0);
      assert Succeed(e, |r.c.log|, 5) by {
        forall j | k + 6 <= j < k + 11 ensures e.fail(j) == 0 {
          assert k <= j < k + 11;
        }
      }
      ClkDisGetEffect(e, r.c);
    }
  }

  lemma ClkDisSetFixedFrame(e: Env, c: Chip, v: bv8)
    requires Ready(e, c) && Apart(e.lay, PageSel)
    ensures var r := ClkDisSetFixed(e, c, v);
      Extends(c, r.c) && SameExcept(e, c, r.c, {(Embedded, Addr(e, PageSel))})
  {
    var p := Addr(e, PageSel);
    var s := ClkDisWrite(e, c, v);
    ClkDisWriteFrame(e, c, v);
    var b2 := MemBankSet(e, s.c, User);
    MemBankSetLog(e, s.c, User);
    MemBankSetSame(e, s.c, User);
    SameTrans(e, c, s.c, b2.c, {(Embedded, p)}, {});
    assert {(Embedded, p)} + {} == {(Embedded, p)};
  }

  /** When its six transactions succeed, the corrected setter stores the field in PAGE_SEL. */
  lemma ClkDisSetFixedOk(e: Env, c: Chip, v: bv8)
    requires Ready(e, c) && Apart(e.lay, PageSel) && Succeed(e, |c.log|, 6)
    ensures var r := ClkDisSetFixed(e, c, v);
      && r.st == 0 && Ready(e, r.c) && |r.c.log| == |c.log| + 6
      && r.c.emb[Addr(e, PageSel)] == Overlay(c.emb[Addr(e, PageSel)], [Update(Fld(e, EmbFuncClkDis), v)])
  {
    var p := Addr(e, PageSel);
    var u := [Update(Fld(e, EmbFuncClkDis), v)];
    var k := |c.log|;
    assert e.fail(k) == 0 && e.fail(k + 1) == 0 && e.fail(k + 2) == 0 && e.fail(k + 3) == 0;
    assert e.fail(k + 4) == 0 && e.fail(k + 5) == 0;
    var b1 := MemBankSet(e, c, Embedded);
    MemBankSetOk(e, c, Embedded);
    MemBankSetBank(e, c, Embedded);
    SetFieldsOk(e, b1.c, p, u);
    SetFieldsEffect(e, b1.c, p, u);
    var s := SetFields(e, b1.c, p, u);
    MemBankSetOk(e, s.c, User);
    MemBankSetBank(e, s.c, User);
    MemBankSetSame(e, s.c, User);
  }

  lemma ClkDisWriteFrame(e: Env, c: Chip, v: bv8)
    requires Ready(e, c) && Apart(e.lay, PageSel)
    ensures var s := ClkDisWrite(e, c, v);
      Extends(c, s.c) && SameExcept(e, c, s.c, {(Embedded, Addr(e, PageSel))})
  {
    var p := Addr(e, PageSel);
    var u := [Update(Fld(e, EmbFuncClkDis), v)];
    var b1 := MemBankSet(e, c, Embedded);
    MemBankSetLog(e, c, Embedded);
    MemBankSetSame(e, c, Embedded);
    if b1.st == 0 {
      MemBankSetBank(e, c, Embedded);
      SetFieldsEffect(e, b1.c, p, u);
      SameTrans(e, c, b1.c, SetFields(e, b1.c, p, u).c, {}, {(Embedded, p)});
      assert {} + {(Embedded, p)} == {(Embedded, p)};
    } else {
      SameWiden(e, c, b1.c, {}, {(Embedded, p)});
    }
  }

  // ---------------------------------------------------------------------
  // FSM and MLC outputs

  /**
   * asm330lhb_fsm_status_get as written: it reads FSM_STATUS_A_MAINPAGE and
   * FSM_STATUS_B_MAINPAGE and returns the second read's status only.
   */
  function FsmStatusGet(e: Env, c: Chip): (r: Res<(bv8, bv8)>)
    requires Coherent(e, c)
    ensures Coherent(e, r.c)
  {
    var ra := ReadReg(e, c, Addr(e, FsmStatusAMainpage), 1);
    var rb := ReadReg(e, ra.c, Addr(e, FsmStatusBMainpage), 1);
    Res(rb.c, rb.st, (ra.v[0], rb.v[0]))
  }

  /**
   * asm330lhb_fsm_status_get issues both reads whatever the first returns,
   * changes nothing and reports the second read's status; when both succeed
   * it returns the two status bytes.
   */
  lemma FsmStatusGetEffect(e: Env, c: Chip)
    requires Ready(e, c)
    ensures var r := FsmStatusGet(e, c);
      var k := |c.log|;
      && r.c.user == c.user && r.c.emb == c.emb && r.c.bank == c.bank
      && Delta(c, r.c) == [Rd(User, Addr(e, FsmStatusAMainpage), 1, e.fail(k)), Rd(User, Addr(e, FsmStatusBMainpage), 1, e.fail(k + 1))]
      && r.st == e.fail(k + 1)
      && (e.fail(k) == 0 && r.st == 0 ==> r.v == (c.user[Addr(e, FsmStatusAMainpage)], c.user[Addr(e, FsmStatusBMainpage)]))
  {
    var ra := ReadReg(e, c, Addr(e, FsmStatusAMainpage), 1);
    assert ra.c.log == c.log + [Rd(User, Addr(e, FsmStatusAMainpage), 1, e.fail(|c.log|))];
  }

  /**
   * A failed first read is not reported: when it fails and the second
   * succeeds, asm330lhb_fsm_status_get returns success.
   */
  lemma FsmStatusGetMasksFailure(e: Env, c: Chip)
    requires Ready(e, c) && e.fail(|c.log|) != 0 && e.fail(|c.log| + 1) == 0
    ensures var r := FsmStatusGet(e, c);
      r.st == 0 && Delta(c, r.c)[0].st != 0
  {
    FsmStatusGetEffect(e, c);
  }

  /** asm330lhb_fsm_out_get: the 16 bytes from FSM_OUTS1 of the embedded bank. */
  function FsmOutGet(e: Env, c: Chip): (r: Res<seq<bv8>>)
    requires Coherent(e, c) && Fit(e.lay, FsmOuts1, 16)
    ensures Coherent(e, r.c)
  {
    EmbRead(e, c, Addr(e, FsmOuts1), 16)
  }

  /** asm330lhb_mlc_out_get: the 8 bytes from MLC0_SRC of the embedded bank. */
  function MlcOutGet(e: Env, c: Chip): (r: Res<seq<bv8>>)
    requires Coherent(e, c) && Fit(e.lay, Mlc0Src, 8)
    ensures Coherent(e, r.c)
  {
    EmbRead(e, c, Addr(e, Mlc0Src), 8)
  }

  /** asm330lhb_long_cnt_flag_data_ready_get: EMB_FUNC_STATUS.is_fsm_lc. */
  function LongCntFlagGet(e: Env, c: Chip): (r: Res<bv8>)
    requires Coherent(e, c) && Fields(e.lay)
    ensures Coherent(e, r.c)
  {
    EmbGetField(e, c, Addr(e, EmbFuncStatus), Fld(e, IsFsmLc), Raw)
  }

  /**
   * The output reads change no register; on success they return the bytes
   * of the embedded bank and the user bank is selected again.
   */
  lemma FsmOutGetEffect(e: Env, c: Chip)
    requires Ready(e, c) && Fit(e.lay, FsmOuts1, 16) && ApartN(e.lay, FsmOuts1, 16)
    ensures var r := FsmOutGet(e, c);
      var a := Addr(e, FsmOuts1);
      && Confined(e, c, r.c, r.st, {})
      && (r.st == 0 ==> r.c.bank == User && |r.v| == 16 && forall i :: 0 <= i < 16 ==> r.v[i] == c.emb[a + i])
  {
    EmbReadEffect(e, c, Addr(e, FsmOuts1), 16);
  }

  lemma MlcOutGetEffect(e: Env, c: Chip)
    requires Ready(e, c) && Fit(e.lay, Mlc0Src, 8) && ApartN(e.lay, Mlc0Src, 8)
    ensures var r := MlcOutGet(e, c);
      var a := Addr(e, Mlc0Src);
      && Confined(e, c, r.c, r.st, {})
      && (r.st == 0 ==> r.c.bank == User && |r.v| == 8 && forall i :: 0 <= i < 8 ==> r.v[i] == c.emb[a + i])
  {
    EmbReadEffect(e, c, Addr(e, Mlc0Src), 8);
  }

  lemma LongCntFlagGetEffect(e: Env, c: Chip)
    requires Ready(e, c) && Apart(e.lay, EmbFuncStatus)
    ensures var r := LongCntFlagGet(e, c);
      && Confined(e, c, r.c, r.st, {})
      && (r.st == 0 ==> r.c.bank == User && r.v == Get(c.emb[Addr(e, EmbFuncStatus)], Fld(e, IsFsmLc)))
  {
    EmbGetFieldEffect(e, c, Addr(e, EmbFuncStatus), Fld(e, IsFsmLc), Raw);
  }
}
