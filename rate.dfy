// The accelerometer and gyroscope data-rate setters and getters.
//
// Before it programs CTRL1_XL.odr_xl (or CTRL2_G.odr_g) the setter asks the
// embedded-functions bank whether any finite-state machine runs and at which
// rate, then whether the machine-learning core runs and at which rate; the
// request is raised to the rate of the engine whose check applied last (see
// Odr.XlArbitrate). A failed query ends the setter before it touches the
// output register, with one exception the code has: when the MLC enable has
// been read as 1 but the switch back to the user bank failed, the status of
// the MLC rate query replaces that failure.

module Rate {
  import opened Bits
  import opened Layout
  import opened Odr
  import opened Bus
  import opened Engines

  // ---------------------------------------------------------------------
  // The engines' floors, as the device state determines them

  /** The FSM floor: the configured FSM rate when any FSM is enabled. */
  function FsmFloor(e: Env, c: Chip): Option<EmbOdr>
    requires Coherent(e, c) && Fields(e.lay)
  {
    if FsmEnBit(e, c.emb[Addr(e, FsmEnableA)], c.emb[Addr(e, FsmEnableB)]) == 1
    then Some(EmbOdrOf(e.lay.fsmOdrCode, Get(c.emb[Addr(e, EmbFuncOdrCfgB)], Fld(e, FsmOdr))))
    else None
  }

  /** The MLC floor: the configured MLC rate when mlc_en reads 1. */
  function MlcFloor(e: Env, c: Chip): Option<EmbOdr>
    requires Coherent(e, c) && Fields(e.lay)
  {
    if Get(c.emb[Addr(e, EmbFuncEnB)], Fld(e, MlcEn)) == 1
    then Some(EmbOdrOf(e.lay.mlcOdrCode, Get(c.emb[Addr(e, EmbFuncOdrCfgC)], Fld(e, MlcOdr))))
    else None
  }

  /** The embedded-bank registers the queries read lie apart from FUNC_CFG_ACCESS. */
  predicate FloorsLayout(lay: Layout)
  {
    && Apart(lay, FsmEnableA) && Apart(lay, FsmEnableB) && Apart(lay, EmbFuncOdrCfgB)
    && Apart(lay, EmbFuncOdrCfgC) && Apart(lay, EmbFuncEnB)
  }

  /** Registers no write touched keep their floors. */
  lemma FloorsKept(e: Env, c0: Chip, c1: Chip)
    requires Coherent(e, c0) && Coherent(e, c1) && Fields(e.lay) && FloorsLayout(e.lay)
    requires SameExcept(e, c0, c1, {})
    ensures FsmFloor(e, c1) == FsmFloor(e, c0) && MlcFloor(e, c1) == MlcFloor(e, c0)
  {
    assert c1.emb[Addr(e, FsmEnableA)] == c0.emb[Addr(e, FsmEnableA)];
    assert c1.emb[Addr(e, FsmEnableB)] == c0.emb[Addr(e, FsmEnableB)];
    assert c1.emb[Addr(e, EmbFuncOdrCfgB)] == c0.emb[Addr(e, EmbFuncOdrCfgB)];
    assert c1.emb[Addr(e, EmbFuncOdrCfgC)] == c0.emb[Addr(e, EmbFuncOdrCfgC)];
    assert c1.emb[Addr(e, EmbFuncEnB)] == c0.emb[Addr(e, EmbFuncEnB)];
  }

  // ---------------------------------------------------------------------
  // The queries

  /**
   * The FSM check: asm330lhb_fsm_enable_get, then asm330lhb_fsm_data_rate_get
   * when an FSM is enabled.
   */
  function FsmQuery(e: Env, c: Chip): (r: Res<Option<EmbOdr>>)
    requires Coherent(e, c) && Fields(e.lay)
    ensures Coherent(e, r.c)
  {
    var fe := FsmEnableGet(e, c);
    if fe.st != 0 then Res(fe.c, fe.st, None)
    else if FsmEnBit(e, fe.v.0, fe.v.1) == 1 then
      var fr := FsmDataRateGet(e, fe.c);
      Res(fr.c, fr.st, Some(fr.v))
    else Res(fe.c, 0, None)
  }

  /**
   * The MLC check: asm330lhb_mlc_get, then asm330lhb_mlc_data_rate_get when
   * the enable read as 1; the second status replaces the first.
   */
  function MlcQuery(e: Env, c: Chip): (r: Res<Option<EmbOdr>>)
    requires Coherent(e, c) && Fields(e.lay)
    ensures Coherent(e, r.c)
  {
    var mg := MlcGet(e, c);
    if mg.v != 1 then Res(mg.c, mg.st, None)
    else
      var mr := MlcDataRateGet(e, mg.c);
      Res(mr.c, mr.st, Some(mr.v))
  }

  /** Both checks, the MLC one only after the FSM one succeeded. */
  function EngineFloors(e: Env, c: Chip): (r: Res<(Option<EmbOdr>, Option<EmbOdr>)>)
    requires Coherent(e, c) && Fields(e.lay)
    ensures Coherent(e, r.c)
  {
    var f := FsmQuery(e, c);
    if f.st != 0 then Res(f.c, f.st, (None, None))
    else
      var m := MlcQuery(e, f.c);
      Res(m.c, m.st, (f.v, m.v))
  }

  /** A getter of the embedded bank assigns a non-zero output only from a successful read. */
  lemma EmbGetFieldAssigned(e: Env, c: Chip, a: RegAddr, f: Field)
    requires Coherent(e, c) && WellFormed(f) && a != Fca(e)
    ensures var r := EmbGetField(e, c, a, f, Raw);
      r.v != 0 ==> r.v == Get(c.emb[a], f)
  {
    Enter(e, c, {});
  }

  /**
   * The FSM check changes no register; when it succeeds the user bank is
   * selected and it yields the FSM floor.
   */
  lemma FsmQueryEffect(e: Env, c: Chip)
    requires Ready(e, c) && FloorsLayout(e.lay)
    ensures var r := FsmQuery(e, c);
      && Extends(c, r.c) && SameExcept(e, c, r.c, {})
      && (r.st == 0 ==> r.c.bank == User && r.v == FsmFloor(e, c))
  {
    var fe := FsmEnableGet(e, c);
    FsmEnableGetEffect(e, c);
    if fe.st == 0 && FsmEnBit(e, fe.v.0, fe.v.1) == 1 {
      var a := Addr(e, EmbFuncOdrCfgB);
      EmbGetFieldEffect(e, fe.c, a, Fld(e, FsmOdr), Raw);
      var fr := FsmDataRateGet(e, fe.c);
      SameTrans(e, c, fe.c, fr.c, {}, {});
      assert fe.c.emb[a] == c.emb[a];
    }
  }

  /**
   * The MLC check changes no register; when it succeeds the user bank is
   * selected and it yields the MLC floor, even when the enable query itself
   * failed in its switch back.
   */
  lemma MlcQueryEffect(e: Env, c: Chip)
    requires Coherent(e, c) && Fields(e.lay) && FloorsLayout(e.lay)
    ensures var r := MlcQuery(e, c);
      && Extends(c, r.c) && SameExcept(e, c, r.c, {})
      && (r.st == 0 ==> r.c.bank == User && r.v == MlcFloor(e, c))
  {
    var en := Addr(e, EmbFuncEnB);
    var mg := MlcGet(e, c);
    EmbGetFieldEffect(e, c, en, Fld(e, MlcEn), Raw);
    EmbGetFieldAssigned(e, c, en, Fld(e, MlcEn));
    if mg.v == 1 {
      var a := Addr(e, EmbFuncOdrCfgC);
      EmbGetFieldEffect(e, mg.c, a, Fld(e, MlcOdr), Raw);
      var mr := MlcDataRateGet(e, mg.c);
      SameTrans(e, c, mg.c, mr.c, {}, {});
      assert mg.c.emb[a] == c.emb[a];
    }
  }

  /**
   * Both checks change no register; when they succeed the user bank is
   * selected and they yield the two floors.
   */
  lemma EngineFloorsEffect(e: Env, c: Chip)
    requires Ready(e, c) && FloorsLayout(e.lay)
    ensures var r := EngineFloors(e, c);
      && Extends(c, r.c) && SameExcept(e, c, r.c, {})
      && (r.st == 0 ==> r.c.bank == User && r.v == (FsmFloor(e, c), MlcFloor(e, c)))
  {
    var f := FsmQuery(e, c);
    FsmQueryEffect(e, c);
    if f.st == 0 {
      MlcQueryEffect(e, f.c);
      SameTrans(e, c, f.c, MlcQuery(e, f.c).c, {}, {});
      FloorsKept(e, c, f.c);
    }
  }

  // ---------------------------------------------------------------------
  // The queries address no user-bank register but FUNC_CFG_ACCESS

  /** Every transaction of `d` in the user bank is to FUNC_CFG_ACCESS. */
  predicate UserOnlyFca(e: Env, d: seq<Txn>)
  {
    forall j :: 0 <= j < |d| && d[j].bank == User ==> d[j].reg == Fca(e)
  }

  lemma UserOnlyFcaConcat(e: Env, d1: seq<Txn>, d2: seq<Txn>)
    requires UserOnlyFca(e, d1) && UserOnlyFca(e, d2)
    ensures UserOnlyFca(e, d1 + d2)
  {
    forall j | 0 <= j < |d1 + d2| && (d1 + d2)[j].bank == User
      ensures (d1 + d2)[j].reg == Fca(e)
    {
      if j >= |d1| {
        assert (d1 + d2)[j] == d2[j - |d1|];
      }
    }
  }

  lemma MemBankSetUserOnlyFca(e: Env, c: Chip, b: Bank)
    requires Coherent(e, c)
    ensures var r := MemBankSet(e, c, b);
      Extends(c, r.c) && UserOnlyFca(e, Delta(c, r.c))
  {
    MemBankSetLog(e, c, b);
    MemBankSetWritesFca(e, c, b);
  }

  /** The step after a successful switch to the embedded bank, as a log extension. */
  lemma EmbeddedStep(e: Env, c: Chip, c1: Chip, c2: Chip)
    requires Coherent(e, c) && MemBankSet(e, c, Embedded).st == 0 && c1 == MemBankSet(e, c, Embedded).c
    requires Extends(c1, c2) && forall j :: 0 <= j < |Delta(c1, c2)| ==> Delta(c1, c2)[j].bank == Embedded
    ensures Extends(c, c2) && UserOnlyFca(e, Delta(c, c2))
  {
    MemBankSetUserOnlyFca(e, c, Embedded);
    DeltaSplit(c, c1, c2);
    UserOnlyFcaConcat(e, Delta(c, c1), Delta(c1, c2));
  }

  /** A getter of the embedded bank addresses the user bank only through its switches. */
  lemma EmbGetFieldUserOnlyFca(e: Env, c: Chip, a: RegAddr, f: Field, d: Decoder)
    requires Coherent(e, c) && WellFormed(f)
    ensures var r := EmbGetField(e, c, a, f, d);
      Extends(c, r.c) && UserOnlyFca(e, Delta(c, r.c))
  {
    var b1 := MemBankSet(e, c, Embedded);
    MemBankSetUserOnlyFca(e, c, Embedded);
    MemBankSetBank(e, c, Embedded);
    if b1.st == 0 {
      var g := GetField(e, b1.c, a, f, d);
      assert Delta(b1.c, g.c) == [Rd(Embedded, a, 1, g.st)];
      EmbeddedStep(e, c, b1.c, g.c);
      if g.st == 0 {
        var b2 := MemBankSet(e, g.c, User);
        MemBankSetUserOnlyFca(e, g.c, User);
        DeltaSplit(c, g.c, b2.c);
        UserOnlyFcaConcat(e, Delta(c, g.c), Delta(g.c, b2.c));
      }
    }
  }

  /** asm330lhb_fsm_enable_get addresses the user bank only through its switches. */
  lemma FsmEnableGetUserOnlyFca(e: Env, c: Chip)
    requires Coherent(e, c)
    ensures var r := FsmEnableGet(e, c);
      Extends(c, r.c) && UserOnlyFca(e, Delta(c, r.c))
  {
    var b1 := MemBankSet(e, c, Embedded);
    MemBankSetUserOnlyFca(e, c, Embedded);
    MemBankSetBank(e, c, Embedded);
    if b1.st == 0 {
      var ra := ReadReg(e, b1.c, Addr(e, FsmEnableA), 1);
      var rd := ReadTwo(e, b1.c, Addr(e, FsmEnableA), Addr(e, FsmEnableB));
      if ra.st == 0 {
        var rb := ReadReg(e, ra.c, Addr(e, FsmEnableB), 1);
        assert Delta(b1.c, rd.c) == [Rd(Embedded, Addr(e, FsmEnableA), 1, 0), Rd(Embedded, Addr(e, FsmEnableB), 1, rb.st)];
      } else {
        assert Delta(b1.c, rd.c) == [Rd(Embedded, Addr(e, FsmEnableA), 1, ra.st)];
      }
      EmbeddedStep(e, c, b1.c, rd.c);
      if rd.st == 0 {
        var b2 := MemBankSet(e, rd.c, User);
        MemBankSetUserOnlyFca(e, rd.c, User);
        DeltaSplit(c, rd.c, b2.c);
        UserOnlyFcaConcat(e, Delta(c, rd.c), Delta(rd.c, b2.c));
      }
    }
  }

  /** Both checks address the user bank only through the bank switches. */
  lemma EngineFloorsUserOnlyFca(e: Env, c: Chip)
    requires Coherent(e, c) && Fields(e.lay)
    ensures var r := EngineFloors(e, c);
      Extends(c, r.c) && UserOnlyFca(e, Delta(c, r.c))
  {
    var fe := FsmEnableGet(e, c);
    FsmEnableGetUserOnlyFca(e, c);
    var f := FsmQuery(e, c);
    if fe.st == 0 && FsmEnBit(e, fe.v.0, fe.v.1) == 1 {
      EmbGetFieldUserOnlyFca(e, fe.c, Addr(e, EmbFuncOdrCfgB), Fld(e, FsmOdr), Raw);
      DeltaSplit(c, fe.c, f.c);
      UserOnlyFcaConcat(e, Delta(c, fe.c), Delta(fe.c, f.c));
    }
    if f.st == 0 {
      var mg := MlcGet(e, f.c);
      EmbGetFieldUserOnlyFca(e, f.c, Addr(e, EmbFuncEnB), Fld(e, MlcEn), Raw);
      DeltaSplit(c, f.c, mg.c);
      UserOnlyFcaConcat(e, Delta(c, f.c), Delta(f.c, mg.c));
      if mg.v == 1 {
        var mr := MlcDataRateGet(e, mg.c);
        EmbGetFieldUserOnlyFca(e, mg.c, Addr(e, EmbFuncOdrCfgC), Fld(e, MlcOdr), Raw);
        DeltaSplit(c, mg.c, mr.c);
        UserOnlyFcaConcat(e, Delta(c, mg.c), Delta(mg.c, mr.c));
      }
    }
  }

  // ---------------------------------------------------------------------
  // asm330lhb_xl_data_rate_set/get and asm330lhb_gy_data_rate_set/get

  /** asm330lhb_xl_data_rate_set: the checks, then the rate they arbitrate. */
  function XlDataRateSet(e: Env, c: Chip, val: XlOdr): (r: Res<()>)
    requires Coherent(e, c) && Fields(e.lay)
    ensures Coherent(e, r.c)
  {
    XlProgram(e, EngineFloors(e, c), val)
  }

  /** The end of asm330lhb_xl_data_rate_set, after the checks `q`. */
  function XlProgram(e: Env, q: Res<(Option<EmbOdr>, Option<EmbOdr>)>, val: XlOdr): (r: Res<()>)
    requires Coherent(e, q.c) && Fields(e.lay)
    ensures Coherent(e, r.c)
  {
    if q.st != 0 then Res(q.c, q.st, ())
    else SetFields(e, q.c, Addr(e, Ctrl1Xl), [Update(Fld(e, OdrXl), e.lay.xlOdrCode(XlArbitrate(val, q.v.0, q.v.1)))])
  }

  /** asm330lhb_gy_data_rate_set. */
  function GyDataRateSet(e: Env, c: Chip, val: GyOdr): (r: Res<()>)
    requires Coherent(e, c) && Fields(e.lay)
    ensures Coherent(e, r.c)
  {
    GyProgram(e, EngineFloors(e, c), val)
  }

  function GyProgram(e: Env, q: Res<(Option<EmbOdr>, Option<EmbOdr>)>, val: GyOdr): (r: Res<()>)
    requires Coherent(e, q.c) && Fields(e.lay)
    ensures Coherent(e, r.c)
  {
    if q.st != 0 then Res(q.c, q.st, ())
    else SetFields(e, q.c, Addr(e, Ctrl2G), [Update(Fld(e, OdrG), e.lay.gyOdrCode(GyArbitrate(val, q.v.0, q.v.1)))])
  }

  /** The switch of asm330lhb_xl_data_rate_get: unknown codes read as XL_ODR_OFF. */
  function XlOdrOf(code: XlOdr -> bv8, raw: bv8): (r: XlOdr)
    ensures r == XlOff || raw == code(r)
    ensures (forall o :: raw != code(o)) ==> r == XlOff
  {
    if raw == code(XlOff) then XlOff
    else if raw == code(Xl12Hz5) then Xl12Hz5
    else if raw == code(Xl26Hz) then Xl26Hz
    else if raw == code(Xl52Hz) then Xl52Hz
    else if raw == code(Xl104Hz) then Xl104Hz
    else if raw == code(Xl208Hz) then Xl208Hz
    else if raw == code(Xl417Hz) then Xl417Hz
    else if raw == code(Xl833Hz) then Xl833Hz
    else if raw == code(Xl1667Hz) then Xl1667Hz
    else if raw == code(Xl1Hz6) then Xl1Hz6
    else XlOff
  }

  /** The switch of asm330lhb_gy_data_rate_get: unknown codes read as GY_ODR_OFF. */
  function GyOdrOf(code: GyOdr -> bv8, raw: bv8): (r: GyOdr)
    ensures r == GyOff || raw == code(r)
    ensures (forall o :: raw != code(o)) ==> r == GyOff
  {
    if raw == code(GyOff) then GyOff
    else if raw == code(Gy12Hz5) then Gy12Hz5
    else if raw == code(Gy26Hz) then Gy26Hz
    else if raw == code(Gy52Hz) then Gy52Hz
    else if raw == code(Gy104Hz) then Gy104Hz
    else if raw == code(Gy208Hz) then Gy208Hz
    else if raw == code(Gy417Hz) then Gy417Hz
    else if raw == code(Gy833Hz) then Gy833Hz
    else if raw == code(Gy1667Hz) then Gy1667Hz
    else GyOff
  }

  /** asm330lhb_xl_data_rate_get. */
  function XlDataRateGet(e: Env, c: Chip): (r: Res<XlOdr>)
    requires Coherent(e, c) && Fields(e.lay)
    ensures Coherent(e, r.c)
  {
    var rd := ReadReg(e, c, Addr(e, Ctrl1Xl), 1);
    Res(rd.c, rd.st, XlOdrOf(e.lay.xlOdrCode, Get(rd.v[0], Fld(e, OdrXl))))
  }

  /** asm330lhb_gy_data_rate_get. */
  function GyDataRateGet(e: Env, c: Chip): (r: Res<GyOdr>)
    requires Coherent(e, c) && Fields(e.lay)
    ensures Coherent(e, r.c)
  {
    var rd := ReadReg(e, c, Addr(e, Ctrl2G), 1);
    Res(rd.c, rd.st, GyOdrOf(e.lay.gyOdrCode, Get(rd.v[0], Fld(e, OdrG))))
  }

  /** The rate codes fit their field and are pairwise distinct. */
  predicate XlCodes(lay: Layout)
    requires Fields(lay)
  {
    && (forall o :: Fits(lay.field(OdrXl), lay.xlOdrCode(o)))
    && (forall o1, o2 :: o1 != o2 ==> lay.xlOdrCode(o1) != lay.xlOdrCode(o2))
  }

  predicate GyCodes(lay: Layout)
    requires Fields(lay)
  {
    && (forall o :: Fits(lay.field(OdrG), lay.gyOdrCode(o)))
    && (forall o1, o2 :: o1 != o2 ==> lay.gyOdrCode(o1) != lay.gyOdrCode(o2))
  }

  /** With distinct codes the getter's switch inverts the code table. */
  lemma XlOdrOfCode(code: XlOdr -> bv8, o: XlOdr)
    requires forall o1, o2 :: o1 != o2 ==> code(o1) != code(o2)
    ensures XlOdrOf(code, code(o)) == o
  {
    assert code(o) != code(XlOff) || o == XlOff;
    assert code(o) != code(Xl12Hz5) || o == Xl12Hz5;
    assert code(o) != code(Xl26Hz) || o == Xl26Hz;
    assert code(o) != code(Xl52Hz) || o == Xl52Hz;
    assert code(o) != code(Xl104Hz) || o == Xl104Hz;
    assert code(o) != code(Xl208Hz) || o == Xl208Hz;
    assert code(o) != code(Xl417Hz) || o == Xl417Hz;
    assert code(o) != code(Xl833Hz) || o == Xl833Hz;
    assert code(o) != code(Xl1667Hz) || o == Xl1667Hz;
  }

  lemma GyOdrOfCode(code: GyOdr -> bv8, o: GyOdr)
    requires forall o1, o2 :: o1 != o2 ==> code(o1) != code(o2)
    ensures GyOdrOf(code, code(o)) == o
  {
    assert code(o) != code(GyOff) || o == GyOff;
    assert code(o) != code(Gy12Hz5) || o == Gy12Hz5;
    assert code(o) != code(Gy26Hz) || o == Gy26Hz;
    assert code(o) != code(Gy52Hz) || o == Gy52Hz;
    assert code(o) != code(Gy104Hz) || o == Gy104Hz;
    assert code(o) != code(Gy208Hz) || o == Gy208Hz;
    assert code(o) != code(Gy417Hz) || o == Gy417Hz;
    assert code(o) != code(Gy833Hz) || o == Gy833Hz;
  }

  /**
   * The end of the setter changes only the rate register; on success it
   * holds the arbitrated rate in the rate field over its previous contents.
   */
  lemma XlProgramEffect(e: Env, q: Res<(Option<EmbOdr>, Option<EmbOdr>)>, val: XlOdr)
    requires Coherent(e, q.c) && Fields(e.lay) && Apart(e.lay, Ctrl1Xl)
    ensures var r := XlProgram(e, q, val);
      var a := Addr(e, Ctrl1Xl);
      var code := e.lay.xlOdrCode(XlArbitrate(val, q.v.0, q.v.1));
      && Extends(q.c, r.c) && SameExcept(e, q.c, r.c, {(q.c.bank, a)}) && r.c.bank == q.c.bank
      && (q.st != 0 ==> r == Res(q.c, q.st, ()))
      && (r.st == 0 ==> File(r.c, q.c.bank)[a] == Overlay(File(q.c, q.c.bank)[a], [Update(Fld(e, OdrXl), code)]))
  {
    if q.st == 0 {
      SetFieldsEffect(e, q.c, Addr(e, Ctrl1Xl), [Update(Fld(e, OdrXl), e.lay.xlOdrCode(XlArbitrate(val, q.v.0, q.v.1)))]);
    } else {
      SameWiden(e, q.c, q.c, {}, {(q.c.bank, Addr(e, Ctrl1Xl))});
    }
  }

  lemma GyProgramEffect(e: Env, q: Res<(Option<EmbOdr>, Option<EmbOdr>)>, val: GyOdr)
    requires Coherent(e, q.c) && Fields(e.lay) && Apart(e.lay, Ctrl2G)
    ensures var r := GyProgram(e, q, val);
      var a := Addr(e, Ctrl2G);
      var code := e.lay.gyOdrCode(GyArbitrate(val, q.v.0, q.v.1));
      && Extends(q.c, r.c) && SameExcept(e, q.c, r.c, {(q.c.bank, a)}) && r.c.bank == q.c.bank
      && (q.st != 0 ==> r == Res(q.c, q.st, ()))
      && (r.st == 0 ==> File(r.c, q.c.bank)[a] == Overlay(File(q.c, q.c.bank)[a], [Update(Fld(e, OdrG), code)]))
  {
    if q.st == 0 {
      SetFieldsEffect(e, q.c, Addr(e, Ctrl2G), [Update(Fld(e, OdrG), e.lay.gyOdrCode(GyArbitrate(val, q.v.0, q.v.1)))]);
    } else {
      SameWiden(e, q.c, q.c, {}, {(q.c.bank, Addr(e, Ctrl2G))});
    }
  }

  /**
   * asm330lhb_xl_data_rate_set changes only CTRL1_XL; on success it holds
   * the arbitrated rate in odr_xl over its previous contents.
   */
  lemma XlDataRateSetEffect(e: Env, c: Chip, val: XlOdr)
    requires Ready(e, c) && FloorsLayout(e.lay) && Apart(e.lay, Ctrl1Xl)
    ensures var r := XlDataRateSet(e, c, val);
      var a := Addr(e, Ctrl1Xl);
      var code := e.lay.xlOdrCode(XlArbitrate(val, FsmFloor(e, c), MlcFloor(e, c)));
      && Extends(c, r.c) && SameExcept(e, c, r.c, {(User, a)})
      && (r.st == 0 ==> r.c.bank == User && r.c.user[a] == Overlay(c.user[a], [Update(Fld(e, OdrXl), code)]))
  {
    var q := EngineFloors(e, c);
    EngineFloorsEffect(e, c);
    XlProgramEffect(e, q, val);
    ProgramFrame(e, c, q.c, XlProgram(e, q, val).c, q.st, Addr(e, Ctrl1Xl));
  }

  lemma GyDataRateSetEffect(e: Env, c: Chip, val: GyOdr)
    requires Ready(e, c) && FloorsLayout(e.lay) && Apart(e.lay, Ctrl2G)
    ensures var r := GyDataRateSet(e, c, val);
      var a := Addr(e, Ctrl2G);
      var code := e.lay.gyOdrCode(GyArbitrate(val, FsmFloor(e, c), MlcFloor(e, c)));
      && Extends(c, r.c) && SameExcept(e, c, r.c, {(User, a)})
      && (r.st == 0 ==> r.c.bank == User && r.c.user[a] == Overlay(c.user[a], [Update(Fld(e, OdrG), code)]))
  {
    var q := EngineFloors(e, c);
    EngineFloorsEffect(e, c);
    GyProgramEffect(e, q, val);
    ProgramFrame(e, c, q.c, GyProgram(e, q, val).c, q.st, Addr(e, Ctrl2G));
  }

  /** The checks changed nothing, then the setter's end changed only its register. */
  lemma ProgramFrame(e: Env, c: Chip, c1: Chip, c2: Chip, st: int, a: RegAddr)
    requires Coherent(e, c) && Coherent(e, c1) && Coherent(e, c2)
    requires Extends(c, c1) && SameExcept(e, c, c1, {}) && (st == 0 ==> c1.bank == User)
    requires Extends(c1, c2) && (st == 0 ==> SameExcept(e, c1, c2, {(User, a)})) && (st != 0 ==> c2 == c1)
    ensures Extends(c, c2) && SameExcept(e, c, c2, {(User, a)})
  {
    if st == 0 {
      SameTrans(e, c, c1, c2, {}, {(User, a)});
      assert {} + {(User, a)} == {(User, a)};
    } else {
      SameWiden(e, c, c2, {}, {(User, a)});
    }
  }

  /**
   * When a query fails, asm330lhb_xl_data_rate_set returns its status and
   * neither reads nor writes CTRL1_XL: in the user bank it addressed only
   * FUNC_CFG_ACCESS.
   */
  lemma XlDataRateSetQueryFails(e: Env, c: Chip, val: XlOdr)
    requires Coherent(e, c) && Fields(e.lay) && EngineFloors(e, c).st != 0
    ensures var r := XlDataRateSet(e, c, val);
      r.st == EngineFloors(e, c).st && Extends(c, r.c) && UserOnlyFca(e, Delta(c, r.c))
  {
    EngineFloorsUserOnlyFca(e, c);
  }

  lemma GyDataRateSetQueryFails(e: Env, c: Chip, val: GyOdr)
    requires Coherent(e, c) && Fields(e.lay) && EngineFloors(e, c).st != 0
    ensures var r := GyDataRateSet(e, c, val);
      r.st == EngineFloors(e, c).st && Extends(c, r.c) && UserOnlyFca(e, Delta(c, r.c))
  {
    EngineFloorsUserOnlyFca(e, c);
  }

  /** After a successful end of the setter, the getter decodes the rate it programmed. */
  lemma XlProgramThenGet(e: Env, q: Res<(Option<EmbOdr>, Option<EmbOdr>)>, val: XlOdr)
    requires Coherent(e, q.c) && Fields(e.lay) && Apart(e.lay, Ctrl1Xl) && XlCodes(e.lay)
    ensures var r := XlProgram(e, q, val);
      r.st == 0 ==> XlDataRateGet(e, r.c).v == XlArbitrate(val, q.v.0, q.v.1)
  {
    var r := XlProgram(e, q, val);
    XlProgramEffect(e, q, val);
    if r.st == 0 {
      var o := XlArbitrate(val, q.v.0, q.v.1);
      var code := e.lay.xlOdrCode(o);
      assert Fits(Fld(e, OdrXl), code);
      OverlayGet(File(q.c, q.c.bank)[Addr(e, Ctrl1Xl)], [Update(Fld(e, OdrXl), code)], 0);
      XlOdrOfCode(e.lay.xlOdrCode, o);
    }
  }

  lemma GyProgramThenGet(e: Env, q: Res<(Option<EmbOdr>, Option<EmbOdr>)>, val: GyOdr)
    requires Coherent(e, q.c) && Fields(e.lay) && Apart(e.lay, Ctrl2G) && GyCodes(e.lay)
    ensures var r := GyProgram(e, q, val);
      r.st == 0 ==> GyDataRateGet(e, r.c).v == GyArbitrate(val, q.v.0, q.v.1)
  {
    var r := GyProgram(e, q, val);
    GyProgramEffect(e, q, val);
    if r.st == 0 {
      var o := GyArbitrate(val, q.v.0, q.v.1);
      var code := e.lay.gyOdrCode(o);
      assert Fits(Fld(e, OdrG), code);
      OverlayGet(File(q.c, q.c.bank)[Addr(e, Ctrl2G)], [Update(Fld(e, OdrG), code)], 0);
      GyOdrOfCode(e.lay.gyOdrCode, o);
    }
  }

  /**
   * The accelerometer rate round trip: after a successful set, the get
   * returns the arbitrated rate, so the request itself when no engine runs.
   */
  lemma XlDataRateRoundTrip(e: Env, c: Chip, val: XlOdr)
    requires Ready(e, c) && FloorsLayout(e.lay) && Apart(e.lay, Ctrl1Xl) && XlCodes(e.lay)
    ensures var s := XlDataRateSet(e, c, val);
      var o := XlArbitrate(val, FsmFloor(e, c), MlcFloor(e, c));
      && (s.st == 0 && XlDataRateGet(e, s.c).st == 0 ==> XlDataRateGet(e, s.c).v == o)
      && (FsmFloor(e, c).None? && MlcFloor(e, c).None? ==> o == val)
  {
    var q := EngineFloors(e, c);
    EngineFloorsEffect(e, c);
    XlProgramThenGet(e, q, val);
  }

  lemma GyDataRateRoundTrip(e: Env, c: Chip, val: GyOdr)
    requires Ready(e, c) && FloorsLayout(e.lay) && Apart(e.lay, Ctrl2G) && GyCodes(e.lay)
    ensures var s := GyDataRateSet(e, c, val);
      var o := GyArbitrate(val, FsmFloor(e, c), MlcFloor(e, c));
      && (s.st == 0 && GyDataRateGet(e, s.c).st == 0 ==> GyDataRateGet(e, s.c).v == o)
      && (FsmFloor(e, c).None? && MlcFloor(e, c).None? ==> o == val)
  {
    var q := EngineFloors(e, c);
    EngineFloorsEffect(e, c);
    GyProgramThenGet(e, q, val);
  }

  /** A getter of the embedded bank whose five transactions succeed reports success. */
  lemma EmbGetFieldOk(e: Env, c: Chip, a: RegAddr, f: Field, d: Decoder)
    requires Coherent(e, c) && WellFormed(f) && Succeed(e, |c.log|, 5)
    ensures var r := EmbGetField(e, c, a, f, d);
      r.st == 0 && Extends(c, r.c)
  {
    var k := |c.log|;
    assert e.fail(k) == 0 && e.fail(k + 1) == 0 && e.fail(k + 2) == 0 && e.fail(k + 3) == 0 && e.fail(k + 4) == 0;
    var b1 := MemBankSet(e, c, Embedded);
    MemBankSetOk(e, c, Embedded);
    var g := GetField(e, b1.c, a, f, d);
    MemBankSetOk(e, g.c, User);
  }

  /**
   * asm330lhb_mlc_get with mlc_en set, whose switch back fails in its write:
   * the enable is assigned 1 and the fifth transaction failed.
   */
  lemma MlcGetRestoreFails(e: Env, c: Chip)
    requires Coherent(e, c) && Fields(e.lay) && Apart(e.lay, EmbFuncEnB)
    requires Get(c.emb[Addr(e, EmbFuncEnB)], Fld(e, MlcEn)) == 1
    requires Succeed(e, |c.log|, 4) && e.fail(|c.log| + 4) != 0
    ensures var mg := MlcGet(e, c);
      && mg.v == 1 && mg.st != 0 && Extends(c, mg.c) && |mg.c.log| == |c.log| + 5
      && mg.c.log[|c.log| + 4].st != 0
  {
    var k := |c.log|;
    assert e.fail(k) == 0 && e.fail(k + 1) == 0 && e.fail(k + 2) == 0 && e.fail(k + 3) == 0;
    var en := Addr(e, EmbFuncEnB);
    var b1 := MemBankSet(e, c, Embedded);
    MemBankSetOk(e, c, Embedded);
    Enter(e, c, {});
    var g := GetField(e, b1.c, en, Fld(e, MlcEn), Raw);
    MemBankSetWriteFails(e, g.c, User);
  }

  /** A bank switch whose read succeeds and whose write fails. */
  lemma MemBankSetWriteFails(e: Env, c: Chip, b: Bank)
    requires Coherent(e, c) && e.fail(|c.log|) == 0 && e.fail(|c.log| + 1) != 0
    ensures var r := MemBankSet(e, c, b);
      r.st != 0 && Extends(c, r.c) && |r.c.log| == |c.log| + 2 && r.c.log[|c.log| + 1].st != 0
  {
  }

  /**
   * The masked failure: when mlc_en reads 1 but asm330lhb_mlc_get's switch
   * back fails, and the MLC rate query that follows succeeds, the MLC check
   * reports success though its fifth transaction failed.
   */
  lemma MlcQueryMasksFailure(e: Env, c: Chip)
    requires Coherent(e, c) && Fields(e.lay) && Apart(e.lay, EmbFuncEnB)
    requires Get(c.emb[Addr(e, EmbFuncEnB)], Fld(e, MlcEn)) == 1
    requires Succeed(e, |c.log|, 4) && e.fail(|c.log| + 4) != 0 && Succeed(e, |c.log| + 5, 5)
    ensures var r := MlcQuery(e, c);
      r.st == 0 && |r.c.log| > |c.log| + 4 && r.c.log[|c.log| + 4].st != 0
  {
    var mg := MlcGet(e, c);
    MlcGetRestoreFails(e, c);
    EmbGetFieldOk(e, mg.c, Addr(e, EmbFuncOdrCfgC), Fld(e, MlcOdr), Raw);
    var mr := MlcDataRateGet(e, mg.c);
    assert mg.c.log <= mr.c.log;
  }
}
