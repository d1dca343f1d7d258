// Output data rates and their arbitration against the embedded engines.
//
// Before the driver programs the accelerometer or gyroscope output data rate
// it asks whether the finite-state machine (FSM) or the machine-learning core
// (MLC) runs; each of them needs the sensor to run at least at its own rate.
// A requested rate below that floor is raised to it. The arbitration below is
// the driver's: each check starts from the caller's request, so the MLC
// adjustment replaces the FSM one instead of combining with it, and the
// 1.6 Hz low-power rate is never raised.

module Odr {

  /** An engine's rate when it runs and its rate was read. */
  datatype Option<T> = None | Some(value: T)

  /** Accelerometer output data rates (asm330lhb_odr_xl_t). */
  datatype XlOdr = XlOff | Xl12Hz5 | Xl26Hz | Xl52Hz | Xl104Hz | Xl208Hz | Xl417Hz | Xl833Hz | Xl1667Hz | Xl1Hz6

  /** Gyroscope output data rates (asm330lhb_odr_g_t). */
  datatype GyOdr = GyOff | Gy12Hz5 | Gy26Hz | Gy52Hz | Gy104Hz | Gy208Hz | Gy417Hz | Gy833Hz | Gy1667Hz

  /** Rates of the FSM (asm330lhb_fsm_odr_t) and of the MLC (asm330lhb_mlc_odr_t). */
  datatype EmbOdr = Emb12Hz5 | Emb26Hz | Emb52Hz | Emb104Hz

  /** The rate in tenths of a hertz, for comparisons. */
  function XlDeciHz(o: XlOdr): nat
  {
    match o
    case XlOff => 0
    case Xl12Hz5 => 125
    case Xl26Hz => 260
    case Xl52Hz => 520
    case Xl104Hz => 1040
    case Xl208Hz => 2080
    case Xl417Hz => 4170
    case Xl833Hz => 8330
    case Xl1667Hz => 16670
    case Xl1Hz6 => 16
  }

  function GyDeciHz(o: GyOdr): nat
  {
    match o
    case GyOff => 0
    case Gy12Hz5 => 125
    case Gy26Hz => 260
    case Gy52Hz => 520
    case Gy104Hz => 1040
    case Gy208Hz => 2080
    case Gy417Hz => 4170
    case Gy833Hz => 8330
    case Gy1667Hz => 16670
  }

  function EmbDeciHz(f: EmbOdr): nat
  {
    match f
    case Emb12Hz5 => 125
    case Emb26Hz => 260
    case Emb52Hz => 520
    case Emb104Hz => 1040
  }

  function Max(a: nat, b: nat): nat
  {
    if a >= b then a else b
  }

  /**
   * One check of asm330lhb_xl_data_rate_set: the request raised to the
   * engine's rate when it is slower, 1.6 Hz excepted.
   */
  function XlRaise(val: XlOdr, floor: EmbOdr): (r: XlOdr)
    ensures r == val <==> (val == Xl1Hz6 || XlDeciHz(val) >= EmbDeciHz(floor))
    ensures val != Xl1Hz6 ==> XlDeciHz(r) == Max(XlDeciHz(val), EmbDeciHz(floor))
    ensures r != val ==> r != Xl1Hz6
  {
    match floor
    case Emb12Hz5 => if val == XlOff then Xl12Hz5 else val
    case Emb26Hz => if val == XlOff || val == Xl12Hz5 then Xl26Hz else val
    case Emb52Hz => if val == XlOff || val == Xl12Hz5 || val == Xl26Hz then Xl52Hz else val
    case Emb104Hz =>
      if val == XlOff || val == Xl12Hz5 || val == Xl26Hz || val == Xl52Hz then Xl104Hz else val
  }

  /** The same check in asm330lhb_gy_data_rate_set. */
  function GyRaise(val: GyOdr, floor: EmbOdr): (r: GyOdr)
    ensures r == val <==> GyDeciHz(val) >= EmbDeciHz(floor)
    ensures GyDeciHz(r) == Max(GyDeciHz(val), EmbDeciHz(floor))
  {
    match floor
    case Emb12Hz5 => if val == GyOff then Gy12Hz5 else val
    case Emb26Hz => if val == GyOff || val == Gy12Hz5 then Gy26Hz else val
    case Emb52Hz => if val == GyOff || val == Gy12Hz5 || val == Gy26Hz then Gy52Hz else val
    case Emb104Hz =>
      if val == GyOff || val == Gy12Hz5 || val == Gy26Hz || val == Gy52Hz then Gy104Hz else val
  }

  /**
   * The rate asm330lhb_xl_data_rate_set programs: `fsm` and `mlc` are the
   * rates of the engines that run and whose rate was read (None otherwise).
   * The MLC check, when it applies, starts again from the request.
   */
  function XlArbitrate(val: XlOdr, fsm: Option<EmbOdr>, mlc: Option<EmbOdr>): (r: XlOdr)
    ensures val != Xl1Hz6 ==> XlDeciHz(r) == Max(XlDeciHz(val), FloorOf(LastCheck(fsm, mlc)))
    ensures r == val <==> (val == Xl1Hz6 || XlDeciHz(val) >= FloorOf(LastCheck(fsm, mlc)))
  {
    match mlc
    case Some(m) => XlRaise(val, m)
    case None => match fsm { case Some(f) => XlRaise(val, f) case None => val }
  }

  function GyArbitrate(val: GyOdr, fsm: Option<EmbOdr>, mlc: Option<EmbOdr>): (r: GyOdr)
    ensures GyDeciHz(r) == Max(GyDeciHz(val), FloorOf(LastCheck(fsm, mlc)))
    ensures r == val <==> GyDeciHz(val) >= FloorOf(LastCheck(fsm, mlc))
  {
    match mlc
    case Some(m) => GyRaise(val, m)
    case None => match fsm { case Some(f) => GyRaise(val, f) case None => val }
  }

  /**
   * The programmed rate meets the floor of the engine whose check applied
   * last, and is the request itself when it was already fast enough.
   */
  lemma XlArbitrateMeetsFloor(val: XlOdr, fsm: Option<EmbOdr>, mlc: Option<EmbOdr>)
    requires val != Xl1Hz6
    ensures mlc.Some? ==> XlDeciHz(XlArbitrate(val, fsm, mlc)) >= EmbDeciHz(mlc.value)
    ensures mlc.None? && fsm.Some? ==> XlDeciHz(XlArbitrate(val, fsm, mlc)) >= EmbDeciHz(fsm.value)
    ensures XlDeciHz(XlArbitrate(val, fsm, mlc)) >= XlDeciHz(val)
  {
  }

  /**
   * The MLC adjustment replaces the FSM one: a slow MLC can undo the raise an
   * FSM at 104 Hz requires, so the programmed rate is not the larger floor.
   */
  lemma XlMlcReplacesFsm()
    ensures XlArbitrate(XlOff, Some(Emb104Hz), Some(Emb26Hz)) == Xl26Hz
    ensures XlDeciHz(XlArbitrate(XlOff, Some(Emb104Hz), Some(Emb26Hz))) < EmbDeciHz(Emb104Hz)
  {
  }

  /** 1.6 Hz passes every check unchanged though it is below every floor. */
  lemma Xl1Hz6PassesThrough(fsm: Option<EmbOdr>, mlc: Option<EmbOdr>)
    ensures XlArbitrate(Xl1Hz6, fsm, mlc) == Xl1Hz6
  {
  }

  lemma GyMlcReplacesFsm()
    ensures GyArbitrate(GyOff, Some(Emb104Hz), Some(Emb26Hz)) == Gy26Hz
  {
  }
  /**
   * The engine whose check decides the setter's rate: the MLC when its
   * rate was read, else the FSM.
   */
  function LastCheck(fsm: Option<EmbOdr>, mlc: Option<EmbOdr>): Option<EmbOdr>
  {
    if mlc.Some? then mlc else fsm
  }

  /** The floor an engine imposes, 0 when it does not run. */
  function FloorOf(o: Option<EmbOdr>): nat
  {
    match o
    case Some(f) => EmbDeciHz(f)
    case None => 0
  }

  /**
   * The arbitration the engines' floors call for: the MLC check raises the
   * rate the FSM check produced instead of the request, so the programmed
   * rate is the slowest one that meets the request and both floors.
   */
  function XlArbitrateChained(val: XlOdr, fsm: Option<EmbOdr>, mlc: Option<EmbOdr>): (r: XlOdr)
    ensures val != Xl1Hz6 ==> XlDeciHz(r) == Max(Max(XlDeciHz(val), FloorOf(fsm)), FloorOf(mlc))
    ensures val == Xl1Hz6 ==> r == val
  {
    var f := match fsm { case Some(x) => XlRaise(val, x) case None => val };
    match mlc { case Some(m) => XlRaise(f, m) case None => f }
  }

  function GyArbitrateChained(val: GyOdr, fsm: Option<EmbOdr>, mlc: Option<EmbOdr>): (r: GyOdr)
    ensures GyDeciHz(r) == Max(Max(GyDeciHz(val), FloorOf(fsm)), FloorOf(mlc))
  {
    var f := match fsm { case Some(x) => GyRaise(val, x) case None => val };
    match mlc { case Some(m) => GyRaise(f, m) case None => f }
  }

  /** The driver's arbitration and the chained one differ only when both engines run. */
  lemma XlArbitrateAgrees(val: XlOdr, fsm: Option<EmbOdr>, mlc: Option<EmbOdr>)
    requires fsm.None? || mlc.None?
    ensures XlArbitrate(val, fsm, mlc) == XlArbitrateChained(val, fsm, mlc)
  {
  }

  lemma GyArbitrateAgrees(val: GyOdr, fsm: Option<EmbOdr>, mlc: Option<EmbOdr>)
    requires fsm.None? || mlc.None?
    ensures GyArbitrate(val, fsm, mlc) == GyArbitrateChained(val, fsm, mlc)
  {
  }
}
