// The register map of the ASM330LHB as the driver sees it.
//
// The driver's header fixes register addresses, the bit positions of each
// field and the raw codes of its enumerations. The header is not part of this
// model: these values are parameters, collected in a Layout, and the model
// assumes of them only what the driver's code relies on (Layout.Valid).

module Layout {
  import opened Bits
  import opened Odr

  /** The two register banks that FUNC_CFG_ACCESS.reg_access selects between. */
  datatype Bank = User | Embedded

  /** A register address within a bank. */
  type RegAddr = a: int | 0 <= a < 256

  /** The registers the modelled functions access, by their header names. */
  datatype RegName =
    // user bank
    | FuncCfgAccess | Ctrl1Xl | Ctrl2G | Ctrl7G | Ctrl8Xl | Ctrl9Xl | I3cBusAvb
    | IntCfg0 | IntCfg1 | WakeUpDur | FreeFall | FifoCtrl1 | FifoCtrl2
    | FifoStatus1 | FifoStatus2 | CounterBdrReg1 | CounterBdrReg2
    | Timestamp0 | Timestamp2 | OutTempL | OutxLG | OutxLA
    | Int1Ctrl | Md1Cfg | Int2Ctrl | Md2Cfg
    | AllIntSrc | WakeUpSrc | D6dSrc | StatusReg
    | FsmStatusAMainpage | FsmStatusBMainpage
    // embedded-functions bank
    | PageSel | PageRw | PageAddress | PageValue
    | EmbFuncEnB | EmbFuncInitB | FsmEnableA | FsmEnableB | FsmLongCounterL
    | EmbFuncOdrCfgB | EmbFuncOdrCfgC
    | MlcInt1 | EmbFuncInt1 | FsmInt1A | FsmInt1B
    | MlcInt2 | EmbFuncInt2 | FsmInt2A | FsmInt2B
    | EmbFuncStatus | FsmStatusA | FsmStatusB | MlcStatus | FsmOuts1 | Mlc0Src

  /** The bitfields the modelled functions assign or read, by register. */
  datatype FieldName =
    | RegAccess                                  // FUNC_CFG_ACCESS
    | OdrXl                                      // CTRL1_XL
    | OdrG                                       // CTRL2_G
    | HpEnG | HpmG                               // CTRL7_G
    | HpSlopeXlEn | HpRefModeXl | HpcfXl         // CTRL8_XL
    | I3cDisable                                 // CTRL9_XL
    | I3cBusAvbSel                               // I3C_BUS_AVB
    | Lir | IntClrOnRead                         // INT_CFG0
    | InterruptsEnable                           // INT_CFG1
    | WakeUpDurFfDur                             // WAKE_UP_DUR.ff_dur
    | FreeFallFfDur                              // FREE_FALL.ff_dur
    | FifoCtrl2Wtm                               // FIFO_CTRL2.wtm
    | FifoStatus1Diff | FifoStatus2Diff          // FIFO_STATUS1/2.diff_fifo
    | CntBdrThReg1                               // cnt_bdr_th in the COUNTER_BDR_REG1 layout
    | CntBdrThReg2                               // cnt_bdr_th in the COUNTER_BDR_REG2 layout
    | Int1EmbFunc                                // MD1_CFG
    | Int2EmbFunc                                // MD2_CFG
    | Int1FsmLc                                  // EMB_FUNC_INT1
    | Int2FsmLc                                  // EMB_FUNC_INT2
    | PageSelField | PageSelNotUsed01 | EmbFuncClkDis   // PAGE_SEL
    | PageRwField | EmbFuncLir                   // PAGE_RW
    | FsmEn | MlcEn                              // EMB_FUNC_EN_B
    | MlcInit                                    // EMB_FUNC_INIT_B
    | IsFsmLc                                    // EMB_FUNC_STATUS
    | FsmOdr | OdrCfgBNotUsed01 | OdrCfgBNotUsed02   // EMB_FUNC_ODR_CFG_B
    | MlcOdr                                     // EMB_FUNC_ODR_CFG_C
    | FifoCtrl1Wtm                               // FIFO_CTRL1.wtm
    | PageAddr                                   // PAGE_ADDRESS.page_addr

  /**
   * Groups of one-bit fields whose OR the driver tests, as the mask of their
   * bits; the names list the fields each group stands for.
   */
  datatype Group =
    | FsmEnAll1to8 | FsmEnAll9to16              // FSM_ENABLE_A, FSM_ENABLE_B: fsm1_en..fsm16_en
    | Int1Fsm1to8 | Int1Fsm9to16 | Int1Mlc1to8  // FSM_INT1_A, FSM_INT1_B, MLC_INT1
    | Int2Fsm1to8 | Int2Fsm9to16 | Int2Mlc1to8  // FSM_INT2_A, FSM_INT2_B, MLC_INT2
    | Int1CtrlAll      // INT1_CTRL: den_drdy_flag, boot, cnt_bdr, drdy_g, drdy_xl, fifo_full, fifo_ovr, fifo_th
    | Md1Base          // MD1_CFG: int1_6d, int1_ff, int1_wu, int1_sleep_change
    | Int2CtrlAll      // INT2_CTRL: cnt_bdr, drdy_g, drdy_temp, drdy_xl, fifo_full, fifo_ovr, fifo_th
    | Md2Base          // MD2_CFG: int2_6d, int2_ff, int2_wu, int2_sleep_change

  /** The enumerations whose getters decode a value assembled from several fields. */
  datatype Split = HpPathTable | GyHpTable | I3cTable | LirTable

  /** Addresses of the embedded-functions memory that the driver reaches through paging. */
  datatype PageName = LcTimeoutL | LcTimeoutH | FsmPrograms | StartAddL | StartAddH

  /** Header values: addresses, fields, groups and enumeration codes. */
  datatype Layout = Layout(
    addr: RegName -> RegAddr,
    field: FieldName -> Field,
    group: Group -> bv8,
    page: PageName -> bv16,           // 16-bit addresses of the paged memory
    table: Split -> Decoder,
    userBankCode: bv8,
    embBankCode: bv8,
    xlOdrCode: XlOdr -> bv8,
    gyOdrCode: GyOdr -> bv8,
    fsmOdrCode: EmbOdr -> bv8,
    mlcOdrCode: EmbOdr -> bv8)

  /** `n` bytes from address `a` include address `x`. */
  predicate Covers(a: int, n: nat, x: int)
  {
    a <= x < a + n
  }

  /** What bank switching relies on: reg_access is a field, and the bank codes fit it and differ. */
  predicate BankAccess(lay: Layout)
  {
    && WellFormed(lay.field(RegAccess))
    && Fits(lay.field(RegAccess), lay.userBankCode)
    && Fits(lay.field(RegAccess), lay.embBankCode)
    && lay.userBankCode != lay.embBankCode
  }

  /** Every field is a run of contiguous bits. */
  predicate Fields(lay: Layout)
  {
    forall f :: WellFormed(lay.field(f))
  }

  /** The `n` bytes the driver transfers from register `r` stay within a bank. */
  predicate Fit(lay: Layout, r: RegName, n: nat)
  {
    lay.addr(r) + n <= 256
  }

  /** Every multi-byte transfer stays within its bank. */
  predicate InBank(lay: Layout)
  {
    && Fit(lay, Timestamp0, 4) && Fit(lay, OutTempL, 2) && Fit(lay, OutxLG, 6) && Fit(lay, OutxLA, 6)
    && Fit(lay, FsmLongCounterL, 2) && Fit(lay, PageValue, 2) && Fit(lay, FsmOuts1, 16) && Fit(lay, Mlc0Src, 8)
  }

  /** FUNC_CFG_ACCESS, visible in both banks, is not register `r`. */
  predicate Apart(lay: Layout, r: RegName)
  {
    lay.addr(r) != lay.addr(FuncCfgAccess)
  }

  /** FUNC_CFG_ACCESS lies outside the `n` bytes transferred from register `r`. */
  predicate ApartN(lay: Layout, r: RegName, n: nat)
  {
    !Covers(lay.addr(r), n, lay.addr(FuncCfgAccess))
  }

  /** FUNC_CFG_ACCESS lies outside every other transfer. */
  predicate FcaApart(lay: Layout)
  {
    && Apart(lay, Ctrl1Xl) && Apart(lay, Ctrl2G) && Apart(lay, Ctrl7G) && Apart(lay, Ctrl8Xl)
    && Apart(lay, Ctrl9Xl) && Apart(lay, I3cBusAvb) && Apart(lay, IntCfg0) && Apart(lay, IntCfg1)
    && Apart(lay, WakeUpDur) && Apart(lay, FreeFall) && Apart(lay, FifoCtrl1) && Apart(lay, FifoCtrl2)
    && Apart(lay, FifoStatus1) && Apart(lay, FifoStatus2) && Apart(lay, CounterBdrReg1) && Apart(lay, CounterBdrReg2)
    && ApartN(lay, Timestamp0, 4) && Apart(lay, Timestamp2) && ApartN(lay, OutTempL, 2) && ApartN(lay, OutxLG, 6)
    && ApartN(lay, OutxLA, 6) && Apart(lay, Int1Ctrl) && Apart(lay, Md1Cfg) && Apart(lay, Int2Ctrl)
    && Apart(lay, Md2Cfg) && Apart(lay, AllIntSrc) && Apart(lay, WakeUpSrc) && Apart(lay, D6dSrc)
    && Apart(lay, StatusReg) && Apart(lay, FsmStatusAMainpage) && Apart(lay, FsmStatusBMainpage) && Apart(lay, PageSel)
    && Apart(lay, PageRw) && Apart(lay, PageAddress) && ApartN(lay, PageValue, 2) && Apart(lay, EmbFuncEnB)
    && Apart(lay, EmbFuncInitB) && Apart(lay, FsmEnableA) && Apart(lay, FsmEnableB) && ApartN(lay, FsmLongCounterL, 2)
    && Apart(lay, EmbFuncOdrCfgB) && Apart(lay, EmbFuncOdrCfgC) && Apart(lay, MlcInt1) && Apart(lay, EmbFuncInt1)
    && Apart(lay, FsmInt1A) && Apart(lay, FsmInt1B) && Apart(lay, MlcInt2) && Apart(lay, EmbFuncInt2)
    && Apart(lay, FsmInt2A) && Apart(lay, FsmInt2B) && Apart(lay, EmbFuncStatus) && Apart(lay, FsmStatusA)
    && Apart(lay, FsmStatusB) && Apart(lay, MlcStatus) && ApartN(lay, FsmOuts1, 16) && ApartN(lay, Mlc0Src, 8)
  }

  predicate Differ(lay: Layout, r1: RegName, r2: RegName)
  {
    lay.addr(r1) != lay.addr(r2)
  }

  /**
   * The registers of one bank that one operation accesses have distinct
   * addresses.
   */
  predicate Distinct(lay: Layout)
  {
    && Differ(lay, Ctrl9Xl, I3cBusAvb) && Differ(lay, WakeUpDur, FreeFall)
    && Differ(lay, FifoCtrl2, FifoCtrl1) && Differ(lay, CounterBdrReg1, CounterBdrReg2)
  }

  /** The output data rate codes fit their fields and are distinct. */
  predicate OdrCodes(lay: Layout)
    requires Fields(lay)
  {
    && (forall o :: Fits(lay.field(OdrXl), lay.xlOdrCode(o)))
    && (forall o :: Fits(lay.field(OdrG), lay.gyOdrCode(o)))
    && (forall o :: Fits(lay.field(FsmOdr), lay.fsmOdrCode(o)))
    && (forall o :: Fits(lay.field(MlcOdr), lay.mlcOdrCode(o)))
    && (forall o1, o2 :: o1 != o2 ==> lay.xlOdrCode(o1) != lay.xlOdrCode(o2))
    && (forall o1, o2 :: o1 != o2 ==> lay.gyOdrCode(o1) != lay.gyOdrCode(o2))
    && (forall o1, o2 :: o1 != o2 ==> lay.fsmOdrCode(o1) != lay.fsmOdrCode(o2))
    && (forall o1, o2 :: o1 != o2 ==> lay.mlcOdrCode(o1) != lay.mlcOdrCode(o2))
  }

  /** Two bitfields share no bit. */
  predicate Clear(lay: Layout, f1: FieldName, f2: FieldName)
  {
    lay.field(f1).mask & lay.field(f2).mask == 0
  }

  /** Distinct bitfields of one register do not share bits. */
  predicate Masks(lay: Layout)
  {
    && lay.group(Md1Base) & lay.field(Int1EmbFunc).mask == 0
    && lay.group(Md2Base) & lay.field(Int2EmbFunc).mask == 0
    && Clear(lay, Lir, IntClrOnRead)
    && Clear(lay, PageSelField, PageSelNotUsed01)
    && Clear(lay, HpSlopeXlEn, HpRefModeXl) && Clear(lay, HpSlopeXlEn, HpcfXl) && Clear(lay, HpRefModeXl, HpcfXl)
    && Clear(lay, HpEnG, HpmG)
    && Clear(lay, FsmOdr, OdrCfgBNotUsed01) && Clear(lay, FsmOdr, OdrCfgBNotUsed02)
    && Clear(lay, OdrCfgBNotUsed01, OdrCfgBNotUsed02)
  }

  /**
   * The field widths that the driver's arithmetic on split values assumes;
   * the fields of FIFO_CTRL1, COUNTER_BDR_REG2 and PAGE_ADDRESS, which the
   * driver writes from a fresh struct, span their whole register.
   */
  predicate Widths(lay: Layout)
    requires Fields(lay)
  {
    && Bit(lay, HpSlopeXlEn) && Bit(lay, HpRefModeXl) && Bit(lay, HpEnG) && Bit(lay, I3cDisable)
    && Bit(lay, Lir) && Bit(lay, EmbFuncLir) && Bit(lay, WakeUpDurFfDur) && Bit(lay, FifoCtrl2Wtm)
    && Bit(lay, FsmEn) && Bit(lay, MlcEn) && Bit(lay, Int1EmbFunc) && Bit(lay, Int2EmbFunc)
    && Bit(lay, InterruptsEnable) && Bit(lay, PageSelNotUsed01)
    && Fits(lay.field(HpcfXl), 7)
    && Fits(lay.field(HpmG), 3)
    && Fits(lay.field(I3cBusAvbSel), 3)
    && Fits(lay.field(FreeFallFfDur), 0x1F)
    && Fits(lay.field(PageSelField), 0xF)
    && Fits(lay.field(CntBdrThReg1), 7) && lay.field(CntBdrThReg1).shift == 0
    && lay.field(FifoCtrl1Wtm) == Field(0xFF, 0)
    && lay.field(CntBdrThReg2) == Field(0xFF, 0)
    && lay.field(PageAddr) == Field(0xFF, 0)
  }

  /** A one-bit field, whose value the driver combines arithmetically. */
  predicate Bit(lay: Layout, f: FieldName)
    requires Fields(lay)
  {
    Ones(lay.field(f)) == 1
  }

  /** What the driver's code relies on of its header. */
  predicate Valid(lay: Layout)
  {
    && BankAccess(lay) && Fields(lay) && InBank(lay) && Distinct(lay) && FcaApart(lay)
    && Masks(lay) && Widths(lay)
  }

  /** The bank that a FUNC_CFG_ACCESS byte selects, decoded as asm330lhb_mem_bank_get does. */
  function BankOf(lay: Layout, fca: bv8): Bank
    requires BankAccess(lay)
  {
    if Get(fca, lay.field(RegAccess)) == lay.embBankCode then Embedded else User
  }

  /** The reg_access code of a bank. */
  function BankCode(lay: Layout, b: Bank): bv8
  {
    if b == User then lay.userBankCode else lay.embBankCode
  }
}
