// Interrupt-pin routing and the interrupt-source snapshot.
//
// asm330lhb_pin_int1_route_set/get and asm330lhb_pin_int2_route_set/get move
// six routing registers per pin: four of the embedded-functions bank (MLC,
// embedded-function, FSM 1-8 and FSM 9-16 routing) and two of the user bank
// (INTx_CTRL and MDx_CFG). The setters derive two bits on the way: MDx_CFG's
// intx_emb_func, set in the caller's struct too, from the embedded routing
// bits; and INT_CFG1.interrupts_enable from the base routing bits of both
// pins, the other pin's read back from the device.

module Routing {
  import opened Bits
  import opened Layout
  import opened Bus

  // ---------------------------------------------------------------------
  // Sequences of single-byte transfers

  /**
   * Single-byte reads of `regs` in order, the first failure ending the
   * sequence; the output holds the bytes of the reads that succeeded.
   */
  function ReadSeq(e: Env, c: Chip, regs: seq<RegAddr>): (r: Res<seq<bv8>>)
    requires Coherent(e, c)
    ensures Coherent(e, r.c) && |r.v| <= |regs|
    decreases |regs|
  {
    if regs == [] then Res(c, 0, []) else
    var rd := ReadReg(e, c, regs[0], 1);
    if rd.st != 0 then Res(rd.c, rd.st, []) else
    var rest := ReadSeq(e, rd.c, regs[1..]);
    Res(rest.c, rest.st, rd.v + rest.v)
  }

  /** Single-byte writes of `data` to `regs` in order, the first failure ending the sequence. */
  function WriteSeq(e: Env, c: Chip, regs: seq<RegAddr>, data: seq<bv8>): (r: Res<()>)
    requires Coherent(e, c) && |regs| == |data|
    ensures Coherent(e, r.c)
    decreases |regs|
  {
    if regs == [] then Res(c, 0, ()) else
    var w := WriteReg(e, c, regs[0], [data[0]]);
    if w.st != 0 then w else WriteSeq(e, w.c, regs[1..], data[1..])
  }

  /** Reads of the embedded-functions bank between the two bank switches. */
  function EmbReadSeq(e: Env, c: Chip, regs: seq<RegAddr>): (r: Res<seq<bv8>>)
    requires Coherent(e, c)
    ensures Coherent(e, r.c) && |r.v| <= |regs|
  {
    var b1 := MemBankSet(e, c, Embedded);
    if b1.st != 0 then Res(b1.c, b1.st, []) else
    var g := ReadSeq(e, b1.c, regs);
    if g.st != 0 then g else
    var b2 := MemBankSet(e, g.c, User);
    Res(b2.c, b2.st, g.v)
  }

  /** Writes to the embedded-functions bank between the two bank switches. */
  function EmbWriteSeq(e: Env, c: Chip, regs: seq<RegAddr>, data: seq<bv8>): (r: Res<()>)
    requires Coherent(e, c) && |regs| == |data|
    ensures Coherent(e, r.c)
  {
    var b1 := MemBankSet(e, c, Embedded);
    if b1.st != 0 then b1 else
    var w := WriteSeq(e, b1.c, regs, data);
    if w.st != 0 then w else
    MemBankSet(e, w.c, User)
  }

  /** The registers `regs` of bank `b`, as a frame. */
  function Cells(b: Bank, regs: seq<RegAddr>): set<(Bank, int)>
    decreases |regs|
  {
    if regs == [] then {} else {(b, regs[0])} + Cells(b, regs[1..])
  }

  /** The empty frame. */
  function Nothing(): set<(Bank, int)>
  {
    {}
  }

  /** None of `regs` is FUNC_CFG_ACCESS. */
  predicate Away(e: Env, regs: seq<RegAddr>)
  {
    forall i :: 0 <= i < |regs| ==> regs[i] != Fca(e)
  }

  /** No register occurs twice in `regs`. */
  predicate Unique(regs: seq<RegAddr>)
  {
    forall i, j :: 0 <= i < j < |regs| ==> regs[i] != regs[j]
  }

  /** A frame of registers holds exactly the pairs of its bank and its addresses. */
  lemma {:induction false} CellsOf(b: Bank, regs: seq<RegAddr>, b2: Bank, x: int)
    ensures (b2, x) in Cells(b, regs) <==> b2 == b && x in regs
    decreases |regs|
  {
    if regs != [] {
      CellsOf(b, regs[1..], b2, x);
      assert x in regs <==> x == regs[0] || x in regs[1..];
    }
  }

  /**
   * A read sequence changes no register and keeps the bank; each byte it
   * returns is its register's, and on success it returns one per register.
   */
  lemma {:induction false} ReadSeqEffect(e: Env, c: Chip, regs: seq<RegAddr>)
    requires Coherent(e, c) && regs != []
    ensures var r := ReadSeq(e, c, regs);
      && r.c.bank == c.bank && r.c.user == c.user && r.c.emb == c.emb
      && Confined(e, c, r.c, r.st, {})
      && (r.st == 0 ==> |r.v| == |regs|)
      && (forall i :: 0 <= i < |r.v| ==> r.v[i] == File(c, c.bank)[regs[i]])
    decreases |regs|
  {
    var rd := ReadReg(e, c, regs[0], 1);
    ReadRegConfined(e, c, regs[0], 1);
    if rd.st == 0 && |regs| > 1 {
      var rest := ReadSeq(e, rd.c, regs[1..]);
      ReadSeqEffect(e, rd.c, regs[1..]);
      ConfinedTrans(e, c, rd.c, rest.c, rest.st, {}, {});
      assert Nothing() + Nothing() == Nothing();
    }
    ReadSeqValues(e, c, regs);
  }

  /** Each byte a read sequence returns is its register's. */
  lemma {:induction false} ReadSeqValues(e: Env, c: Chip, regs: seq<RegAddr>)
    requires Coherent(e, c)
    ensures var r := ReadSeq(e, c, regs);
      forall i :: 0 <= i < |r.v| ==> r.v[i] == File(c, c.bank)[regs[i]]
    decreases |regs|
  {
    if regs != [] {
      var rd := ReadReg(e, c, regs[0], 1);
      if rd.st == 0 {
        var rest := ReadSeq(e, rd.c, regs[1..]);
        ReadSeqValues(e, rd.c, regs[1..]);
        assert File(rd.c, rd.c.bank) == File(c, c.bank);
        forall i | 0 <= i < |rd.v + rest.v|
          ensures (rd.v + rest.v)[i] == File(c, c.bank)[regs[i]]
        {
          if i > 0 {
            assert (rd.v + rest.v)[i] == rest.v[i - 1] && regs[1..][i - 1] == regs[i];
          }
        }
      }
    }
  }

  /**
   * A write sequence to distinct registers away from FUNC_CFG_ACCESS keeps
   * the bank and changes only those registers, which on success hold the data.
   */
  lemma {:induction false} WriteSeqEffect(e: Env, c: Chip, regs: seq<RegAddr>, data: seq<bv8>)
    requires Coherent(e, c) && |regs| == |data| && regs != [] && Away(e, regs) && Unique(regs)
    ensures var r := WriteSeq(e, c, regs, data);
      && r.c.bank == c.bank
      && Confined(e, c, r.c, r.st, Cells(c.bank, regs))
      && (r.st == 0 ==> forall i :: 0 <= i < |regs| ==> File(r.c, c.bank)[regs[i]] == data[i])
    decreases |regs|
  {
    var head: set<(Bank, int)> := {(c.bank, regs[0])};
    var w := WriteReg(e, c, regs[0], [data[0]]);
    WriteConfined(e, c, regs[0], data[0]);
    assert Cells(c.bank, regs) == head + Cells(c.bank, regs[1..]);
    if w.st != 0 {
      SameWiden(e, c, w.c, head, Cells(c.bank, regs));
    } else if |regs| == 1 {
      assert Cells(c.bank, regs[1..]) == {};
    } else {
      var tail := Cells(c.bank, regs[1..]);
      var rest := WriteSeq(e, w.c, regs[1..], data[1..]);
      WriteSeqEffect(e, w.c, regs[1..], data[1..]);
      ConfinedTrans(e, c, w.c, rest.c, rest.st, head, tail);
      if rest.st == 0 {
        CellsOf(c.bank, regs[1..], c.bank, regs[0]);
        Kept(e, w.c, rest.c, 0, tail, c.bank, regs[0]);
        forall i | 1 <= i < |regs|
          ensures File(rest.c, c.bank)[regs[i]] == data[i]
        {
          assert regs[1..][i - 1] == regs[i];
        }
      }
    }
  }

  /**
   * Reads of the embedded-functions bank change no register; each byte
   * returned is its register's there, and on success all are returned and
   * the user bank is selected again.
   */
  lemma EmbReadSeqEffect(e: Env, c: Chip, regs: seq<RegAddr>)
    requires Coherent(e, c) && regs != [] && Away(e, regs)
    ensures var r := EmbReadSeq(e, c, regs);
      && Confined(e, c, r.c, r.st, {})
      && (forall i :: 0 <= i < |r.v| ==> r.v[i] == c.emb[regs[i]])
      && (r.st == 0 ==> |r.v| == |regs| && r.c.bank == User)
  {
    var b1 := MemBankSet(e, c, Embedded);
    Enter(e, c, {});
    if b1.st == 0 {
      var g := ReadSeq(e, b1.c, regs);
      ReadSeqEffect(e, b1.c, regs);
      Bracket(e, c, g.c, g.st, {});
    }
  }

  /**
   * Writes to the embedded-functions bank change only their registers there,
   * which on success hold the data, with the user bank selected again.
   */
  lemma EmbWriteSeqEffect(e: Env, c: Chip, regs: seq<RegAddr>, data: seq<bv8>)
    requires Coherent(e, c) && |regs| == |data| && regs != [] && Away(e, regs) && Unique(regs)
    ensures var r := EmbWriteSeq(e, c, regs, data);
      && Confined(e, c, r.c, r.st, Cells(Embedded, regs))
      && (r.st == 0 ==> r.c.bank == User && forall i :: 0 <= i < |regs| ==> r.c.emb[regs[i]] == data[i])
  {
    var b1 := MemBankSet(e, c, Embedded);
    Enter(e, c, Cells(Embedded, regs));
    if b1.st == 0 {
      var w := WriteSeq(e, b1.c, regs, data);
      WriteSeqEffect(e, b1.c, regs, data);
      Bracket(e, c, w.c, w.st, Cells(Embedded, regs));
    }
  }

  /** What a caller's struct holds after a sequence of reads: the bytes read, then its own. */
  function Overwrite(held: seq<bv8>, b: seq<bv8>): (r: seq<bv8>)
    requires |b| <= |held|
    ensures |r| == |held|
  {
    b + held[|b|..]
  }

  // ---------------------------------------------------------------------
  // The routing registers of a pin

  datatype Pin = Int1 | Int2

  /** The pin whose base routing bits the setter of `pin` reads back. */
  function Mirror(pin: Pin): Pin
  {
    if pin == Int1 then Int2 else Int1
  }

  /**
   * asm330lhb_pin_intx_route_t, in the order its registers are transferred:
   * MLC_INTx, EMB_FUNC_INTx, FSM_INTx_A, FSM_INTx_B, INTx_CTRL, MDx_CFG.
   */
  datatype Route = Route(mlc: bv8, embFunc: bv8, fsmA: bv8, fsmB: bv8, ctrl: bv8, md: bv8)

  function RouteBytes(v: Route): (r: seq<bv8>)
  {
    [v.mlc, v.embFunc, v.fsmA, v.fsmB, v.ctrl, v.md]
  }

  function RouteOfBytes(s: seq<bv8>): (r: Route)
    requires |s| == 6
    ensures RouteBytes(r) == s
  {
    Route(s[0], s[1], s[2], s[3], s[4], s[5])
  }

  /** The four routing registers of the embedded-functions bank. */
  function EmbRegs(e: Env, pin: Pin): seq<RegAddr>
  {
    if pin == Int1 then [Addr(e, MlcInt1), Addr(e, EmbFuncInt1), Addr(e, FsmInt1A), Addr(e, FsmInt1B)]
    else [Addr(e, MlcInt2), Addr(e, EmbFuncInt2), Addr(e, FsmInt2A), Addr(e, FsmInt2B)]
  }

  /** INTx_CTRL and MDx_CFG of the user bank. */
  function UserRegs(e: Env, pin: Pin): seq<RegAddr>
  {
    if pin == Int1 then [Addr(e, Int1Ctrl), Addr(e, Md1Cfg)] else [Addr(e, Int2Ctrl), Addr(e, Md2Cfg)]
  }

  /** The routing of `pin` as the device holds it. */
  function RouteOf(e: Env, c: Chip, pin: Pin): Route
    requires Coherent(e, c)
  {
    var m := EmbRegs(e, pin);
    var u := UserRegs(e, pin);
    Route(c.emb[m[0]], c.emb[m[1]], c.emb[m[2]], c.emb[m[3]], c.user[u[0]], c.user[u[1]])
  }

  /** intx_emb_func of MDx_CFG. */
  function EmbFuncField(pin: Pin): FieldName
  {
    if pin == Int1 then Int1EmbFunc else Int2EmbFunc
  }

  /**
   * The embedded routing bits the setter ORs: intx_fsm_lc, the sixteen FSM
   * bits and the eight MLC bits.
   */
  predicate EmbRouted(e: Env, pin: Pin, v: Route)
  {
    if pin == Int1 then
      || AnySet(v.embFunc, Fld(e, Int1FsmLc).mask) || AnySet(v.fsmA, e.lay.group(Int1Fsm1to8))
      || AnySet(v.fsmB, e.lay.group(Int1Fsm9to16)) || AnySet(v.mlc, e.lay.group(Int1Mlc1to8))
    else
      || AnySet(v.embFunc, Fld(e, Int2FsmLc).mask) || AnySet(v.fsmA, e.lay.group(Int2Fsm1to8))
      || AnySet(v.fsmB, e.lay.group(Int2Fsm9to16)) || AnySet(v.mlc, e.lay.group(Int2Mlc1to8))
  }

  /** The base routing bits that enter interrupts_enable: those of INTx_CTRL and four of MDx_CFG. */
  predicate BaseRouted(e: Env, pin: Pin, v: Route)
  {
    AnySet(v.ctrl, e.lay.group(CtrlGroup(pin))) || AnySet(v.md, e.lay.group(MdGroup(pin)))
  }

  /** The routing bits of INTx_CTRL that the setters OR: all eight of INT1_CTRL, seven of INT2_CTRL. */
  function CtrlGroup(pin: Pin): Group
  {
    if pin == Int1 then Int1CtrlAll else Int2CtrlAll
  }

  /** The four base routing bits of MDx_CFG: intx_6d, intx_ff, intx_wu and intx_sleep_change. */
  function MdGroup(pin: Pin): Group
  {
    if pin == Int1 then Md1Base else Md2Base
  }

  /** PROPERTY_ENABLE or PROPERTY_DISABLE. */
  function Flag(b: bool): bv8
  {
    if b then 1 else 0
  }

  /** Assigning PROPERTY_ENABLE or PROPERTY_DISABLE to a one-bit field leaves it and nothing else. */
  lemma SetFlag(b: bv8, f: Field, en: bool)
    requires WellFormed(f) && Ones(f) == 1
    ensures Get(Set(b, f, Flag(en)), f) == Flag(en)
    ensures Set(b, f, Flag(en)) & !f.mask == b & !f.mask
  {
  }

  /** The caller's struct once the setter has derived intx_emb_func. */
  function Routed(e: Env, pin: Pin, v: Route): Route
    requires Fields(e.lay)
  {
    v.(md := Set(v.md, Fld(e, EmbFuncField(pin)), Flag(EmbRouted(e, pin, v))))
  }

  /** The routing registers are distinct, apart from FUNC_CFG_ACCESS, and INT_CFG1 is none of them. */
  predicate RoutingLayout(lay: Layout)
    requires Fields(lay)
  {
    && Apart(lay, MlcInt1) && Apart(lay, EmbFuncInt1) && Apart(lay, FsmInt1A) && Apart(lay, FsmInt1B)
    && Apart(lay, MlcInt2) && Apart(lay, EmbFuncInt2) && Apart(lay, FsmInt2A) && Apart(lay, FsmInt2B)
    && Apart(lay, Int1Ctrl) && Apart(lay, Md1Cfg) && Apart(lay, Int2Ctrl) && Apart(lay, Md2Cfg)
    && Apart(lay, IntCfg1)
    && Differ(lay, MlcInt1, EmbFuncInt1) && Differ(lay, MlcInt1, FsmInt1A) && Differ(lay, MlcInt1, FsmInt1B)
    && Differ(lay, EmbFuncInt1, FsmInt1A) && Differ(lay, EmbFuncInt1, FsmInt1B) && Differ(lay, FsmInt1A, FsmInt1B)
    && Differ(lay, MlcInt2, EmbFuncInt2) && Differ(lay, MlcInt2, FsmInt2A) && Differ(lay, MlcInt2, FsmInt2B)
    && Differ(lay, EmbFuncInt2, FsmInt2A) && Differ(lay, EmbFuncInt2, FsmInt2B) && Differ(lay, FsmInt2A, FsmInt2B)
    && Differ(lay, Int1Ctrl, Md1Cfg) && Differ(lay, Int2Ctrl, Md2Cfg)
    && Differ(lay, IntCfg1, Int1Ctrl) && Differ(lay, IntCfg1, Md1Cfg)
    && Differ(lay, IntCfg1, Int2Ctrl) && Differ(lay, IntCfg1, Md2Cfg)
    && Bit(lay, InterruptsEnable) && Bit(lay, Int1EmbFunc) && Bit(lay, Int2EmbFunc)
  }

  /** The register lists of both pins are fit for the sequence lemmas. */
  lemma RegsFit(e: Env, pin: Pin)
    requires Fields(e.lay) && RoutingLayout(e.lay)
    ensures Away(e, EmbRegs(e, pin)) && Unique(EmbRegs(e, pin))
    ensures Away(e, UserRegs(e, pin)) && Unique(UserRegs(e, pin))
    ensures Addr(e, IntCfg1) !in UserRegs(e, pin) && Addr(e, IntCfg1) != Fca(e)
  {
  }

  // ---------------------------------------------------------------------
  // asm330lhb_pin_int1_route_get / asm330lhb_pin_int2_route_get

  /**
   * The getter reads the four registers of the embedded-functions bank and,
   * after switching back, the two of the user bank, into the caller's
   * struct `v`; fields whose read did not succeed keep their value.
   */
  function RouteGet(e: Env, c: Chip, pin: Pin, v: Route): (r: Res<Route>)
    requires Coherent(e, c)
    ensures Coherent(e, r.c)
  {
    var m := EmbReadSeq(e, c, EmbRegs(e, pin));
    if m.st != 0 then Res(m.c, m.st, RouteOfBytes(Overwrite(RouteBytes(v), m.v))) else
    var u := ReadSeq(e, m.c, UserRegs(e, pin));
    Res(u.c, u.st, RouteOfBytes(Overwrite(RouteBytes(v), m.v + u.v)))
  }

  /**
   * The getter changes no register; on success it returns the routing the
   * device holds, whatever the caller's struct held, with the user bank
   * selected.
   */
  lemma RouteGetEffect(e: Env, c: Chip, pin: Pin, v: Route)
    requires Coherent(e, c) && Fields(e.lay) && RoutingLayout(e.lay)
    ensures var r := RouteGet(e, c, pin, v);
      && Confined(e, c, r.c, r.st, {})
      && (r.st == 0 ==> r.c.bank == User && r.v == RouteOf(e, c, pin))
  {
    RegsFit(e, pin);
    var m := EmbReadSeq(e, c, EmbRegs(e, pin));
    EmbReadSeqEffect(e, c, EmbRegs(e, pin));
    if m.st == 0 {
      var u := ReadSeq(e, m.c, UserRegs(e, pin));
      ReadSeqEffect(e, m.c, UserRegs(e, pin));
      ConfinedTrans(e, c, m.c, u.c, u.st, {}, {});
      assert Nothing() + Nothing() == Nothing();
      if u.st == 0 {
        assert File(m.c, m.c.bank) == m.c.user;
        RouteRead(e, c, m.c, pin, m.v, u.v);
        assert Overwrite(RouteBytes(v), m.v + u.v) == m.v + u.v;
      }
    }
  }

  /** Four bytes read from the embedded routing registers and two from the user ones make up the routing. */
  lemma RouteRead(e: Env, c: Chip, c1: Chip, pin: Pin, mv: seq<bv8>, uv: seq<bv8>)
    requires Coherent(e, c) && Coherent(e, c1) && Fields(e.lay) && RoutingLayout(e.lay)
    requires SameExcept(e, c, c1, {})
    requires |mv| == 4 && forall i :: 0 <= i < 4 ==> mv[i] == c.emb[EmbRegs(e, pin)[i]]
    requires |uv| == 2 && forall i :: 0 <= i < 2 ==> uv[i] == c1.user[UserRegs(e, pin)[i]]
    ensures mv + uv == RouteBytes(RouteOf(e, c, pin))
  {
    RegsFit(e, pin);
    var us := UserRegs(e, pin);
    assert c1.user[us[0]] == c.user[us[0]] && c1.user[us[1]] == c.user[us[1]];
  }

  // ---------------------------------------------------------------------
  // asm330lhb_pin_int1_route_set / asm330lhb_pin_int2_route_set

  /** The uninitialised local struct the setter reads the other pin into. */
  const Unset: Route := Route(0, 0, 0, 0, 0, 0)

  /**
   * The setter's last steps, in the user bank: read INT_CFG1, read the other
   * pin's routing, and write INT_CFG1 back with interrupts_enable set exactly
   * when a base routing bit of either pin is.
   */
  function Enable(e: Env, c: Chip, pin: Pin, v: Route): (r: Res<()>)
    requires Coherent(e, c) && Fields(e.lay)
    ensures Coherent(e, r.c)
  {
    var a := Addr(e, IntCfg1);
    var rd := ReadReg(e, c, a, 1);
    if rd.st != 0 then Res(rd.c, rd.st, ()) else
    var g := RouteGet(e, rd.c, Mirror(pin), Unset);
    if g.st != 0 then Res(g.c, g.st, ()) else
    var en := BaseRouted(e, pin, v) || BaseRouted(e, Mirror(pin), g.v);
    WriteReg(e, g.c, a, [Set(rd.v[0], Fld(e, InterruptsEnable), Flag(en))])
  }

  /**
   * The setter writes the four embedded routing registers; after switching
   * back it derives intx_emb_func into the caller's struct, writes INTx_CTRL
   * and MDx_CFG, and then updates INT_CFG1. The output is the caller's struct
   * as the call leaves it.
   */
  function RouteSet(e: Env, c: Chip, pin: Pin, v: Route): (r: Res<Route>)
    requires Coherent(e, c) && Fields(e.lay)
    ensures Coherent(e, r.c)
  {
    var p := EmbWriteSeq(e, c, EmbRegs(e, pin), RouteBytes(v)[..4]);
    if p.st != 0 then Res(p.c, p.st, v) else
    var v1 := Routed(e, pin, v);
    var u := WriteSeq(e, p.c, UserRegs(e, pin), RouteBytes(v1)[4..]);
    if u.st != 0 then Res(u.c, u.st, v1) else
    var n := Enable(e, u.c, pin, v1);
    Res(n.c, n.st, v1)
  }

  /** The registers the setter may change. */
  function RouteFrame(e: Env, pin: Pin): set<(Bank, int)>
  {
    RouteWrites(e, pin) + {(User, Addr(e, IntCfg1))}
  }

  /**
   * intx_emb_func is derived as the OR of the embedded routing bits, in both
   * directions, and nothing else of the caller's struct changes.
   */
  lemma RoutedEmbFunc(e: Env, pin: Pin, v: Route)
    requires Fields(e.lay) && Bit(e.lay, EmbFuncField(pin))
    ensures var f := Fld(e, EmbFuncField(pin));
      var w := Routed(e, pin, v);
      && (Get(w.md, f) == 1 <==> EmbRouted(e, pin, v))
      && (Get(w.md, f) == 0 <==> !EmbRouted(e, pin, v))
      && w.md & !f.mask == v.md & !f.mask
      && w.(md := v.md) == v
  {
  }

  /**
   * The embedded-function bits do not enter interrupts_enable: neither the
   * embedded routing registers nor intx_emb_func change the base OR.
   */
  lemma BaseIgnoresEmbedded(e: Env, pin: Pin, v: Route, w: Route, x: bv8)
    requires Fields(e.lay) && e.lay.group(MdGroup(pin)) & Fld(e, EmbFuncField(pin)).mask == 0
    requires w.ctrl == v.ctrl && w.md == Set(v.md, Fld(e, EmbFuncField(pin)), x)
    ensures BaseRouted(e, pin, w) == BaseRouted(e, pin, v)
  {
    var f := Fld(e, EmbFuncField(pin));
    AgreeOutside(w.md, v.md, f.mask, e.lay.group(MdGroup(pin)));
  }

  /**
   * The final steps change only INT_CFG1, whose interrupts_enable they set
   * exactly when a base routing bit of `v` or of the other pin as the device
   * holds it is set.
   */
  lemma EnableEffect(e: Env, c: Chip, pin: Pin, v: Route)
    requires Coherent(e, c) && Fields(e.lay) && RoutingLayout(e.lay) && c.bank == User
    ensures var r := Enable(e, c, pin, v);
      var a := Addr(e, IntCfg1);
      && Confined(e, c, r.c, r.st, {(User, a)})
      && (r.st == 0 ==>
           && r.c.bank == User
           && r.c.user[a] == Set(c.user[a], Fld(e, InterruptsEnable),
                                 Flag(BaseRouted(e, pin, v) || BaseRouted(e, Mirror(pin), RouteOf(e, c, Mirror(pin))))))
  {
    var a := Addr(e, IntCfg1);
    var w: set<(Bank, int)> := {(User, a)};
    var rd := ReadReg(e, c, a, 1);
    ReadRegConfined(e, c, a, 1);
    if rd.st != 0 {
      SameWiden(e, c, rd.c, {}, w);
    } else {
      var g := RouteGet(e, rd.c, Mirror(pin), Unset);
      RouteGetEffect(e, rd.c, Mirror(pin), Unset);
      ConfinedTrans(e, c, rd.c, g.c, g.st, {}, {});
      assert Nothing() + Nothing() == Nothing();
      if g.st != 0 {
        SameWiden(e, c, g.c, {}, w);
      } else {
        EnableWrite(e, c, g.c, pin, v, g.v, rd.v[0]);
        assert rd.c.user == c.user && rd.c.emb == c.emb;
        assert g.v == RouteOf(e, c, Mirror(pin));
        assert rd.v[0] == c.user[a];
      }
    }
  }

  /** The write of INT_CFG1 that ends the setter, after the reads changed nothing. */
  lemma EnableWrite(e: Env, c: Chip, c1: Chip, pin: Pin, v: Route, gv: Route, b0: bv8)
    requires Coherent(e, c) && Coherent(e, c1) && Fields(e.lay) && RoutingLayout(e.lay)
    requires Confined(e, c, c1, 0, {}) && c1.bank == User
    ensures var a := Addr(e, IntCfg1);
      var b := Set(b0, Fld(e, InterruptsEnable), Flag(BaseRouted(e, pin, v) || BaseRouted(e, Mirror(pin), gv)));
      var n := WriteReg(e, c1, a, [b]);
      && Confined(e, c, n.c, n.st, {(User, a)})
      && (n.st == 0 ==> n.c.bank == User && n.c.user[a] == b)
  {
    var a := Addr(e, IntCfg1);
    var w: set<(Bank, int)> := {(User, a)};
    var b := Set(b0, Fld(e, InterruptsEnable), Flag(BaseRouted(e, pin, v) || BaseRouted(e, Mirror(pin), gv)));
    var n := WriteReg(e, c1, a, [b]);
    WriteConfined(e, c1, a, b);
    ConfinedTrans(e, c, c1, n.c, n.st, {}, w);
    assert {} + w == w;
  }

  /** The four writes to the embedded bank and the two to the user bank, as the setter confines them. */
  lemma RouteWritesEffect(e: Env, c: Chip, pin: Pin, v: Route)
    requires Coherent(e, c) && Fields(e.lay) && RoutingLayout(e.lay)
    ensures var p := EmbWriteSeq(e, c, EmbRegs(e, pin), RouteBytes(v)[..4]);
      && Confined(e, c, p.c, p.st, Cells(Embedded, EmbRegs(e, pin)))
      && (p.st == 0 ==>
           var v1 := Routed(e, pin, v);
           var u := WriteSeq(e, p.c, UserRegs(e, pin), RouteBytes(v1)[4..]);
           && Confined(e, c, u.c, u.st, Cells(Embedded, EmbRegs(e, pin)) + Cells(User, UserRegs(e, pin)))
           && (u.st == 0 ==> u.c.bank == User && RouteOf(e, u.c, pin) == v1))
  {
    RegsFit(e, pin);
    var m := EmbRegs(e, pin);
    var us := UserRegs(e, pin);
    var p := EmbWriteSeq(e, c, m, RouteBytes(v)[..4]);
    EmbWriteSeqEffect(e, c, m, RouteBytes(v)[..4]);
    if p.st == 0 {
      RouteWritesTail(e, c, p.c, pin, v);
    }
  }

  /** Deriving intx_emb_func leaves the four embedded routing bytes alone. */
  lemma RoutedKeepsEmbedded(e: Env, pin: Pin, v: Route)
    requires Fields(e.lay)
    ensures forall i :: 0 <= i < 4 ==> RouteBytes(v)[..4][i] == RouteBytes(Routed(e, pin, v))[i]
  {
  }

  /** The two user-bank writes of the setter, after the embedded ones. */
  lemma RouteWritesTail(e: Env, c: Chip, c1: Chip, pin: Pin, v: Route)
    requires Coherent(e, c) && Coherent(e, c1) && Fields(e.lay) && RoutingLayout(e.lay)
    requires Confined(e, c, c1, 0, Cells(Embedded, EmbRegs(e, pin))) && c1.bank == User
    requires forall i :: 0 <= i < 4 ==> c1.emb[EmbRegs(e, pin)[i]] == RouteBytes(v)[..4][i]
    ensures var v1 := Routed(e, pin, v);
      var u := WriteSeq(e, c1, UserRegs(e, pin), RouteBytes(v1)[4..]);
      && Confined(e, c, u.c, u.st, Cells(Embedded, EmbRegs(e, pin)) + Cells(User, UserRegs(e, pin)))
      && (u.st == 0 ==> u.c.bank == User && RouteOf(e, u.c, pin) == v1)
  {
    RegsFit(e, pin);
    var v1 := Routed(e, pin, v);
    RoutedKeepsEmbedded(e, pin, v);
    var m := EmbRegs(e, pin);
    var us := UserRegs(e, pin);
    var u := WriteSeq(e, c1, us, RouteBytes(v1)[4..]);
    WriteSeqEffect(e, c1, us, RouteBytes(v1)[4..]);
    ConfinedTrans(e, c, c1, u.c, u.st, Cells(Embedded, m), Cells(User, us));
    if u.st == 0 {
      forall i | 0 <= i < 4
        ensures u.c.emb[m[i]] == RouteBytes(v1)[i]
      {
        CellsOf(User, us, Embedded, m[i]);
        Kept(e, c1, u.c, 0, Cells(User, us), Embedded, m[i]);
      }
      assert RouteBytes(RouteOf(e, u.c, pin)) == RouteBytes(v1);
    }
  }

  /** The other pin's routing survives the setter's last write, to INT_CFG1. */
  lemma MirrorKept(e: Env, c0: Chip, c1: Chip, st: int, pin: Pin)
    requires Coherent(e, c0) && Coherent(e, c1) && Fields(e.lay) && RoutingLayout(e.lay)
    requires Confined(e, c0, c1, st, {(User, Addr(e, IntCfg1))})
    ensures RouteOf(e, c1, pin) == RouteOf(e, c0, pin)
  {
    RegsFit(e, pin);
  }

  /** The frame of the setter's writes before its last steps. */
  function RouteWrites(e: Env, pin: Pin): set<(Bank, int)>
  {
    Cells(Embedded, EmbRegs(e, pin)) + Cells(User, UserRegs(e, pin))
  }

  /**
   * The setter's last steps, from a state where its writes succeeded: they
   * keep the pin's routing and update interrupts_enable of the INT_CFG1 the
   * operation started with.
   */
  lemma RouteSetTail(e: Env, c: Chip, c2: Chip, pin: Pin, v1: Route)
    requires Coherent(e, c) && Coherent(e, c2) && Fields(e.lay) && RoutingLayout(e.lay)
    requires c2.bank == User && Confined(e, c, c2, 0, RouteWrites(e, pin)) && RouteOf(e, c2, pin) == v1
    ensures var n := Enable(e, c2, pin, v1);
      var a := Addr(e, IntCfg1);
      && Confined(e, c, n.c, n.st, RouteFrame(e, pin))
      && (n.st == 0 ==>
           && n.c.bank == User && RouteOf(e, n.c, pin) == v1
           && n.c.user[a] == Set(c.user[a], Fld(e, InterruptsEnable),
                                 Flag(BaseRouted(e, pin, v1) || BaseRouted(e, Mirror(pin), RouteOf(e, n.c, Mirror(pin))))))
  {
    var a := Addr(e, IntCfg1);
    var n := Enable(e, c2, pin, v1);
    EnableEffect(e, c2, pin, v1);
    ConfinedTrans(e, c, c2, n.c, n.st, RouteWrites(e, pin), {(User, a)});
    if n.st == 0 {
      MirrorKept(e, c2, n.c, 0, pin);
      MirrorKept(e, c2, n.c, 0, Mirror(pin));
      RegsFit(e, pin);
      CellsOf(Embedded, EmbRegs(e, pin), User, a);
      CellsOf(User, UserRegs(e, pin), User, a);
      Kept(e, c, c2, 0, RouteWrites(e, pin), User, a);
    }
  }

  /**
   * asm330lhb_pin_intx_route_set changes only the routing registers of its
   * pin and INT_CFG1. The caller's struct changes only once the switch back
   * to the user bank succeeded, and then by intx_emb_func alone. On success
   * the device holds that struct as the pin's routing, and INT_CFG1 differs
   * from before only in interrupts_enable, derived from the base routing
   * bits of both pins, the other pin's as the device holds them.
   */
  lemma RouteSetEffect(e: Env, c: Chip, pin: Pin, v: Route)
    requires Coherent(e, c) && Fields(e.lay) && RoutingLayout(e.lay)
    ensures var r := RouteSet(e, c, pin, v);
      var a := Addr(e, IntCfg1);
      && Confined(e, c, r.c, r.st, RouteFrame(e, pin))
      && (r.v == v || r.v == Routed(e, pin, v))
      && (r.st == 0 ==>
           && r.c.bank == User && r.v == Routed(e, pin, v)
           && RouteOf(e, r.c, pin) == r.v
           && r.c.user[a] == Set(c.user[a], Fld(e, InterruptsEnable),
                                 Flag(BaseRouted(e, pin, r.v) || BaseRouted(e, Mirror(pin), RouteOf(e, r.c, Mirror(pin))))))
  {
    var p := EmbWriteSeq(e, c, EmbRegs(e, pin), RouteBytes(v)[..4]);
    RouteWritesEffect(e, c, pin, v);
    if p.st != 0 {
      SameWiden(e, c, p.c, Cells(Embedded, EmbRegs(e, pin)), RouteFrame(e, pin));
    } else {
      var v1 := Routed(e, pin, v);
      var u := WriteSeq(e, p.c, UserRegs(e, pin), RouteBytes(v1)[4..]);
      if u.st != 0 {
        SameWiden(e, c, u.c, RouteWrites(e, pin), RouteFrame(e, pin));
      } else {
        RouteSetTail(e, c, u.c, pin, v1);
      }
    }
  }

  /**
   * On success interrupts_enable is set exactly when a base routing bit of
   * the pin or of the other pin is set as the device holds them, and the
   * pin's intx_emb_func exactly when one of its embedded routing bits is.
   */
  lemma RouteSetEnables(e: Env, c: Chip, pin: Pin, v: Route)
    requires Coherent(e, c) && Fields(e.lay) && RoutingLayout(e.lay)
    ensures var r := RouteSet(e, c, pin, v);
      var ie := Get(r.c.user[Addr(e, IntCfg1)], Fld(e, InterruptsEnable));
      var ef := Get(RouteOf(e, r.c, pin).md, Fld(e, EmbFuncField(pin)));
      r.st == 0 ==>
        && (ie == 1 <==> BaseRouted(e, pin, RouteOf(e, r.c, pin)) || BaseRouted(e, Mirror(pin), RouteOf(e, r.c, Mirror(pin))))
        && (ie == 0 <==> !(BaseRouted(e, pin, RouteOf(e, r.c, pin)) || BaseRouted(e, Mirror(pin), RouteOf(e, r.c, Mirror(pin)))))
        && (ef == 1 <==> EmbRouted(e, pin, v))
  {
    var r := RouteSet(e, c, pin, v);
    RouteSetEffect(e, c, pin, v);
    if r.st == 0 {
      var en := BaseRouted(e, pin, r.v) || BaseRouted(e, Mirror(pin), RouteOf(e, r.c, Mirror(pin)));
      SetFlag(c.user[Addr(e, IntCfg1)], Fld(e, InterruptsEnable), en);
      RoutedEmbFunc(e, pin, v);
    }
  }

  /** A successful setter followed by a successful getter returns the struct the setter left. */
  lemma RouteSetThenGet(e: Env, c: Chip, pin: Pin, v: Route, w: Route)
    requires Coherent(e, c) && Fields(e.lay) && RoutingLayout(e.lay)
    ensures var s := RouteSet(e, c, pin, v);
      var g := RouteGet(e, s.c, pin, w);
      s.st == 0 && g.st == 0 ==> g.v == s.v
  {
    var s := RouteSet(e, c, pin, v);
    RouteSetEffect(e, c, pin, v);
    RouteGetEffect(e, s.c, pin, w);
  }

  // ---------------------------------------------------------------------
  // asm330lhb_all_sources_get

  /**
   * asm330lhb_all_sources_t as the getter fills it: ALL_INT_SRC, WAKE_UP_SRC,
   * D6D_SRC and STATUS_REG of the user bank, then EMB_FUNC_STATUS,
   * FSM_STATUS_A, FSM_STATUS_B and MLC_STATUS of the embedded-functions bank.
   */
  datatype Sources = Sources(allInt: bv8, wakeUp: bv8, d6d: bv8, status: bv8,
                             embFunc: bv8, fsmA: bv8, fsmB: bv8, mlc: bv8)

  function SourcesBytes(v: Sources): (r: seq<bv8>)
  {
    [v.allInt, v.wakeUp, v.d6d, v.status, v.embFunc, v.fsmA, v.fsmB, v.mlc]
  }

  function SourcesOfBytes(s: seq<bv8>): (r: Sources)
    requires |s| == 8
    ensures SourcesBytes(r) == s
  {
    Sources(s[0], s[1], s[2], s[3], s[4], s[5], s[6], s[7])
  }

  function SourceUserRegs(e: Env): seq<RegAddr>
  {
    [Addr(e, AllIntSrc), Addr(e, WakeUpSrc), Addr(e, D6dSrc), Addr(e, StatusReg)]
  }

  function SourceEmbRegs(e: Env): seq<RegAddr>
  {
    [Addr(e, EmbFuncStatus), Addr(e, FsmStatusA), Addr(e, FsmStatusB), Addr(e, MlcStatus)]
  }

  /** The sources as the device holds them, the first four in the selected bank. */
  function SourcesOf(e: Env, c: Chip): Sources
    requires Coherent(e, c)
  {
    var u := SourceUserRegs(e);
    var m := SourceEmbRegs(e);
    var f := File(c, c.bank);
    Sources(f[u[0]], f[u[1]], f[u[2]], f[u[3]], c.emb[m[0]], c.emb[m[1]], c.emb[m[2]], c.emb[m[3]])
  }

  /**
   * The getter reads the four registers of the selected bank, then switches
   * to the embedded-functions bank for the other four and back, into the
   * caller's struct; fields whose read did not succeed keep their value.
   */
  function AllSourcesGet(e: Env, c: Chip, v: Sources): (r: Res<Sources>)
    requires Coherent(e, c)
    ensures Coherent(e, r.c)
  {
    var u := ReadSeq(e, c, SourceUserRegs(e));
    if u.st != 0 then Res(u.c, u.st, SourcesOfBytes(Overwrite(SourcesBytes(v), u.v))) else
    var m := EmbReadSeq(e, u.c, SourceEmbRegs(e));
    Res(m.c, m.st, SourcesOfBytes(Overwrite(SourcesBytes(v), u.v + m.v)))
  }

  /** The status registers of the embedded-functions bank are apart from FUNC_CFG_ACCESS. */
  predicate SourcesLayout(lay: Layout)
  {
    Apart(lay, EmbFuncStatus) && Apart(lay, FsmStatusA) && Apart(lay, FsmStatusB) && Apart(lay, MlcStatus)
  }

  /**
   * asm330lhb_all_sources_get changes no register; on success it returns the
   * eight source registers as the device holds them, whatever the caller's
   * struct held, with the user bank selected.
   */
  lemma AllSourcesGetEffect(e: Env, c: Chip, v: Sources)
    requires Coherent(e, c) && SourcesLayout(e.lay)
    ensures var r := AllSourcesGet(e, c, v);
      && Confined(e, c, r.c, r.st, {})
      && (r.st == 0 ==> r.c.bank == User && r.v == SourcesOf(e, c))
  {
    var u := ReadSeq(e, c, SourceUserRegs(e));
    ReadSeqEffect(e, c, SourceUserRegs(e));
    if u.st == 0 {
      AllSourcesTail(e, c, u.c, u.v, v);
    }
  }

  /** The embedded half of the getter, after the reads of the selected bank changed nothing. */
  lemma AllSourcesTail(e: Env, c: Chip, c1: Chip, uv: seq<bv8>, v: Sources)
    requires Coherent(e, c) && Coherent(e, c1) && SourcesLayout(e.lay)
    requires Confined(e, c, c1, 0, {}) && c1.bank == c.bank && c1.user == c.user && c1.emb == c.emb
    requires |uv| == 4 && forall i :: 0 <= i < 4 ==> uv[i] == File(c, c.bank)[SourceUserRegs(e)[i]]
    ensures var m := EmbReadSeq(e, c1, SourceEmbRegs(e));
      && Confined(e, c, m.c, m.st, {})
      && (m.st == 0 ==> m.c.bank == User && SourcesOfBytes(Overwrite(SourcesBytes(v), uv + m.v)) == SourcesOf(e, c))
  {
    var m := EmbReadSeq(e, c1, SourceEmbRegs(e));
    EmbReadSeqEffect(e, c1, SourceEmbRegs(e));
    ConfinedTrans(e, c, c1, m.c, m.st, {}, {});
    assert Nothing() + Nothing() == Nothing();
    if m.st == 0 {
      SourcesRead(e, c, uv, m.v);
      assert Overwrite(SourcesBytes(v), uv + m.v) == uv + m.v;
    }
  }

  /** Four bytes read from the selected bank and four from the embedded one make up the sources. */
  lemma SourcesRead(e: Env, c: Chip, uv: seq<bv8>, mv: seq<bv8>)
    requires Coherent(e, c)
    requires |uv| == 4 && forall i :: 0 <= i < 4 ==> uv[i] == File(c, c.bank)[SourceUserRegs(e)[i]]
    requires |mv| == 4 && forall i :: 0 <= i < 4 ==> mv[i] == c.emb[SourceEmbRegs(e)[i]]
    ensures uv + mv == SourcesBytes(SourcesOf(e, c))
  {
  }
}
