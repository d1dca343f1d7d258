// The paged memory of the embedded-functions bank, reached through PAGE_RW
// (read or write mode), PAGE_SEL (page), PAGE_ADDRESS (offset in the page)
// and PAGE_VALUE (data), as values.
//
// What the chip does with PAGE_VALUE is outside this model: the properties
// are stated over the transaction log, as the sequence of paging operations
// the driver committed (`Trace`).

module Paging {
  import opened Bits
  import opened Layout
  import opened Bus
  import opened Engines

  /** What one committed transaction does to the paging registers. */
  datatype PageOp =
    | SelectBank(b: Bank)            // FUNC_CFG_ACCESS written
    | Mode(rw: bv8)                  // PAGE_RW.page_rw written
    | Select(page: bv8, marker: bv8) // PAGE_SEL.page_sel and not_used_01 written
    | Offset(o: bv8)                 // PAGE_ADDRESS written
    | Value(v: bv8)                  // PAGE_VALUE written
    | Fetch(n: nat)                  // n bytes read from PAGE_VALUE
    | Poke(bank: Bank, a: RegAddr)   // any other write

  /** The paging registers, their distinct addresses and the PAGE_SEL fields. */
  predicate PagingLayout(lay: Layout)
    requires Fields(lay)
  {
    && Apart(lay, PageSel) && Apart(lay, PageRw) && Apart(lay, PageAddress) && ApartN(lay, PageValue, 2)
    && Fit(lay, PageValue, 2)
    && Differ(lay, PageRw, PageSel) && Differ(lay, PageRw, PageAddress) && Differ(lay, PageRw, PageValue)
    && Differ(lay, PageSel, PageAddress) && Differ(lay, PageSel, PageValue) && Differ(lay, PageAddress, PageValue)
    && Clear(lay, PageSelField, PageSelNotUsed01) && Bit(lay, PageSelNotUsed01)
  }

  /** The meaning of a committed single-byte write. */
  function OpOf(e: Env, bank: Bank, a: RegAddr, b: bv8): PageOp
    requires Fields(e.lay) && BankAccess(e.lay)
  {
    if a == Fca(e) then SelectBank(BankOf(e.lay, b))
    else if bank == User then Poke(bank, a)
    else if a == Addr(e, PageRw) then Mode(Get(b, Fld(e, PageRwField)))
    else if a == Addr(e, PageSel) then Select(Get(b, Fld(e, PageSelField)), Get(b, Fld(e, PageSelNotUsed01)))
    else if a == Addr(e, PageAddress) then Offset(b)
    else if a == Addr(e, PageValue) then Value(b)
    else Poke(bank, a)
  }

  /** The paging operation a transaction performed, if any. */
  function Step(e: Env, t: Txn): seq<PageOp>
    requires Fields(e.lay) && BankAccess(e.lay)
  {
    if t.st != 0 then []
    else if t.Wr? then (if |t.data| == 1 then [OpOf(e, t.bank, t.reg, t.data[0])] else [Poke(t.bank, t.reg)])
    else if t.bank == Embedded && t.reg == Addr(e, PageValue) then [Fetch(t.len)]
    else []
  }

  /** The paging operations of a log: its committed writes and its successful PAGE_VALUE reads. */
  function Trace(e: Env, d: seq<Txn>): seq<PageOp>
    requires Fields(e.lay) && BankAccess(e.lay)
    decreases |d|, 1
  {
    if d == [] then [] else Then(e, d[0], d[1..])
  }

  /** The paging operation of `t` followed by those of the transactions after it. */
  function Then(e: Env, t: Txn, rest: seq<Txn>): seq<PageOp>
    requires Fields(e.lay) && BankAccess(e.lay)
    decreases |rest| + 1, 0
  {
    Step(e, t) + Trace(e, rest)
  }

  lemma {:induction false} TraceConcat(e: Env, d1: seq<Txn>, d2: seq<Txn>)
    requires Fields(e.lay) && BankAccess(e.lay)
    ensures Trace(e, d1 + d2) == Trace(e, d1) + Trace(e, d2)
    decreases |d1|
  {
    if d1 != [] {
      assert (d1 + d2)[0] == d1[0] && (d1 + d2)[1..] == d1[1..] + d2;
      TraceConcat(e, d1[1..], d2);
      calc {
        Trace(e, d1 + d2);
        Then(e, d1[0], d1[1..] + d2);
        Step(e, d1[0]) + Trace(e, d1[1..] + d2);
        Step(e, d1[0]) + (Trace(e, d1[1..]) + Trace(e, d2));
        (Step(e, d1[0]) + Trace(e, d1[1..])) + Trace(e, d2);
        { assert Trace(e, d1) == Then(e, d1[0], d1[1..]); }
        Trace(e, d1) + Trace(e, d2);
      }
    } else {
      assert d1 + d2 == d2;
    }
  }

  lemma TraceOne(e: Env, t: Txn)
    requires Fields(e.lay) && BankAccess(e.lay)
    ensures Trace(e, [t]) == Step(e, t)
  {
    assert [t][1..] == [];
    assert Trace(e, [t]) == Then(e, t, []);
    assert Then(e, t, []) == Step(e, t) + Trace(e, []);
  }

  lemma TraceTwo(e: Env, t1: Txn, t2: Txn)
    requires Fields(e.lay) && BankAccess(e.lay)
    ensures Trace(e, [t1, t2]) == Step(e, t1) + Step(e, t2)
  {
    TraceConcat(e, [t1], [t2]);
    TraceOne(e, t1);
    TraceOne(e, t2);
  }

  // ---------------------------------------------------------------------
  // The driver's paging steps

  /**
   * One step of the paging sequences of the driver. The driver chains them
   * with `if (ret == 0)`, so each runs only if every step before it returned 0.
   */
  datatype Cmd =
    | Switch(b: Bank)                 // asm330lhb_mem_bank_set
    | SetMode(rw: bv8)                // read PAGE_RW, page_rw := rw, write it back
    | SetPage(page: bv8, load: bool) // read PAGE_SEL into the local if load; page_sel := page, not_used_01 := 1; write the local
    | SetOffset(o: bv8)               // write PAGE_ADDRESS
    | PutValue(v: bv8)                // write one byte to PAGE_VALUE
    | FetchValue                      // read two bytes from PAGE_VALUE

  /** The locals that outlive a step: the PAGE_SEL struct and the bytes read from PAGE_VALUE. */
  datatype Locals = Locals(sel: bv8, fetched: seq<bv8>)

  /** PAGE_SEL.page_sel := page and PAGE_SEL.not_used_01 := 1, in the driver's order. */
  function SelUps(e: Env, page: bv8): seq<Update>
  {
    [Update(Fld(e, PageSelField), page), Update(Fld(e, PageSelNotUsed01), 1)]
  }

  /** Assign the page to the PAGE_SEL local and write it. */
  function Assign(e: Env, c: Chip, loc: Locals, page: bv8): (r: Res<Locals>)
    requires Coherent(e, c) && Fields(e.lay)
    ensures Coherent(e, r.c)
  {
    var sel := Overlay(loc.sel, SelUps(e, page));
    var w := WriteReg(e, c, Addr(e, PageSel), [sel]);
    Res(w.c, w.st, loc.(sel := sel))
  }

  /** One step, with its status. */
  function Exec(e: Env, c: Chip, loc: Locals, cmd: Cmd): (r: Res<Locals>)
    requires Coherent(e, c) && Fields(e.lay) && Fit(e.lay, PageValue, 2)
    ensures Coherent(e, r.c)
  {
    match cmd
    case Switch(b) =>
      var s := MemBankSet(e, c, b);
      Res(s.c, s.st, loc)
    case SetMode(rw) =>
      var s := SetFields(e, c, Addr(e, PageRw), [Update(Fld(e, PageRwField), rw)]);
      Res(s.c, s.st, loc)
    case SetPage(page, load) =>
      if !load then Assign(e, c, loc, page) else
      var rd := ReadReg(e, c, Addr(e, PageSel), 1);
      if rd.st != 0 then Res(rd.c, rd.st, loc) else Assign(e, rd.c, loc.(sel := rd.v[0]), page)
    case SetOffset(o) =>
      var w := WriteReg(e, c, Addr(e, PageAddress), [o]);
      Res(w.c, w.st, loc)
    case PutValue(v) =>
      var w := WriteReg(e, c, Addr(e, PageValue), [v]);
      Res(w.c, w.st, loc)
    case FetchValue =>
      var rd := ReadReg(e, c, Addr(e, PageValue), 2);
      Res(rd.c, rd.st, if rd.st == 0 then loc.(fetched := rd.v) else loc)
  }

  /** The steps in order, up to and including the first that fails; the status is that step's, or 0. */
  function Run(e: Env, c: Chip, loc: Locals, cmds: seq<Cmd>): (r: Res<Locals>)
    requires Coherent(e, c) && Fields(e.lay) && Fit(e.lay, PageValue, 2)
    ensures Coherent(e, r.c)
    decreases |cmds|
  {
    if cmds == [] then Res(c, 0, loc) else
    var x := Exec(e, c, loc, cmds[0]);
    if x.st != 0 then x else Run(e, x.c, x.v, cmds[1..])
  }

  /** The paging operation a step commits when it succeeds. */
  function Op(e: Env, cmd: Cmd): PageOp
    requires Fields(e.lay)
  {
    match cmd
    case Switch(b) => SelectBank(b)
    case SetMode(rw) => Mode(Trunc(Fld(e, PageRwField), rw))
    case SetPage(page, _) => Select(Trunc(Fld(e, PageSelField), page), 1)
    case SetOffset(o) => Offset(o)
    case PutValue(v) => Value(v)
    case FetchValue => Fetch(2)
  }

  /** The paging operations of steps that all succeed. */
  function Plan(e: Env, cmds: seq<Cmd>): seq<PageOp>
    requires Fields(e.lay)
  {
    seq(|cmds|, i requires 0 <= i < |cmds| => Op(e, cmds[i]))
  }

  /** The bank selected after a successful step. */
  function Next(b: Bank, cmd: Cmd): Bank
  {
    if cmd.Switch? then cmd.b else b
  }

  /** No step switches bank: the steps between the two switches of a paging sequence. */
  predicate Paged(cmds: seq<Cmd>)
  {
    forall i :: 0 <= i < |cmds| ==> !cmds[i].Switch?
  }

  /** The registers a step may change. */
  function Touch(e: Env, cmd: Cmd): set<(Bank, int)>
  {
    match cmd
    case Switch(_) => {}
    case SetMode(_) => {(Embedded, Addr(e, PageRw))}
    case SetPage(_, _) => {(Embedded, Addr(e, PageSel))}
    case SetOffset(_) => {(Embedded, Addr(e, PageAddress))}
    case PutValue(_) => {(Embedded, Addr(e, PageValue))}
    case FetchValue => {}
  }

  /** The transactions a step issues when they all succeed. */
  function Cost(cmd: Cmd): nat
  {
    match cmd
    case Switch(_) => 2
    case SetMode(_) => 2
    case SetPage(_, load) => if load then 2 else 1
    case SetOffset(_) => 1
    case PutValue(_) => 1
    case FetchValue => 1
  }

  function Total(cmds: seq<Cmd>): nat
  {
    if cmds == [] then 0 else Cost(cmds[0]) + Total(cmds[1..])
  }

  /** The registers the paging steps may change. */
  function PageFrame(e: Env): set<(Bank, int)>
  {
    {(Embedded, Addr(e, PageRw)), (Embedded, Addr(e, PageSel)), (Embedded, Addr(e, PageAddress)), (Embedded, Addr(e, PageValue))}
  }

  // ---------------------------------------------------------------------
  // Each step, alone

  /** The paging operations of consecutive steps are those of the first followed by those of the second. */
  lemma Link(e: Env, c0: Chip, c1: Chip, c2: Chip)
    requires Fields(e.lay) && BankAccess(e.lay) && Extends(c0, c1) && Extends(c1, c2)
    ensures Extends(c0, c2) && Trace(e, Delta(c0, c2)) == Trace(e, Delta(c0, c1)) + Trace(e, Delta(c1, c2))
  {
    DeltaSplit(c0, c1, c2);
    TraceConcat(e, Delta(c0, c1), Delta(c1, c2));
  }

  /** A bank switch commits one write of FUNC_CFG_ACCESS, selecting the bank, exactly when it succeeds. */
  lemma BankTrace(e: Env, c: Chip, b: Bank)
    requires Coherent(e, c) && Fields(e.lay) && PagingLayout(e.lay)
    ensures var r := MemBankSet(e, c, b);
      Extends(c, r.c) && Trace(e, Delta(c, r.c)) == if r.st == 0 then [SelectBank(b)] else []
  {
    var a := Addr(e, FuncCfgAccess);
    var rd := ReadReg(e, c, a, 1);
    MemBankSetEffect(e, c, b);
    MemBankSetBank(e, c, b);
    if rd.st == 0 {
      var byte := Set(rd.v[0], Fld(e, RegAccess), BankCode(e.lay, b));
      var w := WriteReg(e, rd.c, a, [byte]);
      assert Delta(c, w.c) == [Rd(c.bank, a, 1, 0), Wr(c.bank, a, [byte], w.st)];
      TraceTwo(e, Rd(c.bank, a, 1, 0), Wr(c.bank, a, [byte], w.st));
    } else {
      assert Delta(c, rd.c) == [Rd(c.bank, a, 1, rd.st)];
      TraceOne(e, Rd(c.bank, a, 1, rd.st));
    }
  }

  /** A read of a register other than PAGE_VALUE commits nothing. */
  lemma ReadTrace(e: Env, c: Chip, a: RegAddr)
    requires Coherent(e, c) && Fields(e.lay) && a != Addr(e, PageValue)
    ensures var r := ReadReg(e, c, a, 1);
      Extends(c, r.c) && Trace(e, Delta(c, r.c)) == [] && r.c.bank == c.bank
  {
    ReadRegConfined(e, c, a, 1);
    TraceOne(e, Rd(c.bank, a, 1, e.fail(|c.log|)));
  }

  /** The read of PAGE_VALUE in the embedded-functions bank commits the fetch, exactly when it succeeds. */
  lemma FetchTrace(e: Env, c: Chip)
    requires Coherent(e, c) && Fields(e.lay) && PagingLayout(e.lay) && c.bank == Embedded
    ensures var r := ReadReg(e, c, Addr(e, PageValue), 2);
      Extends(c, r.c) && r.c.bank == c.bank && Trace(e, Delta(c, r.c)) == if r.st == 0 then [Fetch(2)] else []
  {
    ReadRegConfined(e, c, Addr(e, PageValue), 2);
    TraceOne(e, Rd(c.bank, Addr(e, PageValue), 2, e.fail(|c.log|)));
  }

  /** A single-byte write away from FUNC_CFG_ACCESS commits its operation exactly when it succeeds. */
  lemma WriteTrace(e: Env, c: Chip, a: RegAddr, byte: bv8)
    requires Coherent(e, c) && Fields(e.lay) && a != Fca(e)
    ensures var r := WriteReg(e, c, a, [byte]);
      && Extends(c, r.c) && r.c.bank == c.bank
      && Trace(e, Delta(c, r.c)) == if r.st == 0 then [OpOf(e, c.bank, a, byte)] else []
  {
    WriteConfined(e, c, a, byte);
    TraceOne(e, Wr(c.bank, a, [byte], e.fail(|c.log|)));
  }

  /** The read-modify-write of PAGE_RW commits the mode, exactly when it succeeds. */
  lemma ModeTrace(e: Env, c: Chip, v: bv8)
    requires Coherent(e, c) && Fields(e.lay) && PagingLayout(e.lay) && c.bank == Embedded
    ensures var r := SetFields(e, c, Addr(e, PageRw), [Update(Fld(e, PageRwField), v)]);
      && Extends(c, r.c) && r.c.bank == Embedded
      && Trace(e, Delta(c, r.c)) == if r.st == 0 then [Mode(Trunc(Fld(e, PageRwField), v))] else []
  {
    var a := Addr(e, PageRw);
    var ups := [Update(Fld(e, PageRwField), v)];
    SetFieldsEffect(e, c, a, ups);
    var rd := ReadReg(e, c, a, 1);
    ReadTrace(e, c, a);
    if rd.st == 0 {
      var byte := Overlay(rd.v[0], ups);
      WriteTrace(e, rd.c, a, byte);
      Link(e, c, rd.c, WriteReg(e, rd.c, a, [byte]).c);
      OverlayGet(rd.v[0], ups, 0);
    }
  }

  /** Writing the PAGE_SEL local commits the page with not_used_01 set, exactly when it succeeds. */
  lemma AssignTrace(e: Env, c: Chip, loc: Locals, page: bv8)
    requires Coherent(e, c) && Fields(e.lay) && PagingLayout(e.lay) && c.bank == Embedded
    ensures var r := Assign(e, c, loc, page);
      && Extends(c, r.c) && r.c.bank == Embedded
      && Trace(e, Delta(c, r.c)) == if r.st == 0 then [Select(Trunc(Fld(e, PageSelField), page), 1)] else []
  {
    var ups := SelUps(e, page);
    WriteTrace(e, c, Addr(e, PageSel), Overlay(loc.sel, ups));
    assert Disjoint(ups);
    OverlayGet(loc.sel, ups, 0);
    OverlayGet(loc.sel, ups, 1);
  }

  /** A write of PAGE_ADDRESS in the embedded-functions bank sets the offset. */
  lemma OffsetOp(e: Env, b: bv8)
    requires Fields(e.lay) && BankAccess(e.lay) && PagingLayout(e.lay)
    ensures OpOf(e, Embedded, Addr(e, PageAddress), b) == Offset(b)
  {
  }

  /** A write of PAGE_VALUE in the embedded-functions bank is a data byte. */
  lemma ValueOp(e: Env, b: bv8)
    requires Fields(e.lay) && BankAccess(e.lay) && PagingLayout(e.lay)
    ensures OpOf(e, Embedded, Addr(e, PageValue), b) == Value(b)
  {
  }

  /**
   * A step run in the bank it expects commits its operation exactly when it
   * succeeds, and then leaves the bank it selects.
   */
  lemma ExecTrace(e: Env, c: Chip, loc: Locals, cmd: Cmd)
    requires Coherent(e, c) && Fields(e.lay) && PagingLayout(e.lay) && (cmd.Switch? || c.bank == Embedded)
    ensures var r := Exec(e, c, loc, cmd);
      && Extends(c, r.c)
      && (r.st == 0 ==> Trace(e, Delta(c, r.c)) == [Op(e, cmd)] && r.c.bank == Next(c.bank, cmd))
      && (r.st != 0 ==> Trace(e, Delta(c, r.c)) == [] && r.c.bank == c.bank)
  {
    match cmd
    case Switch(b) =>
      BankTrace(e, c, b);
      MemBankSetBank(e, c, b);
    case SetMode(rw) =>
      ModeTrace(e, c, rw);
    case SetPage(page, load) =>
      if !load {
        AssignTrace(e, c, loc, page);
      } else {
        var rd := ReadReg(e, c, Addr(e, PageSel), 1);
        ReadTrace(e, c, Addr(e, PageSel));
        if rd.st == 0 {
          var s := Assign(e, rd.c, loc.(sel := rd.v[0]), page);
          AssignTrace(e, rd.c, loc.(sel := rd.v[0]), page);
          Link(e, c, rd.c, s.c);
        }
      }
    case SetOffset(o) =>
      WriteTrace(e, c, Addr(e, PageAddress), o);
      OffsetOp(e, o);
    case PutValue(v) =>
      WriteTrace(e, c, Addr(e, PageValue), v);
      ValueOp(e, v);
    case FetchValue =>
      FetchTrace(e, c);
  }

  /** A step keeps the driver's error discipline and changes at most the register it addresses. */
  lemma ExecFrame(e: Env, c: Chip, loc: Locals, cmd: Cmd)
    requires Coherent(e, c) && Fields(e.lay) && PagingLayout(e.lay) && (cmd.Switch? || c.bank == Embedded)
    ensures var r := Exec(e, c, loc, cmd);
      Confined(e, c, r.c, r.st, Touch(e, cmd))
  {
    match cmd
    case Switch(b) =>
      MemBankSetSelects(e, c, b);
    case SetMode(rw) =>
      SetFieldsEffect(e, c, Addr(e, PageRw), [Update(Fld(e, PageRwField), rw)]);
    case SetPage(page, load) =>
      var w := {(Embedded, Addr(e, PageSel))};
      if !load {
        WriteConfined(e, c, Addr(e, PageSel), Overlay(loc.sel, SelUps(e, page)));
      } else {
        var rd := ReadReg(e, c, Addr(e, PageSel), 1);
        ReadRegConfined(e, c, Addr(e, PageSel), 1);
        if rd.st == 0 {
          var l := loc.(sel := rd.v[0]);
          WriteConfined(e, rd.c, Addr(e, PageSel), Overlay(l.sel, SelUps(e, page)));
          ConfinedTrans(e, c, rd.c, Assign(e, rd.c, l, page).c, Assign(e, rd.c, l, page).st, {}, w);
          assert {} + w == w;
        }
      }
    case SetOffset(o) =>
      WriteConfined(e, c, Addr(e, PageAddress), o);
    case PutValue(v) =>
      WriteConfined(e, c, Addr(e, PageValue), v);
    case FetchValue =>
      ReadRegConfined(e, c, Addr(e, PageValue), 2);
  }

  /** A step whose transactions all succeed reports success after issuing exactly its cost in transactions. */
  lemma ExecOk(e: Env, c: Chip, loc: Locals, cmd: Cmd)
    requires Coherent(e, c) && Fields(e.lay) && Fit(e.lay, PageValue, 2) && Succeed(e, |c.log|, Cost(cmd))
    ensures var r := Exec(e, c, loc, cmd);
      r.st == 0 && |r.c.log| == |c.log| + Cost(cmd)
  {
    var k := |c.log|;
    assert e.fail(k) == 0;
    match cmd
    case Switch(b) =>
      assert e.fail(k + 1) == 0;
      MemBankSetOk(e, c, b);
    case SetMode(rw) =>
      assert e.fail(k + 1) == 0;
      SetFieldsOk(e, c, Addr(e, PageRw), [Update(Fld(e, PageRwField), rw)]);
    case SetPage(page, load) =>
      if load {
        assert e.fail(k + 1) == 0;
      }
    case SetOffset(o) =>
    case PutValue(v) =>
    case FetchValue =>
  }

  // ---------------------------------------------------------------------
  // Steps in sequence

  /** Running two lists of steps is running the first and, if it succeeded, the second. */
  lemma {:induction false} RunConcat(e: Env, c: Chip, loc: Locals, a: seq<Cmd>, b: seq<Cmd>)
    requires Coherent(e, c) && Fields(e.lay) && Fit(e.lay, PageValue, 2)
    ensures Run(e, c, loc, a + b) == var x := Run(e, c, loc, a); if x.st != 0 then x else Run(e, x.c, x.v, b)
    decreases |a|
  {
    if a == [] {
      assert a + b == b;
    } else {
      assert (a + b)[0] == a[0] && (a + b)[1..] == a[1..] + b;
      var x := Exec(e, c, loc, a[0]);
      if x.st == 0 {
        RunConcat(e, x.c, x.v, a[1..], b);
      }
    }
  }

  /**
   * Steps that do not switch bank, run in the embedded-functions bank, stay
   * there; they commit their plan when they all succeed, and a strict prefix
   * of it when one fails.
   */
  lemma {:induction false} RunPagedTrace(e: Env, c: Chip, loc: Locals, cmds: seq<Cmd>)
    requires Coherent(e, c) && Fields(e.lay) && PagingLayout(e.lay) && c.bank == Embedded && Paged(cmds)
    ensures var r := Run(e, c, loc, cmds);
      && Extends(c, r.c) && r.c.bank == Embedded
      && (r.st == 0 ==> Trace(e, Delta(c, r.c)) == Plan(e, cmds))
      && (r.st != 0 ==> Trace(e, Delta(c, r.c)) < Plan(e, cmds))
    decreases |cmds|
  {
    if cmds == [] {
      assert Delta(c, c) == [];
    } else {
      var x := Exec(e, c, loc, cmds[0]);
      ExecTrace(e, c, loc, cmds[0]);
      assert Plan(e, cmds) == [Op(e, cmds[0])] + Plan(e, cmds[1..]);
      if x.st == 0 {
        assert Paged(cmds[1..]) by {
          forall i | 0 <= i < |cmds[1..]| ensures !cmds[1..][i].Switch? {
            assert cmds[1..][i] == cmds[i + 1];
          }
        }
        RunPagedTrace(e, x.c, x.v, cmds[1..]);
        var r := Run(e, x.c, x.v, cmds[1..]);
        Link(e, c, x.c, r.c);
      }
    }
  }

  /** Steps that do not switch bank, run in the embedded-functions bank, change only the registers they address. */
  lemma {:induction false} RunFrame(e: Env, c: Chip, loc: Locals, cmds: seq<Cmd>, w: set<(Bank, int)>)
    requires Coherent(e, c) && Fields(e.lay) && PagingLayout(e.lay) && c.bank == Embedded && Paged(cmds)
    requires cmds != [] && forall i :: 0 <= i < |cmds| ==> Touch(e, cmds[i]) <= w
    ensures var r := Run(e, c, loc, cmds);
      Confined(e, c, r.c, r.st, w)
    decreases |cmds|
  {
    var x := Exec(e, c, loc, cmds[0]);
    ExecFrame(e, c, loc, cmds[0]);
    ExecTrace(e, c, loc, cmds[0]);
    SameWiden(e, c, x.c, Touch(e, cmds[0]), w);
    if x.st == 0 && |cmds| > 1 {
      assert Paged(cmds[1..]) && forall i :: 0 <= i < |cmds[1..]| ==> Touch(e, cmds[1..][i]) <= w by {
        forall i | 0 <= i < |cmds[1..]| ensures !cmds[1..][i].Switch? && Touch(e, cmds[1..][i]) <= w {
          assert cmds[1..][i] == cmds[i + 1];
        }
      }
      RunFrame(e, x.c, x.v, cmds[1..], w);
      var r := Run(e, x.c, x.v, cmds[1..]);
      ConfinedTrans(e, c, x.c, r.c, r.st, w, w);
      assert w + w == w;
    } else if x.st == 0 {
      assert cmds[1..] == [];
    }
  }

  /** The transactions of consecutive lists of steps add up. */
  lemma {:induction false} TotalConcat(a: seq<Cmd>, b: seq<Cmd>)
    ensures Total(a + b) == Total(a) + Total(b)
    decreases |a|
  {
    if a == [] {
      assert a + b == b;
    } else {
      assert (a + b)[0] == a[0] && (a + b)[1..] == a[1..] + b;
      TotalConcat(a[1..], b);
    }
  }

  /** Steps whose transactions all succeed report success after issuing exactly their total. */
  lemma {:induction false} RunOk(e: Env, c: Chip, loc: Locals, cmds: seq<Cmd>)
    requires Coherent(e, c) && Fields(e.lay) && Fit(e.lay, PageValue, 2) && Succeed(e, |c.log|, Total(cmds))
    ensures var r := Run(e, c, loc, cmds);
      r.st == 0 && |r.c.log| == |c.log| + Total(cmds)
    decreases |cmds|
  {
    if cmds != [] {
      var k := |c.log|;
      var n := Cost(cmds[0]);
      assert Succeed(e, k, n);
      ExecOk(e, c, loc, cmds[0]);
      var x := Exec(e, c, loc, cmds[0]);
      assert Succeed(e, k + n, Total(cmds[1..]));
      RunOk(e, x.c, x.v, cmds[1..]);
    }
  }

  // ---------------------------------------------------------------------
  // A paging sequence: switch to the embedded-functions bank, page, switch back

  function Session(body: seq<Cmd>): seq<Cmd>
  {
    [Switch(Embedded)] + body + [Switch(User)]
  }

  /** The paging operations of a sequence whose transactions all succeed. */
  function Planned(e: Env, body: seq<Cmd>): seq<PageOp>
    requires Fields(e.lay)
  {
    [SelectBank(Embedded)] + Plan(e, body) + [SelectBank(User)]
  }

  /** A single bank switch, run as a list of steps. */
  lemma RunSwitch(e: Env, c: Chip, loc: Locals, b: Bank)
    requires Coherent(e, c) && Fields(e.lay) && Fit(e.lay, PageValue, 2)
    ensures Run(e, c, loc, [Switch(b)]) == Exec(e, c, loc, Switch(b))
  {
    assert [Switch(b)][1..] == [];
  }

  /** The body of a paging sequence and the switch back, run from the embedded-functions bank. */
  lemma TailTrace(e: Env, c: Chip, loc: Locals, body: seq<Cmd>)
    requires Coherent(e, c) && Fields(e.lay) && PagingLayout(e.lay) && Paged(body) && c.bank == Embedded
    ensures var r := Run(e, c, loc, body + [Switch(User)]);
      && Extends(c, r.c)
      && var t := Trace(e, Delta(c, r.c));
      && (r.st == 0 ==> t == Plan(e, body) + [SelectBank(User)] && r.c.bank == User)
      && (r.st != 0 ==> t < Plan(e, body) + [SelectBank(User)] && r.c.bank == Embedded)
  {
    RunConcat(e, c, loc, body, [Switch(User)]);
    var y := Run(e, c, loc, body);
    RunPagedTrace(e, c, loc, body);
    if y.st == 0 {
      var z := Exec(e, y.c, y.v, Switch(User));
      RunSwitch(e, y.c, y.v, User);
      ExecTrace(e, y.c, y.v, Switch(User));
      Link(e, c, y.c, z.c);
    }
  }

  /**
   * A paging sequence commits its planned operations when it succeeds and
   * then leaves the user bank selected; when a step fails it has committed a
   * strict prefix of them, and the embedded-functions bank stays selected
   * unless the very first switch failed.
   */
  lemma SessionTrace(e: Env, c: Chip, loc: Locals, body: seq<Cmd>)
    requires Coherent(e, c) && Fields(e.lay) && PagingLayout(e.lay) && Paged(body)
    ensures var r := Run(e, c, loc, Session(body));
      && Extends(c, r.c)
      && var t := Trace(e, Delta(c, r.c));
      && (r.st == 0 ==> t == Planned(e, body) && r.c.bank == User)
      && (r.st != 0 ==> t < Planned(e, body) && r.c.bank == if t == [] then c.bank else Embedded)
  {
    var x := Exec(e, c, loc, Switch(Embedded));
    ExecTrace(e, c, loc, Switch(Embedded));
    assert Session(body)[0] == Switch(Embedded) && Session(body)[1..] == body + [Switch(User)];
    if x.st == 0 {
      var y := Run(e, x.c, x.v, body + [Switch(User)]);
      TailTrace(e, x.c, x.v, body);
      Link(e, c, x.c, y.c);
      assert Planned(e, body) == [SelectBank(Embedded)] + (Plan(e, body) + [SelectBank(User)]);
    }
  }

  /** The body of a paging sequence and the switch back change only the registers the body addresses. */
  lemma TailFrame(e: Env, c: Chip, loc: Locals, body: seq<Cmd>, w: set<(Bank, int)>)
    requires Coherent(e, c) && Fields(e.lay) && PagingLayout(e.lay) && Paged(body) && c.bank == Embedded
    requires body != [] && forall i :: 0 <= i < |body| ==> Touch(e, body[i]) <= w
    ensures var r := Run(e, c, loc, body + [Switch(User)]);
      Confined(e, c, r.c, r.st, w)
  {
    RunConcat(e, c, loc, body, [Switch(User)]);
    var y := Run(e, c, loc, body);
    RunFrame(e, c, loc, body, w);
    RunPagedTrace(e, c, loc, body);
    if y.st == 0 {
      var z := Exec(e, y.c, y.v, Switch(User));
      RunSwitch(e, y.c, y.v, User);
      ExecFrame(e, y.c, y.v, Switch(User));
      ConfinedTrans(e, c, y.c, z.c, z.st, w, {});
      assert w + {} == w;
    }
  }

  /** A paging sequence keeps the driver's error discipline and changes only the registers its steps address. */
  lemma SessionFrame(e: Env, c: Chip, loc: Locals, body: seq<Cmd>, w: set<(Bank, int)>)
    requires Coherent(e, c) && Fields(e.lay) && PagingLayout(e.lay) && Paged(body)
    requires body != [] && forall i :: 0 <= i < |body| ==> Touch(e, body[i]) <= w
    ensures var r := Run(e, c, loc, Session(body));
      Confined(e, c, r.c, r.st, w)
  {
    var x := Exec(e, c, loc, Switch(Embedded));
    ExecFrame(e, c, loc, Switch(Embedded));
    ExecTrace(e, c, loc, Switch(Embedded));
    SameWiden(e, c, x.c, {}, w);
    assert Session(body)[0] == Switch(Embedded) && Session(body)[1..] == body + [Switch(User)];
    if x.st == 0 {
      var y := Run(e, x.c, x.v, body + [Switch(User)]);
      TailFrame(e, x.c, x.v, body, w);
      ConfinedTrans(e, c, x.c, y.c, y.st, {}, w);
      assert {} + w == w;
    }
  }

  /** A paging sequence whose transactions all succeed reports success after four more than its body's. */
  lemma SessionOk(e: Env, c: Chip, loc: Locals, body: seq<Cmd>)
    requires Coherent(e, c) && Fields(e.lay) && Fit(e.lay, PageValue, 2) && Succeed(e, |c.log|, Total(body) + 4)
    ensures var r := Run(e, c, loc, Session(body));
      r.st == 0 && |r.c.log| == |c.log| + Total(body) + 4
  {
    TotalConcat([Switch(Embedded)] + body, [Switch(User)]);
    TotalConcat([Switch(Embedded)], body);
    assert Total([Switch(Embedded)]) == 2 by { assert [Switch(Embedded)][1..] == []; }
    assert Total([Switch(User)]) == 2 by { assert [Switch(User)][1..] == []; }
    RunOk(e, c, loc, Session(body));
  }

  // ---------------------------------------------------------------------
  // asm330lhb_ln_pg_write_byte and asm330lhb_ln_pg_read_byte

  /** The PAGE_ADDRESS byte: `add` less the page the PAGE_SEL field kept times 256, cut to uint8_t. */
  function PageOffset(e: Env, add: bv16): bv8
    requires Fields(e.lay)
  {
    var page := Trunc(Fld(e, PageSelField), Hi(add) & 0x0F);
    ((add - (page as bv16) * 256) & 0xFF) as bv8
  }

  /** Whatever the page field keeps, the offset the driver writes is the low byte of the address. */
  lemma PageOffsetIsLow(e: Env, add: bv16)
    requires Fields(e.lay)
    ensures PageOffset(e, add) == Lo(add)
  {
    var page := Trunc(Fld(e, PageSelField), Hi(add) & 0x0F);
    SplitAsC(add - (page as bv16) * 256, 0);
    assert ((page as bv16) * 256) & 0xFF == 0;
  }

  /**
   * The steps between the bank switches of the single-byte functions: page
   * mode `rw`, the page `(add / 256) & 0x0F`, the offset, the transfer `x`,
   * and page mode 0.
   */
  function LineBody(e: Env, rw: bv8, add: bv16, x: Cmd): seq<Cmd>
    requires Fields(e.lay)
  {
    [SetMode(rw), SetPage(Hi(add) & 0x0F, true), SetOffset(PageOffset(e, add)), x, SetMode(0)]
  }

  /** asm330lhb_ln_pg_write_byte: one byte `val` to line `add` of the paged memory. */
  function LnPgWriteByte(e: Env, c: Chip, add: bv16, val: bv8): (r: Res<()>)
    requires Coherent(e, c) && Fields(e.lay) && Fit(e.lay, PageValue, 2)
    ensures Coherent(e, r.c)
  {
    var s := Run(e, c, Locals(0, []), Session(LineBody(e, 2, add, PutValue(val))));
    Res(s.c, s.st, ())
  }

  /** The destination has room for the two bytes the read transfers. */
  predicate Room(size: nat, at: nat)
  {
    at + 2 <= size
  }

  /**
   * asm330lhb_ln_pg_read_byte: the read of PAGE_VALUE transfers two bytes
   * into the caller's buffer from index `at`; they stay there whatever the
   * steps after it return.
   */
  function LnPgReadByte(e: Env, c: Chip, add: bv16, dst: seq<bv8>, at: nat): (r: Res<seq<bv8>>)
    requires Coherent(e, c) && Fields(e.lay) && Fit(e.lay, PageValue, 2) && Room(|dst|, at)
    ensures Coherent(e, r.c) && |r.v| == |dst|
  {
    var s := Run(e, c, Locals(0, []), Session(LineBody(e, 1, add, FetchValue)));
    var f := s.v.fetched;
    Res(s.c, s.st, if |f| == 2 then dst[at := f[0]][at + 1 := f[1]] else dst)
  }

  /** The paging operations of a successful asm330lhb_ln_pg_write_byte, in order. */
  function ByteWritten(e: Env, add: bv16, val: bv8): seq<PageOp>
    requires Fields(e.lay)
  {
    [ SelectBank(Embedded), Mode(Trunc(Fld(e, PageRwField), 2)), Select(Trunc(Fld(e, PageSelField), Hi(add) & 0x0F), 1)
    , Offset(Lo(add)), Value(val), Mode(0), SelectBank(User) ]
  }

  /** The paging operations of a successful asm330lhb_ln_pg_read_byte, in order. */
  function ByteRead(e: Env, add: bv16): seq<PageOp>
    requires Fields(e.lay)
  {
    [ SelectBank(Embedded), Mode(Trunc(Fld(e, PageRwField), 1)), Select(Trunc(Fld(e, PageSelField), Hi(add) & 0x0F), 1)
    , Offset(Lo(add)), Fetch(2), Mode(0), SelectBank(User) ]
  }

  /** The steps of a single-byte function plan what ByteWritten and ByteRead list. */
  lemma LineBodyPlan(e: Env, rw: bv8, add: bv16, x: Cmd)
    requires Fields(e.lay) && (x.PutValue? || x.FetchValue?)
    ensures Paged(LineBody(e, rw, add, x))
    ensures x.PutValue? && rw == 2 ==> Planned(e, LineBody(e, rw, add, x)) == ByteWritten(e, add, x.v)
    ensures x.FetchValue? && rw == 1 ==> Planned(e, LineBody(e, rw, add, x)) == ByteRead(e, add)
  {
    PageOffsetIsLow(e, add);
  }

  /**
   * asm330lhb_ln_pg_write_byte commits, in order: the embedded-functions
   * bank, page write mode, the page of `add` with the reserved bit set, the
   * offset `add mod 256`, the byte, page mode 0 and the user bank. The first
   * failure skips the rest, so the user bank is back only on full success.
   */
  lemma LnPgWriteByteProtocol(e: Env, c: Chip, add: bv16, val: bv8)
    requires Coherent(e, c) && Fields(e.lay) && PagingLayout(e.lay)
    ensures var r := LnPgWriteByte(e, c, add, val);
      && Extends(c, r.c)
      && var t := Trace(e, Delta(c, r.c));
      && (r.st == 0 ==> t == ByteWritten(e, add, val) && r.c.bank == User)
      && (r.st != 0 ==> t < ByteWritten(e, add, val) && r.c.bank == if t == [] then c.bank else Embedded)
  {
    LineBodyPlan(e, 2, add, PutValue(val));
    SessionTrace(e, c, Locals(0, []), LineBody(e, 2, add, PutValue(val)));
  }

  /** asm330lhb_ln_pg_read_byte commits the same sequence in page read mode, with the two-byte read in place of the write. */
  lemma LnPgReadByteProtocol(e: Env, c: Chip, add: bv16, dst: seq<bv8>, at: nat)
    requires Coherent(e, c) && Fields(e.lay) && PagingLayout(e.lay) && Room(|dst|, at)
    ensures var r := LnPgReadByte(e, c, add, dst, at);
      && Extends(c, r.c)
      && var t := Trace(e, Delta(c, r.c));
      && (r.st == 0 ==> t == ByteRead(e, add) && r.c.bank == User)
      && (r.st != 0 ==> t < ByteRead(e, add) && r.c.bank == if t == [] then c.bank else Embedded)
  {
    LineBodyPlan(e, 1, add, FetchValue);
    SessionTrace(e, c, Locals(0, []), LineBody(e, 1, add, FetchValue));
  }

  /** The registers asm330lhb_ln_pg_read_byte may change: not PAGE_VALUE. */
  function ReadFrame(e: Env): set<(Bank, int)>
  {
    {(Embedded, Addr(e, PageRw)), (Embedded, Addr(e, PageSel)), (Embedded, Addr(e, PageAddress))}
  }

  /** The second byte of the PAGE_VALUE read is none of the other paging registers. */
  predicate PairApart(lay: Layout)
  {
    && lay.addr(PageValue) + 1 != lay.addr(PageRw) && lay.addr(PageValue) + 1 != lay.addr(PageSel)
    && lay.addr(PageValue) + 1 != lay.addr(PageAddress)
  }

  /** asm330lhb_ln_pg_write_byte keeps the error discipline and changes only the four paging registers. */
  lemma LnPgWriteByteFrame(e: Env, c: Chip, add: bv16, val: bv8)
    requires Coherent(e, c) && Fields(e.lay) && PagingLayout(e.lay)
    ensures var r := LnPgWriteByte(e, c, add, val);
      Confined(e, c, r.c, r.st, PageFrame(e))
  {
    LineBodyPlan(e, 2, add, PutValue(val));
    SessionFrame(e, c, Locals(0, []), LineBody(e, 2, add, PutValue(val)), PageFrame(e));
  }

  /** asm330lhb_ln_pg_read_byte keeps the error discipline and changes no register but PAGE_RW, PAGE_SEL and PAGE_ADDRESS. */
  lemma LnPgReadByteFrame(e: Env, c: Chip, add: bv16, dst: seq<bv8>, at: nat)
    requires Coherent(e, c) && Fields(e.lay) && PagingLayout(e.lay) && Room(|dst|, at)
    ensures var r := LnPgReadByte(e, c, add, dst, at);
      Confined(e, c, r.c, r.st, ReadFrame(e))
  {
    LineBodyPlan(e, 1, add, FetchValue);
    SessionFrame(e, c, Locals(0, []), LineBody(e, 1, add, FetchValue), ReadFrame(e));
  }

  /** The single-byte functions issue twelve transactions; when all succeed they report success. */
  lemma LineBodyTotal(e: Env, rw: bv8, add: bv16, x: Cmd)
    requires Fields(e.lay) && (x.PutValue? || x.FetchValue?)
    ensures Total(LineBody(e, rw, add, x)) == 8
  {
    var b := LineBody(e, rw, add, x);
    assert Total(b[4..]) == 2 by { assert b[4..][1..] == []; }
    assert Total(b[3..]) == 3 by { assert b[3..][1..] == b[4..]; }
    assert Total(b[2..]) == 4 by { assert b[2..][1..] == b[3..]; }
    assert Total(b[1..]) == 6 by { assert b[1..][1..] == b[2..]; }
  }

  lemma LnPgWriteByteOk(e: Env, c: Chip, add: bv16, val: bv8)
    requires Coherent(e, c) && Fields(e.lay) && Fit(e.lay, PageValue, 2) && Succeed(e, |c.log|, 12)
    ensures var r := LnPgWriteByte(e, c, add, val);
      r.st == 0 && |r.c.log| == |c.log| + 12
  {
    LineBodyTotal(e, 2, add, PutValue(val));
    SessionOk(e, c, Locals(0, []), LineBody(e, 2, add, PutValue(val)));
  }

  lemma LnPgReadByteOk(e: Env, c: Chip, add: bv16, dst: seq<bv8>, at: nat)
    requires Coherent(e, c) && Fields(e.lay) && Fit(e.lay, PageValue, 2) && Room(|dst|, at) && Succeed(e, |c.log|, 12)
    ensures var r := LnPgReadByte(e, c, add, dst, at);
      r.st == 0 && |r.c.log| == |c.log| + 12
  {
    LineBodyTotal(e, 1, add, FetchValue);
    SessionOk(e, c, Locals(0, []), LineBody(e, 1, add, FetchValue));
  }

  /** Steps without a read of PAGE_VALUE keep the fetched bytes. */
  lemma {:induction false} RunKeepsFetched(e: Env, c: Chip, loc: Locals, cmds: seq<Cmd>)
    requires Coherent(e, c) && Fields(e.lay) && Fit(e.lay, PageValue, 2)
    requires forall i :: 0 <= i < |cmds| ==> !cmds[i].FetchValue?
    ensures Run(e, c, loc, cmds).v.fetched == loc.fetched
    decreases |cmds|
  {
    if cmds != [] {
      var x := Exec(e, c, loc, cmds[0]);
      if x.st == 0 {
        assert forall i :: 0 <= i < |cmds[1..]| ==> cmds[1..][i] == cmds[i + 1];
        RunKeepsFetched(e, x.c, x.v, cmds[1..]);
      }
    }
  }

  /** The switch to the embedded-functions bank and paged steps, when all succeed, change only what the steps address. */
  lemma OpenFrame(e: Env, c: Chip, loc: Locals, o: seq<Cmd>, w: set<(Bank, int)>)
    requires Coherent(e, c) && Fields(e.lay) && PagingLayout(e.lay) && Paged(o)
    requires o != [] && forall i :: 0 <= i < |o| ==> Touch(e, o[i]) <= w
    ensures var r := Run(e, c, loc, [Switch(Embedded)] + o);
      r.st == 0 ==> Confined(e, c, r.c, 0, w) && r.c.bank == Embedded
  {
    var x := Exec(e, c, loc, Switch(Embedded));
    ExecFrame(e, c, loc, Switch(Embedded));
    ExecTrace(e, c, loc, Switch(Embedded));
    assert ([Switch(Embedded)] + o)[0] == Switch(Embedded) && ([Switch(Embedded)] + o)[1..] == o;
    if x.st == 0 {
      var y := Run(e, x.c, x.v, o);
      RunFrame(e, x.c, x.v, o, w);
      RunPagedTrace(e, x.c, x.v, o);
      ConfinedTrans(e, c, x.c, y.c, y.st, {}, w);
      assert {} + w == w;
    }
  }

  /** Steps that leave PAGE_VALUE alone keep the two bytes from it. */
  lemma OpenKeepsValue(e: Env, c: Chip, loc: Locals, o: seq<Cmd>)
    requires Coherent(e, c) && Fields(e.lay) && PagingLayout(e.lay) && PairApart(e.lay) && Paged(o)
    requires o != [] && forall i :: 0 <= i < |o| ==> Touch(e, o[i]) <= ReadFrame(e)
    ensures var r := Run(e, c, loc, [Switch(Embedded)] + o);
      var pv := Addr(e, PageValue);
      r.st == 0 ==> r.c.bank == Embedded && r.c.emb[pv] == c.emb[pv] && r.c.emb[pv + 1] == c.emb[pv + 1]
  {
    var r := Run(e, c, loc, [Switch(Embedded)] + o);
    OpenFrame(e, c, loc, o, ReadFrame(e));
    if r.st == 0 {
      var pv := Addr(e, PageValue);
      Kept(e, c, r.c, 0, ReadFrame(e), Embedded, pv);
      Kept(e, c, r.c, 0, ReadFrame(e), Embedded, pv + 1);
    }
  }

  /**
   * A paging sequence that reads PAGE_VALUE once, after steps that leave it
   * alone, fetches when it succeeds the two bytes held there on entry.
   */
  lemma FetchedOnEntry(e: Env, c: Chip, loc: Locals, o: seq<Cmd>, b: seq<Cmd>)
    requires Coherent(e, c) && Fields(e.lay) && PagingLayout(e.lay) && PairApart(e.lay) && Paged(o)
    requires o != [] && forall i :: 0 <= i < |o| ==> Touch(e, o[i]) <= ReadFrame(e)
    requires forall i :: 0 <= i < |b| ==> !b[i].FetchValue?
    ensures var r := Run(e, c, loc, ([Switch(Embedded)] + o) + ([FetchValue] + b));
      var pv := Addr(e, PageValue);
      r.st == 0 ==> r.v.fetched == [c.emb[pv], c.emb[pv + 1]]
  {
    RunConcat(e, c, loc, [Switch(Embedded)] + o, [FetchValue] + b);
    var x := Run(e, c, loc, [Switch(Embedded)] + o);
    if x.st == 0 {
      OpenKeepsValue(e, c, loc, o);
      FetchThenKeep(e, x.c, x.v, b);
    }
  }

  /** A read of PAGE_VALUE in the embedded-functions bank, then steps without one, keeps the two bytes read. */
  lemma FetchThenKeep(e: Env, c: Chip, loc: Locals, b: seq<Cmd>)
    requires Coherent(e, c) && Fields(e.lay) && Fit(e.lay, PageValue, 2) && c.bank == Embedded
    requires forall i :: 0 <= i < |b| ==> !b[i].FetchValue?
    ensures var r := Run(e, c, loc, [FetchValue] + b);
      var pv := Addr(e, PageValue);
      r.st == 0 ==> r.v.fetched == [c.emb[pv], c.emb[pv + 1]]
  {
    RunConcat(e, c, loc, [FetchValue], b);
    assert [FetchValue][1..] == [];
    var pv := Addr(e, PageValue);
    var rd := ReadReg(e, c, pv, 2);
    var y := Exec(e, c, loc, FetchValue);
    assert y.st == rd.st && y.c == rd.c;
    if y.st == 0 {
      assert y.v.fetched == rd.v == [c.emb[pv], c.emb[pv + 1]];
      RunKeepsFetched(e, y.c, y.v, b);
    }
  }

  /** Steps ending in a read of PAGE_VALUE and steps without one fetch two bytes when they all succeed. */
  lemma FetchedTwo(e: Env, c: Chip, loc: Locals, a: seq<Cmd>, b: seq<Cmd>)
    requires Coherent(e, c) && Fields(e.lay) && Fit(e.lay, PageValue, 2)
    requires forall i :: 0 <= i < |b| ==> !b[i].FetchValue?
    ensures var r := Run(e, c, loc, a + ([FetchValue] + b));
      r.st == 0 ==> |r.v.fetched| == 2
  {
    RunConcat(e, c, loc, a, [FetchValue] + b);
    var x := Run(e, c, loc, a);
    if x.st == 0 {
      RunConcat(e, x.c, x.v, [FetchValue], b);
      assert [FetchValue][1..] == [];
      var y := Exec(e, x.c, x.v, FetchValue);
      if y.st == 0 {
        RunKeepsFetched(e, y.c, y.v, b);
      }
    }
  }

  /**
   * asm330lhb_ln_pg_read_byte writes only the two bytes from `at` of the
   * destination; when it succeeds they are the two bytes PAGE_VALUE and the
   * register after it held on entry, which no earlier step changes.
   */
  lemma LnPgReadByteOutput(e: Env, c: Chip, add: bv16, dst: seq<bv8>, at: nat)
    requires Coherent(e, c) && Fields(e.lay) && PagingLayout(e.lay) && PairApart(e.lay) && Room(|dst|, at)
    ensures var r := LnPgReadByte(e, c, add, dst, at);
      && (forall j :: 0 <= j < |dst| && j != at && j != at + 1 ==> r.v[j] == dst[j])
      && (r.st == 0 ==> r.v[at] == c.emb[Addr(e, PageValue)] && r.v[at + 1] == c.emb[Addr(e, PageValue) + 1])
  {
    var o := [SetMode(1), SetPage(Hi(add) & 0x0F, true), SetOffset(PageOffset(e, add))];
    var b := [SetMode(0), Switch(User)];
    assert Session(LineBody(e, 1, add, FetchValue)) == ([Switch(Embedded)] + o) + ([FetchValue] + b);
    FetchedOnEntry(e, c, Locals(0, []), o, b);
  }

  // ---------------------------------------------------------------------
  // asm330lhb_ln_pg_write

  /**
   * Whether the loop's bookkeeping counts a page crossing after a byte
   * written at offset `lsb`. As the driver writes it (`fixed` false) the test
   * is `lsb == 0x00` before `lsb++`; the evidently intended test (`fixed`
   * true) is that `lsb++` wraps to 0x00.
   */
  predicate Crossed(fixed: bool, lsb: bv8)
  {
    if fixed then lsb + 1 == 0 else lsb == 0
  }

  /** The bookkeeping after a byte: `msb++` on a crossing, then `lsb++`, both uint8_t. */
  function PageStep(fixed: bool, msb: bv8, lsb: bv8): (bv8, bv8)
  {
    (if Crossed(fixed, lsb) then msb + 1 else msb, lsb + 1)
  }

  /** (msb, lsb) after `n` bytes. */
  function Advance(fixed: bool, msb: bv8, lsb: bv8, n: nat): (bv8, bv8)
    decreases n
  {
    if n == 0 then (msb, lsb) else var s := PageStep(fixed, msb, lsb); Advance(fixed, s.0, s.1, n - 1)
  }

  /**
   * The steps of the loop for each byte of `buf`: write it to PAGE_VALUE,
   * then rewrite PAGE_SEL with the new `msb`, reading PAGE_SEL first on a
   * crossing.
   */
  function LineCmds(fixed: bool, buf: seq<bv8>, msb: bv8, lsb: bv8): seq<Cmd>
    decreases |buf|
  {
    if buf == [] then [] else
    var s := PageStep(fixed, msb, lsb);
    [PutValue(buf[0]), SetPage(s.0, Crossed(fixed, lsb))] + LineCmds(fixed, buf[1..], s.0, s.1)
  }

  /**
   * The steps of asm330lhb_ln_pg_write between the bank switches. Its `msb`
   * is `add / 256` and its `lsb` is `add - msb * 256`, the low byte; the page
   * is reset to 0 after the loop.
   */
  function WriteBody(fixed: bool, add: bv16, buf: seq<bv8>): seq<Cmd>
  {
    [SetMode(2), SetPage(Hi(add), true), SetOffset(Lo(add))] + LineCmds(fixed, buf, Hi(add), Lo(add)) + [SetPage(0, false), SetMode(0)]
  }

  /** asm330lhb_ln_pg_write: the bytes of `buf` (its length a uint8_t) from line `add` of the paged memory. */
  function LnPgWrite(e: Env, c: Chip, add: bv16, buf: seq<bv8>): (r: Res<()>)
    requires Coherent(e, c) && Fields(e.lay) && Fit(e.lay, PageValue, 2) && |buf| < 256
    ensures Coherent(e, r.c)
  {
    var s := Run(e, c, Locals(0, []), Session(WriteBody(false, add, buf)));
    Res(s.c, s.st, ())
  }

  /** asm330lhb_ln_pg_write with the page crossing counted when `lsb` wraps. */
  function LnPgWriteFixed(e: Env, c: Chip, add: bv16, buf: seq<bv8>): (r: Res<()>)
    requires Coherent(e, c) && Fields(e.lay) && Fit(e.lay, PageValue, 2) && |buf| < 256
    ensures Coherent(e, r.c)
  {
    var s := Run(e, c, Locals(0, []), Session(WriteBody(true, add, buf)));
    Res(s.c, s.st, ())
  }

  /** `add + n` in uint16_t arithmetic. */
  function Plus(add: bv16, n: nat): bv16
  {
    if n == 0 then add else Plus(add, n - 1) + 1
  }

  /**
   * The page the driver selects after `n` bytes, in closed form: one ahead
   * of the page of the next line when the line started at offset 0x00, one
   * behind when the next line starts a page.
   */
  function LinePage(add: bv16, n: nat): bv8
  {
    var a := Plus(add, n);
    Hi(a) + (if Lo(add) == 0 then 1 else 0) - (if Lo(a) == 0 then 1 else 0)
  }

  /** The operations of the loop as the driver writes it: data bytes, each followed by the page selected after it. */
  function Lines(e: Env, add: bv16, buf: seq<bv8>): seq<PageOp>
    requires Fields(e.lay)
  {
    seq(2 * |buf|, j requires 0 <= j < 2 * |buf| =>
      if j % 2 == 0 then Value(buf[j / 2]) else Select(Trunc(Fld(e, PageSelField), LinePage(add, j / 2 + 1)), 1))
  }

  /** The operations of the loop as intended: every data byte followed by the page of the next line. */
  function LinesIntended(e: Env, add: bv16, buf: seq<bv8>): seq<PageOp>
    requires Fields(e.lay)
  {
    seq(2 * |buf|, j requires 0 <= j < 2 * |buf| =>
      if j % 2 == 0 then Value(buf[j / 2]) else Select(Trunc(Fld(e, PageSelField), Hi(Plus(add, j / 2 + 1))), 1))
  }

  /** The paging operations around the loop of asm330lhb_ln_pg_write. */
  function Opened(e: Env, add: bv16): seq<PageOp>
    requires Fields(e.lay)
  {
    [SelectBank(Embedded), Mode(Trunc(Fld(e, PageRwField), 2)), Select(Trunc(Fld(e, PageSelField), Hi(add)), 1), Offset(Lo(add))]
  }

  function Closed(): seq<PageOp>
  {
    [Select(0, 1), Mode(0), SelectBank(User)]
  }

  /** The paging operations of a successful asm330lhb_ln_pg_write, in order. */
  function BufferWritten(e: Env, add: bv16, buf: seq<bv8>): seq<PageOp>
    requires Fields(e.lay)
  {
    Opened(e, add) + Lines(e, add, buf) + Closed()
  }

  /** The paging operations a successful asm330lhb_ln_pg_write was evidently meant to commit. */
  function BufferIntended(e: Env, add: bv16, buf: seq<bv8>): seq<PageOp>
    requires Fields(e.lay)
  {
    Opened(e, add) + LinesIntended(e, add, buf) + Closed()
  }

  /** One more byte of bookkeeping comes after the others. */
  lemma {:induction false} AdvanceSnoc(fixed: bool, msb: bv8, lsb: bv8, n: nat)
    ensures Advance(fixed, msb, lsb, n + 1) == var s := Advance(fixed, msb, lsb, n); PageStep(fixed, s.0, s.1)
    decreases n
  {
    if n > 0 {
      var s := PageStep(fixed, msb, lsb);
      AdvanceSnoc(fixed, s.0, s.1, n - 1);
    }
  }

  /** The next uint16_t address: the low byte steps, and the high byte with it when the low byte wraps. */
  lemma AddrStep(b: bv16)
    ensures Lo(b + 1) == Lo(b) + 1 && Hi(b + 1) == Hi(b) + (if Lo(b + 1) == 0 then 1 else 0)
  {
  }

  /** One byte of the driver's bookkeeping, in closed form. */
  lemma PageStepClosed(z: bv8, b: bv16, s: (bv8, bv8))
    requires s == (Hi(b) + z - (if Lo(b) == 0 then 1 else 0), Lo(b))
    ensures PageStep(false, s.0, s.1) == (Hi(b + 1) + z - (if Lo(b + 1) == 0 then 1 else 0), Lo(b + 1))
  {
    AddrStep(b);
  }

  /** One byte of the intended bookkeeping steps the address. */
  lemma PageStepFixedAdds(b: bv16, s: (bv8, bv8))
    requires s == (Hi(b), Lo(b))
    ensures PageStep(true, s.0, s.1) == (Hi(b + 1), Lo(b + 1))
  {
    AddrStep(b);
  }

  /** One byte more of the driver's bookkeeping keeps the closed form. */
  lemma AdvanceClosedStep(add: bv16, n: nat)
    requires Advance(false, Hi(add), Lo(add), n) == (LinePage(add, n), Lo(Plus(add, n)))
    ensures Advance(false, Hi(add), Lo(add), n + 1) == (LinePage(add, n + 1), Lo(Plus(add, n + 1)))
  {
    AdvanceSnoc(false, Hi(add), Lo(add), n);
    var z: bv8 := if Lo(add) == 0 then 1 else 0;
    PageStepClosed(z, Plus(add, n), Advance(false, Hi(add), Lo(add), n));
  }

  /** The driver's bookkeeping has the closed form LinePage. */
  lemma {:induction false} AdvanceClosed(add: bv16, n: nat)
    ensures Advance(false, Hi(add), Lo(add), n) == (LinePage(add, n), Lo(Plus(add, n)))
    decreases n
  {
    if n > 0 {
      AdvanceClosed(add, n - 1);
      AdvanceClosedStep(add, n - 1);
    }
  }

  /** The intended bookkeeping tracks the address of the next line. */
  lemma {:induction false} AdvanceFixedIsAdd(add: bv16, n: nat)
    ensures Advance(true, Hi(add), Lo(add), n) == (Hi(Plus(add, n)), Lo(Plus(add, n)))
    decreases n
  {
    if n > 0 {
      AdvanceFixedIsAdd(add, n - 1);
      AdvanceSnoc(true, Hi(add), Lo(add), n - 1);
      var b := Plus(add, n - 1);
      PageStepFixedAdds(b, Advance(true, Hi(add), Lo(add), n - 1));
      assert Plus(add, n) == b + 1;
    }
  }

  /**
   * The page lag: after a byte at offset 0x00 the driver selects a page one
   * ahead of the next line's page, and after a byte at 0xFF it keeps the
   * page it has just left.
   */
  lemma PageLag()
    ensures Advance(false, 0x01, 0x00, 1).0 == 0x02 && Hi(Plus(0x0100, 1)) == 0x01
    ensures Advance(false, 0x01, 0xFF, 1).0 == 0x01 && Hi(Plus(0x01FF, 1)) == 0x02
  {
    assert Plus(0x0100, 1) == 0x0101;
    assert Plus(0x01FF, 1) == 0x0200;
  }

  /** The operations of the loop in terms of the bookkeeping, from the state (msb, lsb). */
  function LinesFrom(e: Env, fixed: bool, buf: seq<bv8>, msb: bv8, lsb: bv8): seq<PageOp>
    requires Fields(e.lay)
  {
    seq(2 * |buf|, j requires 0 <= j < 2 * |buf| =>
      if j % 2 == 0 then Value(buf[j / 2]) else Select(Trunc(Fld(e, PageSelField), Advance(fixed, msb, lsb, j / 2 + 1).0), 1))
  }

  /** The plan of two command lists in sequence is the concatenation of their plans. */
  lemma PlanConcat(e: Env, a: seq<Cmd>, b: seq<Cmd>)
    requires Fields(e.lay)
    ensures Plan(e, a + b) == Plan(e, a) + Plan(e, b)
  {
  }

  /** LinesFrom unrolled by one byte. */
  lemma LinesFromCons(e: Env, fixed: bool, buf: seq<bv8>, msb: bv8, lsb: bv8)
    requires Fields(e.lay) && buf != []
    ensures var s := PageStep(fixed, msb, lsb);
      LinesFrom(e, fixed, buf, msb, lsb)
      == [Value(buf[0]), Select(Trunc(Fld(e, PageSelField), s.0), 1)] + LinesFrom(e, fixed, buf[1..], s.0, s.1)
  {
    var s := PageStep(fixed, msb, lsb);
    var l := LinesFrom(e, fixed, buf, msb, lsb);
    var r := [Value(buf[0]), Select(Trunc(Fld(e, PageSelField), s.0), 1)] + LinesFrom(e, fixed, buf[1..], s.0, s.1);
    forall j | 0 <= j < |l| ensures l[j] == r[j] {
      if j >= 2 {
        var k := j - 2;
        assert j % 2 == k % 2 && j / 2 == k / 2 + 1;
        assert buf[j / 2] == buf[1..][k / 2];
        assert Advance(fixed, msb, lsb, j / 2 + 1) == Advance(fixed, s.0, s.1, k / 2 + 1);
      } else {
        assert Advance(fixed, msb, lsb, 1) == s;
      }
    }
  }

  /** The loop's steps plan a data byte and then the page of the bookkeeping after it, byte by byte. */
  lemma {:induction false} LinesPlan(e: Env, fixed: bool, buf: seq<bv8>, msb: bv8, lsb: bv8)
    requires Fields(e.lay)
    ensures Plan(e, LineCmds(fixed, buf, msb, lsb)) == LinesFrom(e, fixed, buf, msb, lsb)
    decreases |buf|
  {
    if buf != [] {
      var s := PageStep(fixed, msb, lsb);
      LinesPlan(e, fixed, buf[1..], s.0, s.1);
      PlanConcat(e, [PutValue(buf[0]), SetPage(s.0, Crossed(fixed, lsb))], LineCmds(fixed, buf[1..], s.0, s.1));
      LinesFromCons(e, fixed, buf, msb, lsb);
    }
  }

  /** The loop's steps stay in the embedded-functions bank, and per byte issue two or three transactions. */
  lemma {:induction false} LineCmdsShape(fixed: bool, buf: seq<bv8>, msb: bv8, lsb: bv8)
    ensures var cs := LineCmds(fixed, buf, msb, lsb);
      |cs| == 2 * |buf| && (forall i :: 0 <= i < |cs| ==> cs[i].PutValue? || cs[i].SetPage?)
      && 2 * |buf| <= Total(cs) <= 3 * |buf|
    decreases |buf|
  {
    if buf != [] {
      var s := PageStep(fixed, msb, lsb);
      var head := [PutValue(buf[0]), SetPage(s.0, Crossed(fixed, lsb))];
      var rest := LineCmds(fixed, buf[1..], s.0, s.1);
      LineCmdsShape(fixed, buf[1..], s.0, s.1);
      TotalConcat(head, rest);
      assert Total(head) == 1 + Cost(head[1]) by { assert head[1..][1..] == []; }
    }
  }

  /** From the start of the line, the driver's pages are the closed form's. */
  lemma LinesClosed(e: Env, add: bv16, buf: seq<bv8>)
    requires Fields(e.lay)
    ensures LinesFrom(e, false, buf, Hi(add), Lo(add)) == Lines(e, add, buf)
  {
    forall j | 0 <= j < 2 * |buf| && j % 2 == 1
      ensures Advance(false, Hi(add), Lo(add), j / 2 + 1).0 == LinePage(add, j / 2 + 1)
    {
      AdvanceClosed(add, j / 2 + 1);
    }
  }

  /** From the start of the line, the intended pages are those of the next line. */
  lemma LinesFixed(e: Env, add: bv16, buf: seq<bv8>)
    requires Fields(e.lay)
    ensures LinesFrom(e, true, buf, Hi(add), Lo(add)) == LinesIntended(e, add, buf)
  {
    forall j | 0 <= j < 2 * |buf| && j % 2 == 1
      ensures Advance(true, Hi(add), Lo(add), j / 2 + 1).0 == Hi(Plus(add, j / 2 + 1))
    {
      AdvanceFixedIsAdd(add, j / 2 + 1);
    }
  }

  /** The steps of asm330lhb_ln_pg_write stay in the embedded-functions bank. */
  lemma WriteBodyPaged(fixed: bool, add: bv16, buf: seq<bv8>)
    ensures Paged(WriteBody(fixed, add, buf))
  {
    LineCmdsShape(fixed, buf, Hi(add), Lo(add));
  }

  /** The steps of asm330lhb_ln_pg_write plan the operations around the loop and the loop's. */
  lemma WriteBodyPlan(e: Env, fixed: bool, add: bv16, buf: seq<bv8>)
    requires Fields(e.lay)
    ensures Planned(e, WriteBody(fixed, add, buf)) == Opened(e, add) + LinesFrom(e, fixed, buf, Hi(add), Lo(add)) + Closed()
  {
    var open := [SetMode(2), SetPage(Hi(add), true), SetOffset(Lo(add))];
    var lines := LineCmds(fixed, buf, Hi(add), Lo(add));
    var close := [SetPage(0, false), SetMode(0)];
    LinesPlan(e, fixed, buf, Hi(add), Lo(add));
    PlanConcat(e, open + lines, close);
    PlanConcat(e, open, lines);
    assert Plan(e, open) == [Mode(Trunc(Fld(e, PageRwField), 2)), Select(Trunc(Fld(e, PageSelField), Hi(add)), 1), Offset(Lo(add))];
    assert Plan(e, close) == [Select(0, 1), Mode(0)];
  }

  /**
   * asm330lhb_ln_pg_write commits, in order: the embedded-functions bank,
   * page write mode, the page and offset of `add`, each byte followed by a
   * rewrite of PAGE_SEL with the page its bookkeeping reached, page 0, page
   * mode 0 and the user bank; the first failure skips the rest.
   */
  lemma LnPgWriteProtocol(e: Env, c: Chip, add: bv16, buf: seq<bv8>)
    requires Coherent(e, c) && Fields(e.lay) && PagingLayout(e.lay) && |buf| < 256
    ensures var r := LnPgWrite(e, c, add, buf);
      && Extends(c, r.c)
      && var t := Trace(e, Delta(c, r.c));
      && (r.st == 0 ==> t == BufferWritten(e, add, buf) && r.c.bank == User)
      && (r.st != 0 ==> t < BufferWritten(e, add, buf) && r.c.bank == if t == [] then c.bank else Embedded)
  {
    WriteBodyPlan(e, false, add, buf);
    LinesClosed(e, add, buf);
    WriteBodyPaged(false, add, buf);
    SessionTrace(e, c, Locals(0, []), WriteBody(false, add, buf));
  }

  /** With the crossing counted when `lsb` wraps, every byte is followed by the page of the next line. */
  lemma LnPgWriteFixedProtocol(e: Env, c: Chip, add: bv16, buf: seq<bv8>)
    requires Coherent(e, c) && Fields(e.lay) && PagingLayout(e.lay) && |buf| < 256
    ensures var r := LnPgWriteFixed(e, c, add, buf);
      && Extends(c, r.c)
      && var t := Trace(e, Delta(c, r.c));
      && (r.st == 0 ==> t == BufferIntended(e, add, buf) && r.c.bank == User)
      && (r.st != 0 ==> t < BufferIntended(e, add, buf) && r.c.bank == if t == [] then c.bank else Embedded)
  {
    WriteBodyPlan(e, true, add, buf);
    LinesFixed(e, add, buf);
    WriteBodyPaged(true, add, buf);
    SessionTrace(e, c, Locals(0, []), WriteBody(true, add, buf));
  }

  /** asm330lhb_ln_pg_write keeps the error discipline and changes only the four paging registers. */
  lemma LnPgWriteFrame(e: Env, c: Chip, add: bv16, buf: seq<bv8>)
    requires Coherent(e, c) && Fields(e.lay) && PagingLayout(e.lay) && |buf| < 256
    ensures var r := LnPgWrite(e, c, add, buf);
      Confined(e, c, r.c, r.st, PageFrame(e))
  {
    WriteBodyPaged(false, add, buf);
    SessionFrame(e, c, Locals(0, []), WriteBody(false, add, buf), PageFrame(e));
  }

  /** asm330lhb_ln_pg_write issues twelve transactions and two or three per byte; when they succeed it reports success. */
  lemma LnPgWriteOk(e: Env, c: Chip, add: bv16, buf: seq<bv8>)
    requires Coherent(e, c) && Fields(e.lay) && Fit(e.lay, PageValue, 2) && |buf| < 256 && Succeed(e, |c.log|, 12 + 3 * |buf|)
    ensures var r := LnPgWrite(e, c, add, buf);
      r.st == 0 && 12 + 2 * |buf| <= |r.c.log| - |c.log| <= 12 + 3 * |buf|
  {
    var open := [SetMode(2), SetPage(Hi(add), true), SetOffset(Lo(add))];
    var lines := LineCmds(false, buf, Hi(add), Lo(add));
    var close := [SetPage(0, false), SetMode(0)];
    LineCmdsShape(false, buf, Hi(add), Lo(add));
    TotalConcat(open + lines, close);
    TotalConcat(open, lines);
    assert Total(open) == 5 by {
      assert Total(open[2..]) == 1 by { assert open[2..][1..] == []; }
      assert Total(open[1..]) == 3 by { assert open[1..][1..] == open[2..]; }
    }
    assert Total(close) == 3 by {
      assert Total(close[1..]) == 2 by { assert close[1..][1..] == []; }
    }
    assert Succeed(e, |c.log|, Total(WriteBody(false, add, buf)) + 4);
    SessionOk(e, c, Locals(0, []), WriteBody(false, add, buf));
  }
}
