// The register bus of the ASM330LHB driver, as values.
//
// A Chip is the state the driver can observe: the selected bank, the two
// 256-byte register files and the log of every transaction issued on the bus.
// FUNC_CFG_ACCESS, which selects the bank, answers at the same address in both
// banks, so a write to it updates both files. Each transaction returns the
// status of the platform's read or write callback; those callbacks are not part
// of this model, so the status of the k-th transaction is `fail(k)` for an
// arbitrary oracle `fail` (0 is success). A failed write changes no register;
// a failed read delivers bytes no contract relies on.
//
// These functions are the specification of the methods of Driver.Device.

module Bus {
  import opened Bits
  import opened Layout

  /** One bus transaction: the bank it was issued in, the address, and its status. */
  datatype Txn =
    | Rd(bank: Bank, reg: RegAddr, len: nat, st: int)
    | Wr(bank: Bank, reg: RegAddr, data: seq<bv8>, st: int)

  datatype Chip = Chip(bank: Bank, user: seq<bv8>, emb: seq<bv8>, log: seq<Txn>)

  /** The header values and the status oracle of the platform callbacks. */
  datatype Env = Env(lay: Layout, fail: nat -> int)

  /** The state after an operation, its status and its output. */
  datatype Res<T> = Res(c: Chip, st: int, v: T)

  function Addr(e: Env, r: RegName): RegAddr
  {
    e.lay.addr(r)
  }

  function Fld(e: Env, f: FieldName): Field
  {
    e.lay.field(f)
  }

  function Fca(e: Env): RegAddr
  {
    e.lay.addr(FuncCfgAccess)
  }

  /** Both files hold 256 bytes, agree on FUNC_CFG_ACCESS, and the bank is the one it selects. */
  predicate Coherent(e: Env, c: Chip)
  {
    BankAccess(e.lay) && |c.user| == 256 && |c.emb| == 256
    && c.user[Fca(e)] == c.emb[Fca(e)] && c.bank == BankOf(e.lay, c.user[Fca(e)])
  }

  /**
   * The driver's invariant that user-bank functions start in the user bank.
   * Each lemma assumes besides only the layout facts it uses, all of which
   * Layout.Valid includes.
   */
  predicate Ready(e: Env, c: Chip)
  {
    Coherent(e, c) && c.bank == User && Fields(e.lay)
  }

  function File(c: Chip, b: Bank): seq<bv8>
  {
    if b == User then c.user else c.emb
  }

  /** `data` stored from index `a` of a register file. */
  function Store(f: seq<bv8>, a: int, data: seq<bv8>): (r: seq<bv8>)
    requires 0 <= a && a + |data| <= |f|
    ensures |r| == |f|
    ensures forall x :: 0 <= x < |f| ==> r[x] == if a <= x < a + |data| then data[x - a] else f[x]
    decreases |data|
  {
    if data == [] then f else Store(f[a := data[0]], a + 1, data[1..])
  }

  /** A successful write of `data` at `a` in the selected bank. */
  function Commit(e: Env, c: Chip, a: RegAddr, data: seq<bv8>): (r: Chip)
    requires Coherent(e, c) && a + |data| <= 256
    ensures Coherent(e, r) && r.log == c.log
  {
    var fca := Fca(e);
    var hit := a <= fca < a + |data|;
    var u := if c.bank == User then Store(c.user, a, data)
             else if hit then c.user[fca := data[fca - a]] else c.user;
    var m := if c.bank == Embedded then Store(c.emb, a, data)
             else if hit then c.emb[fca := data[fca - a]] else c.emb;
    c.(bank := BankOf(e.lay, u[fca]), user := u, emb := m)
  }

  /** asm330lhb_read_reg: `n` bytes from address `a` of the selected bank. */
  function ReadReg(e: Env, c: Chip, a: RegAddr, n: nat): (r: Res<seq<bv8>>)
    requires Coherent(e, c) && a + n <= 256
    ensures Coherent(e, r.c) && |r.v| == n
    ensures forall i :: 0 <= i < n ==> r.v[i] == File(c, c.bank)[a + i]
  {
    var st := e.fail(|c.log|);
    Res(c.(log := c.log + [Rd(c.bank, a, n, st)]), st, File(c, c.bank)[a..a + n])
  }

  /** asm330lhb_write_reg: `data` to address `a` of the selected bank. */
  function WriteReg(e: Env, c: Chip, a: RegAddr, data: seq<bv8>): (r: Res<()>)
    requires Coherent(e, c) && a + |data| <= 256
    ensures Coherent(e, r.c)
  {
    var st := e.fail(|c.log|);
    var c1 := if st == 0 then Commit(e, c, a, data) else c;
    Res(c1.(log := c.log + [Wr(c.bank, a, data, st)]), st, ())
  }

  /** asm330lhb_mem_bank_set: read-modify-write of FUNC_CFG_ACCESS.reg_access. */
  function MemBankSet(e: Env, c: Chip, b: Bank): (r: Res<()>)
    requires Coherent(e, c)
    ensures Coherent(e, r.c)
  {
    var a := Addr(e, FuncCfgAccess);
    var rd := ReadReg(e, c, a, 1);
    if rd.st != 0 then Res(rd.c, rd.st, ())
    else WriteReg(e, rd.c, a, [Set(rd.v[0], Fld(e, RegAccess), BankCode(e.lay, b))])
  }

  /** asm330lhb_mem_bank_get: the bank FUNC_CFG_ACCESS selects. */
  function MemBankGet(e: Env, c: Chip): (r: Res<Bank>)
    requires Coherent(e, c)
    ensures Coherent(e, r.c)
  {
    var rd := ReadReg(e, c, Addr(e, FuncCfgAccess), 1);
    Res(rd.c, rd.st, BankOf(e.lay, rd.v[0]))
  }

  /**
   * The setter pattern of the driver: read register `a`, assign the fields
   * and, if the read succeeded, write the byte back.
   */
  function SetFields(e: Env, c: Chip, a: RegAddr, ups: seq<Update>): (r: Res<()>)
    requires Coherent(e, c) && AllWellFormed(ups)
    ensures Coherent(e, r.c)
  {
    var rd := ReadReg(e, c, a, 1);
    if rd.st != 0 then Res(rd.c, rd.st, ())
    else WriteReg(e, rd.c, a, [Overlay(rd.v[0], ups)])
  }

  /** The getter pattern: read register `a` and decode one field. */
  function GetField(e: Env, c: Chip, a: RegAddr, f: Field, d: Decoder): (r: Res<bv8>)
    requires Coherent(e, c) && WellFormed(f)
    ensures Coherent(e, r.c)
  {
    var rd := ReadReg(e, c, a, 1);
    Res(rd.c, rd.st, Decode(d, Get(rd.v[0], f)))
  }

  /** A setter of the embedded-functions bank: switch bank, set the fields, switch back. */
  function EmbSetFields(e: Env, c: Chip, a: RegAddr, ups: seq<Update>): (r: Res<()>)
    requires Coherent(e, c) && AllWellFormed(ups)
    ensures Coherent(e, r.c)
  {
    var b1 := MemBankSet(e, c, Embedded);
    if b1.st != 0 then b1 else
    var s := SetFields(e, b1.c, a, ups);
    if s.st != 0 then s else
    MemBankSet(e, s.c, User)
  }

  /**
   * A getter of the embedded-functions bank: switch bank, read, and switch
   * back only when the read succeeded. The output is assigned only after a
   * successful read; otherwise it is 0, the value the callers that use it
   * initialise it to.
   */
  function EmbGetField(e: Env, c: Chip, a: RegAddr, f: Field, d: Decoder): (r: Res<bv8>)
    requires Coherent(e, c) && WellFormed(f)
    ensures Coherent(e, r.c)
  {
    var b1 := MemBankSet(e, c, Embedded);
    if b1.st != 0 then Res(b1.c, b1.st, 0) else
    var g := GetField(e, b1.c, a, f, d);
    if g.st != 0 then Res(g.c, g.st, 0) else
    var b2 := MemBankSet(e, g.c, User);
    Res(b2.c, b2.st, g.v)
  }

  /** A block read of the embedded-functions bank (FSM and MLC outputs). */
  function EmbRead(e: Env, c: Chip, a: RegAddr, n: nat): (r: Res<seq<bv8>>)
    requires Coherent(e, c) && a + n <= 256
    ensures Coherent(e, r.c)
  {
    var b1 := MemBankSet(e, c, Embedded);
    if b1.st != 0 then Res(b1.c, b1.st, []) else
    var rd := ReadReg(e, b1.c, a, n);
    if rd.st != 0 then rd else
    var b2 := MemBankSet(e, rd.c, User);
    Res(b2.c, b2.st, rd.v)
  }

  /** A block write of the embedded-functions bank: switch bank, write, switch back. */
  function EmbWrite(e: Env, c: Chip, a: RegAddr, data: seq<bv8>): (r: Res<()>)
    requires Coherent(e, c) && a + |data| <= 256
    ensures Coherent(e, r.c)
  {
    var b1 := MemBankSet(e, c, Embedded);
    if b1.st != 0 then b1 else
    var w := WriteReg(e, b1.c, a, data);
    if w.st != 0 then w else
    MemBankSet(e, w.c, User)
  }

  /** Two read-modify-writes in the selected bank, the second only after the first succeeded. */
  function SetFieldsTwice(e: Env, c: Chip, a1: RegAddr, u1: seq<Update>, a2: RegAddr, u2: seq<Update>): (r: Res<()>)
    requires Coherent(e, c) && AllWellFormed(u1) && AllWellFormed(u2)
    ensures Coherent(e, r.c)
  {
    var s1 := SetFields(e, c, a1, u1);
    if s1.st != 0 then s1 else
    SetFields(e, s1.c, a2, u2)
  }

  /**
   * A read-modify-write followed, if it succeeded, by a write of a whole
   * byte: the pattern of the 16-bit thresholds whose low byte the driver
   * writes from a fresh struct.
   */
  function SetFieldsThenWrite(e: Env, c: Chip, a1: RegAddr, u1: seq<Update>, a2: RegAddr, byte: bv8): (r: Res<()>)
    requires Coherent(e, c) && AllWellFormed(u1)
    ensures Coherent(e, r.c)
  {
    var s1 := SetFields(e, c, a1, u1);
    if s1.st != 0 then s1 else
    WriteReg(e, s1.c, a2, [byte])
  }

  /** Two single-byte writes, the second only after the first succeeded. */
  function WriteTwo(e: Env, c: Chip, a1: RegAddr, b1: bv8, a2: RegAddr, b2: bv8): (r: Res<()>)
    requires Coherent(e, c)
    ensures Coherent(e, r.c)
  {
    var w1 := WriteReg(e, c, a1, [b1]);
    if w1.st != 0 then w1 else WriteReg(e, w1.c, a2, [b2])
  }

  /** Two single-byte reads, the second only after the first succeeded. */
  function ReadTwo(e: Env, c: Chip, a1: RegAddr, a2: RegAddr): (r: Res<(bv8, bv8)>)
    requires Coherent(e, c)
    ensures Coherent(e, r.c)
  {
    var r1 := ReadReg(e, c, a1, 1);
    if r1.st != 0 then Res(r1.c, r1.st, (r1.v[0], 0)) else
    var r2 := ReadReg(e, r1.c, a2, 1);
    Res(r2.c, r2.st, (r1.v[0], r2.v[0]))
  }

  // ---------------------------------------------------------------------
  // Transactions of an operation

  /** The transactions issued from `c0` to `c1`. */
  function Delta(c0: Chip, c1: Chip): seq<Txn>
    requires |c0.log| <= |c1.log|
  {
    c1.log[|c0.log|..]
  }

  predicate Extends(c0: Chip, c1: Chip)
  {
    c0.log <= c1.log
  }

  /**
   * The driver's error discipline: every transaction but the last succeeded,
   * and the status returned is the last one's, so the first failure ends the
   * operation.
   */
  predicate StopsAtFirstFailure(d: seq<Txn>, st: int)
  {
    |d| > 0 && (forall i :: 0 <= i < |d| - 1 ==> d[i].st == 0) && d[|d| - 1].st == st
  }

  /** Some transaction of `d` addresses `a` in bank `b`. */
  predicate Touches(d: seq<Txn>, b: Bank, a: RegAddr)
  {
    exists i :: 0 <= i < |d| && d[i].bank == b && d[i].reg == a
  }

  /** A step that succeeds followed by one that follows the discipline keeps it. */
  lemma Chain(c0: Chip, c1: Chip, c2: Chip, st: int)
    requires Extends(c0, c1) && Extends(c1, c2)
    requires StopsAtFirstFailure(Delta(c0, c1), 0) && StopsAtFirstFailure(Delta(c1, c2), st)
    ensures Extends(c0, c2) && StopsAtFirstFailure(Delta(c0, c2), st)
  {
    assert Delta(c0, c2) == Delta(c0, c1) + Delta(c1, c2);
  }

  // ---------------------------------------------------------------------
  // What an operation may change

  /** The addresses `a` .. `a + n - 1` of bank `b`. */
  function Range(b: Bank, a: RegAddr, n: nat): set<(Bank, int)>
  {
    set x: int | a <= x < a + n :: (b, x)
  }

  /**
   * From `c0` to `c1` no register changed except the (bank, address) pairs in
   * `w`, and of FUNC_CFG_ACCESS at most the reg_access bits.
   */
  predicate SameExcept(e: Env, c0: Chip, c1: Chip, w: set<(Bank, int)>)
    requires Coherent(e, c0) && Coherent(e, c1)
  {
    && (forall x :: 0 <= x < 256 && x != Fca(e) && (User, x) !in w ==> c1.user[x] == c0.user[x])
    && (forall x :: 0 <= x < 256 && x != Fca(e) && (Embedded, x) !in w ==> c1.emb[x] == c0.emb[x])
    && Rest(e, c1.user[Fca(e)]) == Rest(e, c0.user[Fca(e)])
  }

  /** The bits of a FUNC_CFG_ACCESS byte other than reg_access. */
  function Rest(e: Env, b: bv8): bv8
  {
    b & !Fld(e, RegAccess).mask
  }

  lemma SameTrans(e: Env, c0: Chip, c1: Chip, c2: Chip, w1: set<(Bank, int)>, w2: set<(Bank, int)>)
    requires Coherent(e, c0) && Coherent(e, c1) && Coherent(e, c2)
    requires SameExcept(e, c0, c1, w1) && SameExcept(e, c1, c2, w2)
    ensures SameExcept(e, c0, c2, w1 + w2)
  {
  }

  /** Allowing more registers to change keeps a frame. */
  lemma SameWiden(e: Env, c0: Chip, c1: Chip, w1: set<(Bank, int)>, w2: set<(Bank, int)>)
    requires Coherent(e, c0) && Coherent(e, c1) && w1 <= w2
    requires SameExcept(e, c0, c1, w1)
    ensures SameExcept(e, c0, c1, w2)
  {
  }

  /**
   * From `c0` to `c1` an operation kept the driver's error discipline,
   * returned status `st`, and changed no register outside `w`.
   */
  predicate Confined(e: Env, c0: Chip, c1: Chip, st: int, w: set<(Bank, int)>)
    requires Coherent(e, c0) && Coherent(e, c1)
  {
    Extends(c0, c1) && StopsAtFirstFailure(Delta(c0, c1), st) && SameExcept(e, c0, c1, w)
  }

  /** A step that succeeded followed by a confined step is confined to both frames. */
  lemma ConfinedTrans(e: Env, c0: Chip, c1: Chip, c2: Chip, st: int, w1: set<(Bank, int)>, w2: set<(Bank, int)>)
    requires Coherent(e, c0) && Coherent(e, c1) && Coherent(e, c2)
    requires Confined(e, c0, c1, 0, w1) && Confined(e, c1, c2, st, w2)
    ensures Confined(e, c0, c2, st, w1 + w2)
  {
    Chain(c0, c1, c2, st);
    SameTrans(e, c0, c1, c2, w1, w2);
  }

  /** A register outside a confined step's frame kept its value. */
  lemma Kept(e: Env, c0: Chip, c1: Chip, st: int, w: set<(Bank, int)>, b: Bank, x: int)
    requires Coherent(e, c0) && Coherent(e, c1) && Confined(e, c0, c1, st, w)
    requires 0 <= x < 256 && x != Fca(e) && (b, x) !in w
    ensures File(c1, b)[x] == File(c0, b)[x]
  {
  }

  // ---------------------------------------------------------------------
  // Properties of the bus

  /** A failed write changes no register and keeps the bank; it is still logged. */
  lemma FailedWriteChangesNothing(e: Env, c: Chip, a: RegAddr, data: seq<bv8>)
    requires Coherent(e, c) && a + |data| <= 256
    requires e.fail(|c.log|) != 0
    ensures var r := WriteReg(e, c, a, data);
      r.st != 0 && r.c.bank == c.bank && r.c.user == c.user && r.c.emb == c.emb
      && r.c.log == c.log + [Wr(c.bank, a, data, r.st)]
  {
  }

  /**
   * A successful write stores its bytes in the selected bank and leaves every
   * other byte of both banks alone, except that FUNC_CFG_ACCESS is shared.
   */
  lemma WriteStores(e: Env, c: Chip, a: RegAddr, data: seq<bv8>, x: int)
    requires Coherent(e, c) && a + |data| <= 256 && 0 <= x < 256
    requires e.fail(|c.log|) == 0
    ensures var r := WriteReg(e, c, a, data);
      r.st == 0 && r.c.log == c.log + [Wr(c.bank, a, data, 0)]
      && File(r.c, c.bank)[x] == (if a <= x < a + |data| then data[x - a] else File(c, c.bank)[x])
      && (x != Fca(e) ==> File(r.c, Other(c.bank))[x] == File(c, Other(c.bank))[x])
  {
    var k := Commit(e, c, a, data);
    if c.bank == User {
      assert k.user == Store(c.user, a, data);
    } else {
      assert k.emb == Store(c.emb, a, data);
    }
  }

  function Other(b: Bank): Bank
  {
    if b == User then Embedded else User
  }

  /**
   * A write that does not cover FUNC_CFG_ACCESS keeps the bank and changes
   * only the bytes it covers; when it succeeds they hold its data.
   */
  lemma WriteRegFrame(e: Env, c: Chip, a: RegAddr, data: seq<bv8>)
    requires Coherent(e, c) && a + |data| <= 256
    requires !Covers(a, |data|, Addr(e, FuncCfgAccess))
    ensures var r := WriteReg(e, c, a, data);
      && r.c.bank == c.bank
      && SameExcept(e, c, r.c, Range(c.bank, a, |data|))
      && (r.st == 0 ==> forall i :: 0 <= i < |data| ==> File(r.c, c.bank)[a + i] == data[i])
      && Delta(c, r.c) == [Wr(c.bank, a, data, r.st)]
  {
    var r := WriteReg(e, c, a, data);
    if r.st == 0 {
      CommitApart(e, c, a, data);
    }
  }

  /** A commit away from FUNC_CFG_ACCESS stores into the selected file only. */
  lemma CommitApart(e: Env, c: Chip, a: RegAddr, data: seq<bv8>)
    requires Coherent(e, c) && a + |data| <= 256
    requires !Covers(a, |data|, Addr(e, FuncCfgAccess))
    ensures var k := Commit(e, c, a, data);
      && k.bank == c.bank
      && File(k, c.bank) == Store(File(c, c.bank), a, data)
      && File(k, Other(c.bank)) == File(c, Other(c.bank))
  {
    var k := Commit(e, c, a, data);
    if c.bank == User {
      assert k.user == Store(c.user, a, data);
      assert k.user[Fca(e)] == c.user[Fca(e)];
    } else {
      assert k.emb == Store(c.emb, a, data);
    }
  }

  /** A read changes nothing but the log, where it is the only new transaction. */
  lemma ReadRegConfined(e: Env, c: Chip, a: RegAddr, n: nat)
    requires Coherent(e, c) && a + n <= 256
    ensures var r := ReadReg(e, c, a, n);
      && r.c.bank == c.bank && r.st == e.fail(|c.log|)
      && Delta(c, r.c) == [Rd(c.bank, a, n, r.st)]
      && Confined(e, c, r.c, r.st, {})
  {
    var r := ReadReg(e, c, a, n);
    assert Delta(c, r.c) == [Rd(c.bank, a, n, r.st)];
  }

  /**
   * A single-byte write away from FUNC_CFG_ACCESS changes at most its own
   * register of the selected bank, which holds the byte when it succeeds.
   */
  lemma WriteConfined(e: Env, c: Chip, a: RegAddr, byte: bv8)
    requires Coherent(e, c) && a != Fca(e)
    ensures var r := WriteReg(e, c, a, [byte]);
      && r.c.bank == c.bank && r.st == e.fail(|c.log|)
      && (r.st == 0 ==> File(r.c, c.bank)[a] == byte)
      && Delta(c, r.c) == [Wr(c.bank, a, [byte], r.st)]
      && Confined(e, c, r.c, r.st, {(c.bank, a)})
  {
    WriteRegFrame(e, c, a, [byte]);
    assert Range(c.bank, a, 1) == {(c.bank, a)};
  }

  /** What a write leaves is what a read of the same bytes returns. */
  lemma WriteThenRead(e: Env, c: Chip, a: RegAddr, data: seq<bv8>)
    requires Coherent(e, c) && a + |data| <= 256
    requires !Covers(a, |data|, Addr(e, FuncCfgAccess))
    ensures var w := WriteReg(e, c, a, data);
      var r := ReadReg(e, w.c, a, |data|);
      w.st == 0 ==> r.v == data
  {
    WriteRegFrame(e, c, a, data);
  }

  /** A successful single-byte write, in closed form. */
  lemma WriteByte(e: Env, c: Chip, a: RegAddr, byte: bv8)
    requires Coherent(e, c) && e.fail(|c.log|) == 0
    ensures var r := WriteReg(e, c, a, [byte]);
      var shared := a == Fca(e);
      && r.c.user == (if c.bank == User || shared then c.user[a := byte] else c.user)
      && r.c.emb == (if c.bank == Embedded || shared then c.emb[a := byte] else c.emb)
      && r.c.bank == BankOf(e.lay, r.c.user[Fca(e)])
  {
    assert Store(c.user, a, [byte]) == c.user[a := byte];
    assert Store(c.emb, a, [byte]) == c.emb[a := byte];
  }

  /**
   * asm330lhb_mem_bank_set rewrites only the reg_access bits of
   * FUNC_CFG_ACCESS, in both files, and only when both transactions succeed.
   */
  lemma MemBankSetEffect(e: Env, c: Chip, b: Bank)
    requires Coherent(e, c)
    ensures var r := MemBankSet(e, c, b);
      var fca := Fca(e);
      var byte := Set(c.user[fca], Fld(e, RegAccess), BankCode(e.lay, b));
      && (r.st == 0 ==> r.c.user == c.user[fca := byte] && r.c.emb == c.emb[fca := byte])
      && (r.st != 0 ==> r.c.user == c.user && r.c.emb == c.emb && r.c.bank == c.bank)
  {
    var a := Addr(e, FuncCfgAccess);
    var rd := ReadReg(e, c, a, 1);
    if rd.st == 0 {
      assert rd.v[0] == c.user[Fca(e)];
      var byte := Set(rd.v[0], Fld(e, RegAccess), BankCode(e.lay, b));
      if e.fail(|rd.c.log|) == 0 {
        WriteByte(e, rd.c, a, byte);
      }
    }
  }

  /**
   * asm330lhb_mem_bank_set selects the requested bank when both its
   * transactions succeed and otherwise keeps the bank; it changes no register
   * but the reg_access bits of FUNC_CFG_ACCESS, and its write is issued only
   * after its read succeeded.
   */
  lemma MemBankSetSelects(e: Env, c: Chip, b: Bank)
    requires Coherent(e, c)
    ensures var r := MemBankSet(e, c, b);
      && (r.st == 0 ==> r.c.bank == b)
      && (r.st != 0 ==> r.c.bank == c.bank)
      && Confined(e, c, r.c, r.st, {})
  {
    MemBankSetLog(e, c, b);
    MemBankSetSame(e, c, b);
    MemBankSetBank(e, c, b);
  }

  /** The bank switch issues its read, then its write only if the read succeeded. */
  lemma MemBankSetLog(e: Env, c: Chip, b: Bank)
    requires Coherent(e, c)
    ensures var r := MemBankSet(e, c, b);
      Extends(c, r.c) && StopsAtFirstFailure(Delta(c, r.c), r.st)
  {
    var a := Addr(e, FuncCfgAccess);
    var rd := ReadReg(e, c, a, 1);
    if rd.st == 0 {
      var byte := Set(rd.v[0], Fld(e, RegAccess), BankCode(e.lay, b));
      var w := WriteReg(e, rd.c, a, [byte]);
      assert Delta(c, w.c) == [Rd(c.bank, a, 1, 0), Wr(c.bank, a, [byte], w.st)];
    } else {
      assert Delta(c, rd.c) == [Rd(c.bank, a, 1, rd.st)];
    }
  }

  /** The bank switch changes only the reg_access bits of FUNC_CFG_ACCESS. */
  lemma MemBankSetSame(e: Env, c: Chip, b: Bank)
    requires Coherent(e, c)
    ensures var r := MemBankSet(e, c, b);
      SameExcept(e, c, r.c, {})
  {
    MemBankSetEffect(e, c, b);
  }

  /** The bank switch selects the bank when it succeeds and keeps it when it fails. */
  lemma MemBankSetBank(e: Env, c: Chip, b: Bank)
    requires Coherent(e, c)
    ensures var r := MemBankSet(e, c, b);
      && (r.st == 0 ==> r.c.bank == b)
      && (r.st != 0 ==> r.c.bank == c.bank)
  {
    MemBankSetEffect(e, c, b);
    var a := Addr(e, FuncCfgAccess);
    var rd := ReadReg(e, c, a, 1);
    if rd.st == 0 {
      var byte := Set(rd.v[0], Fld(e, RegAccess), BankCode(e.lay, b));
      if e.fail(|rd.c.log|) == 0 {
        WriteByte(e, rd.c, a, byte);
        assert Get(byte, Fld(e, RegAccess)) == BankCode(e.lay, b);
      }
    }
  }

  /** asm330lhb_mem_bank_get reports the bank a successful asm330lhb_mem_bank_set selected. */
  lemma MemBankSetThenGet(e: Env, c: Chip, b: Bank)
    requires Coherent(e, c)
    ensures var s := MemBankSet(e, c, b);
      s.st == 0 ==> MemBankGet(e, s.c).v == b
  {
    MemBankSetSelects(e, c, b);
  }

  /**
   * The single-field setter: it keeps the bank and changes only register `a`
   * of the selected bank, which on success holds the fields assigned over its
   * previous contents; a failed read issues no write.
   */
  lemma SetFieldsEffect(e: Env, c: Chip, a: RegAddr, ups: seq<Update>)
    requires Coherent(e, c) && AllWellFormed(ups) && a != Fca(e)
    ensures var r := SetFields(e, c, a, ups);
      && r.c.bank == c.bank
      && (r.st == 0 ==> File(r.c, c.bank)[a] == Overlay(File(c, c.bank)[a], ups))
      && (e.fail(|c.log|) != 0 ==> Delta(c, r.c) == [Rd(c.bank, a, 1, r.st)])
      && Confined(e, c, r.c, r.st, {(c.bank, a)})
  {
    var rd := ReadReg(e, c, a, 1);
    if rd.st == 0 {
      var byte := Overlay(rd.v[0], ups);
      var w := WriteReg(e, rd.c, a, [byte]);
      WriteRegFrame(e, rd.c, a, [byte]);
      assert Range(c.bank, a, 1) == {(c.bank, a)};
      assert Delta(c, w.c) == [Rd(c.bank, a, 1, 0), Wr(c.bank, a, [byte], w.st)];
    } else {
      assert Delta(c, rd.c) == [Rd(c.bank, a, 1, rd.st)];
    }
  }

  /**
   * A set-then-get round trip: after a successful read-modify-write of one
   * field, a read decodes the value written, for every code the getter's table
   * defines that fits the field.
   */
  lemma SetThenGet(e: Env, c: Chip, a: RegAddr, f: Field, d: Decoder, v: bv8)
    requires Coherent(e, c) && WellFormed(f) && Fits(f, v) && a != Fca(e)
    requires d.Raw? || v in d.codes
    ensures var s := SetFields(e, c, a, [Update(f, v)]);
      s.st == 0 ==> GetField(e, s.c, a, f, d).v == v
  {
    var s := SetFields(e, c, a, [Update(f, v)]);
    SetFieldsEffect(e, c, a, [Update(f, v)]);
    if s.st == 0 {
      OverlayGet(File(c, c.bank)[a], [Update(f, v)], 0);
      assert Decode(d, v) == v;
    }
  }

  /**
   * A setter of the embedded-functions bank changes only its register there;
   * on success that register holds the assigned fields and the user bank is
   * selected again.
   */
  lemma EmbSetFieldsEffect(e: Env, c: Chip, a: RegAddr, ups: seq<Update>)
    requires Coherent(e, c) && AllWellFormed(ups) && a != Fca(e)
    ensures var r := EmbSetFields(e, c, a, ups);
      && (r.st == 0 ==> r.c.bank == User && r.c.emb[a] == Overlay(c.emb[a], ups))
      && Confined(e, c, r.c, r.st, {(Embedded, a)})
  {
    var b1 := MemBankSet(e, c, Embedded);
    MemBankSetSelects(e, c, Embedded);
    if b1.st == 0 {
      var s := SetFields(e, b1.c, a, ups);
      SetFieldsEffect(e, b1.c, a, ups);
      ConfinedTrans(e, c, b1.c, s.c, s.st, {}, {(Embedded, a)});
      if s.st == 0 {
        var b2 := MemBankSet(e, s.c, User);
        MemBankSetSelects(e, s.c, User);
        ConfinedTrans(e, c, s.c, b2.c, b2.st, {(Embedded, a)}, {});
      }
    }
  }

  /**
   * A getter of the embedded-functions bank changes no register; on success
   * it decodes the register's field and the user bank is selected again.
   */
  lemma EmbGetFieldEffect(e: Env, c: Chip, a: RegAddr, f: Field, d: Decoder)
    requires Coherent(e, c) && WellFormed(f) && a != Fca(e)
    ensures var r := EmbGetField(e, c, a, f, d);
      && (r.st == 0 ==> r.c.bank == User && r.v == Decode(d, Get(c.emb[a], f)))
      && Confined(e, c, r.c, r.st, {})
  {
    var b1 := MemBankSet(e, c, Embedded);
    MemBankSetSelects(e, c, Embedded);
    if b1.st == 0 {
      Kept(e, c, b1.c, 0, {}, Embedded, a);
      var g := GetField(e, b1.c, a, f, d);
      ReadRegConfined(e, b1.c, a, 1);
      assert g.v == Decode(d, Get(c.emb[a], f));
      ConfinedTrans(e, c, b1.c, g.c, g.st, {}, {});
      if g.st == 0 {
        var b2 := MemBankSet(e, g.c, User);
        MemBankSetSelects(e, g.c, User);
        ConfinedTrans(e, c, g.c, b2.c, b2.st, {}, {});
      }
    }
  }

  /** The set-then-get round trip in the embedded-functions bank. */
  lemma EmbSetThenGet(e: Env, c: Chip, a: RegAddr, f: Field, d: Decoder, v: bv8)
    requires Coherent(e, c) && WellFormed(f) && Fits(f, v) && a != Fca(e)
    requires d.Raw? || v in d.codes
    ensures var s := EmbSetFields(e, c, a, [Update(f, v)]);
      var g := EmbGetField(e, s.c, a, f, d);
      s.st == 0 && g.st == 0 ==> g.v == v
  {
    var s := EmbSetFields(e, c, a, [Update(f, v)]);
    EmbSetFieldsEffect(e, c, a, [Update(f, v)]);
    EmbGetFieldEffect(e, s.c, a, f, d);
    if s.st == 0 {
      OverlayGet(c.emb[a], [Update(f, v)], 0);
      assert Decode(d, v) == v;
    }
  }

  /** A block read of the embedded-functions bank changes no register and returns its bytes. */
  lemma EmbReadEffect(e: Env, c: Chip, a: RegAddr, n: nat)
    requires Coherent(e, c) && a + n <= 256 && !Covers(a, n, Fca(e))
    ensures var r := EmbRead(e, c, a, n);
      && (r.st == 0 ==> r.c.bank == User && |r.v| == n && forall i :: 0 <= i < n ==> r.v[i] == c.emb[a + i])
      && Confined(e, c, r.c, r.st, {})
  {
    var b1 := MemBankSet(e, c, Embedded);
    MemBankSetSelects(e, c, Embedded);
    if b1.st == 0 {
      var rd := ReadReg(e, b1.c, a, n);
      ReadRegConfined(e, b1.c, a, n);
      assert forall i :: 0 <= i < n ==> rd.v[i] == b1.c.emb[a + i] == c.emb[a + i];
      ConfinedTrans(e, c, b1.c, rd.c, rd.st, {}, {});
      if rd.st == 0 {
        var b2 := MemBankSet(e, rd.c, User);
        MemBankSetSelects(e, rd.c, User);
        ConfinedTrans(e, c, rd.c, b2.c, b2.st, {}, {});
      }
    }
  }

  /** A two-byte write away from FUNC_CFG_ACCESS changes only the two bytes it covers. */
  lemma WritePairConfined(e: Env, c: Chip, a: RegAddr, data: seq<bv8>)
    requires Coherent(e, c) && |data| == 2 && a + 2 <= 256 && !Covers(a, 2, Fca(e))
    ensures var r := WriteReg(e, c, a, data);
      && r.c.bank == c.bank && r.st == e.fail(|c.log|)
      && (r.st == 0 ==> File(r.c, c.bank)[a] == data[0] && File(r.c, c.bank)[a + 1] == data[1])
      && Confined(e, c, r.c, r.st, {(c.bank, a), (c.bank, a + 1)})
  {
    WriteRegFrame(e, c, a, data);
    assert Range(c.bank, a, 2) == {(c.bank, a), (c.bank, a + 1)};
  }

  /** Two read-modify-writes change their two registers only, each as assigned. */
  lemma SetFieldsTwiceEffect(e: Env, c: Chip, a1: RegAddr, u1: seq<Update>, a2: RegAddr, u2: seq<Update>)
    requires Coherent(e, c) && AllWellFormed(u1) && AllWellFormed(u2)
    requires a1 != Fca(e) && a2 != Fca(e) && a1 != a2
    ensures var r := SetFieldsTwice(e, c, a1, u1, a2, u2);
      && r.c.bank == c.bank
      && Confined(e, c, r.c, r.st, {(c.bank, a1), (c.bank, a2)})
      && (r.st == 0 ==>
           && File(r.c, c.bank)[a1] == Overlay(File(c, c.bank)[a1], u1)
           && File(r.c, c.bank)[a2] == Overlay(File(c, c.bank)[a2], u2))
  {
    var w1: set<(Bank, int)> := {(c.bank, a1)};
    var w2: set<(Bank, int)> := {(c.bank, a2)};
    var s1 := SetFields(e, c, a1, u1);
    SetFieldsEffect(e, c, a1, u1);
    if s1.st == 0 {
      var s2 := SetFields(e, s1.c, a2, u2);
      SetFieldsEffect(e, s1.c, a2, u2);
      ConfinedTrans(e, c, s1.c, s2.c, s2.st, w1, w2);
      Kept(e, s1.c, s2.c, s2.st, w2, c.bank, a1);
      Kept(e, c, s1.c, 0, w1, c.bank, a2);
    } else {
      SameWiden(e, c, s1.c, w1, w1 + w2);
    }
  }

  /** The read-modify-write and the whole-byte write change their two registers only. */
  lemma SetFieldsThenWriteEffect(e: Env, c: Chip, a1: RegAddr, u1: seq<Update>, a2: RegAddr, byte: bv8)
    requires Coherent(e, c) && AllWellFormed(u1)
    requires a1 != Fca(e) && a2 != Fca(e) && a1 != a2
    ensures var r := SetFieldsThenWrite(e, c, a1, u1, a2, byte);
      && r.c.bank == c.bank
      && Confined(e, c, r.c, r.st, {(c.bank, a1), (c.bank, a2)})
      && (r.st == 0 ==>
           && File(r.c, c.bank)[a1] == Overlay(File(c, c.bank)[a1], u1)
           && File(r.c, c.bank)[a2] == byte)
  {
    var w1: set<(Bank, int)> := {(c.bank, a1)};
    var w2: set<(Bank, int)> := {(c.bank, a2)};
    var s1 := SetFields(e, c, a1, u1);
    SetFieldsEffect(e, c, a1, u1);
    if s1.st == 0 {
      var s2 := WriteReg(e, s1.c, a2, [byte]);
      WriteConfined(e, s1.c, a2, byte);
      ConfinedTrans(e, c, s1.c, s2.c, s2.st, w1, w2);
      Kept(e, s1.c, s2.c, s2.st, w2, c.bank, a1);
    } else {
      SameWiden(e, c, s1.c, w1, w1 + w2);
    }
  }

  /** Writing back the byte a register holds changes nothing, though the write is issued. */
  lemma WriteBackConfined(e: Env, c: Chip, a: RegAddr)
    requires Coherent(e, c) && a != Fca(e)
    ensures var byte := File(c, c.bank)[a];
      var r := WriteReg(e, c, a, [byte]);
      && r.c.bank == c.bank && r.st == e.fail(|c.log|)
      && Delta(c, r.c) == [Wr(c.bank, a, [byte], r.st)]
      && Confined(e, c, r.c, r.st, {})
  {
    var byte := File(c, c.bank)[a];
    WriteConfined(e, c, a, byte);
    var r := WriteReg(e, c, a, [byte]);
    if r.st == 0 {
      WriteByte(e, c, a, byte);
      assert r.c.user == c.user && r.c.emb == c.emb;
    }
  }

  /** Two writes change their two registers only, which hold the bytes on success. */
  lemma WriteTwoEffect(e: Env, c: Chip, a1: RegAddr, b1: bv8, a2: RegAddr, b2: bv8)
    requires Coherent(e, c) && a1 != Fca(e) && a2 != Fca(e) && a1 != a2
    ensures var r := WriteTwo(e, c, a1, b1, a2, b2);
      && r.c.bank == c.bank
      && Confined(e, c, r.c, r.st, {(c.bank, a1), (c.bank, a2)})
      && (r.st == 0 ==> File(r.c, c.bank)[a1] == b1 && File(r.c, c.bank)[a2] == b2)
  {
    var w1: set<(Bank, int)> := {(c.bank, a1)};
    var w2: set<(Bank, int)> := {(c.bank, a2)};
    var s1 := WriteReg(e, c, a1, [b1]);
    WriteConfined(e, c, a1, b1);
    if s1.st == 0 {
      var s2 := WriteReg(e, s1.c, a2, [b2]);
      WriteConfined(e, s1.c, a2, b2);
      ConfinedTrans(e, c, s1.c, s2.c, s2.st, w1, w2);
      Kept(e, s1.c, s2.c, s2.st, w2, c.bank, a1);
    } else {
      SameWiden(e, c, s1.c, w1, w1 + w2);
    }
  }

  /** Two reads change no register; on success they return the two registers. */
  lemma ReadTwoEffect(e: Env, c: Chip, a1: RegAddr, a2: RegAddr)
    requires Coherent(e, c)
    ensures var r := ReadTwo(e, c, a1, a2);
      && r.c.bank == c.bank
      && Confined(e, c, r.c, r.st, {})
      && (r.st == 0 ==> r.v == (File(c, c.bank)[a1], File(c, c.bank)[a2]))
  {
    var r1 := ReadReg(e, c, a1, 1);
    ReadRegConfined(e, c, a1, 1);
    if r1.st == 0 {
      var r2 := ReadReg(e, r1.c, a2, 1);
      ReadRegConfined(e, r1.c, a2, 1);
      ConfinedTrans(e, c, r1.c, r2.c, r2.st, {}, {});
    }
  }

  /**
   * The switch to the embedded-functions bank: on success it selects that
   * bank, and either way it changes nothing an operation's frame must name.
   */
  lemma Enter(e: Env, c: Chip, w: set<(Bank, int)>)
    requires Coherent(e, c)
    ensures var b1 := MemBankSet(e, c, Embedded);
      && Confined(e, c, b1.c, b1.st, w)
      && (b1.st == 0 ==>
           && b1.c.bank == Embedded && Confined(e, c, b1.c, 0, {})
           && b1.c.emb == c.emb[Fca(e) := b1.c.emb[Fca(e)]]
           && b1.c.user == c.user[Fca(e) := b1.c.user[Fca(e)]])
  {
    MemBankSetSelects(e, c, Embedded);
    MemBankSetEffect(e, c, Embedded);
    SameWiden(e, c, MemBankSet(e, c, Embedded).c, {}, w);
  }

  /**
   * An operation of the embedded-functions bank: the switch there succeeded,
   * a step confined to `w` followed, and the switch back is issued only when
   * that step succeeded; the switch back changes no register of either bank
   * but FUNC_CFG_ACCESS.
   */
  lemma Bracket(e: Env, c: Chip, c2: Chip, st: int, w: set<(Bank, int)>)
    requires Coherent(e, c) && Coherent(e, c2)
    requires MemBankSet(e, c, Embedded).st == 0
    requires Confined(e, MemBankSet(e, c, Embedded).c, c2, st, w)
    ensures Confined(e, c, c2, st, w)
    ensures st == 0 ==>
      var b2 := MemBankSet(e, c2, User);
      && Confined(e, c, b2.c, b2.st, w)
      && (b2.st == 0 ==>
           && b2.c.bank == User
           && b2.c.emb == c2.emb[Fca(e) := b2.c.emb[Fca(e)]]
           && b2.c.user == c2.user[Fca(e) := b2.c.user[Fca(e)]])
  {
    var b1 := MemBankSet(e, c, Embedded);
    MemBankSetSelects(e, c, Embedded);
    ConfinedTrans(e, c, b1.c, c2, st, {}, w);
    assert {} + w == w;
    if st == 0 {
      var b2 := MemBankSet(e, c2, User);
      MemBankSetSelects(e, c2, User);
      MemBankSetEffect(e, c2, User);
      ConfinedTrans(e, c, c2, b2.c, b2.st, w, {});
      assert w + {} == w;
    }
  }

  /** A two-byte write of the embedded-functions bank changes only its two bytes there. */
  lemma EmbWritePairEffect(e: Env, c: Chip, a: RegAddr, data: seq<bv8>)
    requires Coherent(e, c) && |data| == 2 && a + 2 <= 256 && !Covers(a, 2, Fca(e))
    ensures var r := EmbWrite(e, c, a, data);
      && Confined(e, c, r.c, r.st, {(Embedded, a), (Embedded, a + 1)})
      && (r.st == 0 ==> r.c.bank == User && r.c.emb[a] == data[0] && r.c.emb[a + 1] == data[1])
  {
    var w: set<(Bank, int)> := {(Embedded, a), (Embedded, a + 1)};
    var b1 := MemBankSet(e, c, Embedded);
    Enter(e, c, w);
    if b1.st == 0 {
      var s2 := WriteReg(e, b1.c, a, data);
      WritePairConfined(e, b1.c, a, data);
      Bracket(e, c, s2.c, s2.st, w);
      if s2.st == 0 {
        assert a != Fca(e) && a + 1 != Fca(e);
      }
    }
  }
}
