// The driver as it runs against one device: an object whose fields are the
// selected bank, the two register files and the count of transactions issued,
// with the transaction log as a ghost field. Each method does what the C
// function does, step by step, and its contract ties the new state, the status
// and the output to the function of Bus or Paging that specifies it; the
// properties of those functions are proved there.

module Driver {
  import opened Bits
  import opened Layout
  import opened Bus
  import opened Odr
  import opened Engines
  import opened Paging
  import Rate
  import Routing
  import Splits
  import FsmPages
  import Samples
  import Outputs

  class Device {
    /** The header values and the status oracle of the platform callbacks. */
    const env: Env
    var bank: Bank
    var user: seq<bv8>
    var emb: seq<bv8>
    /** The number of transactions issued: the index of the next status. */
    var issued: nat
    ghost var log: seq<Txn>

    ghost function Now(): Chip
      reads this
    {
      Chip(bank, user, emb, log)
    }

    ghost predicate Valid()
      reads this
    {
      Coherent(env, Now()) && issued == |log|
    }

    /** A device in the state `c` with no transaction issued yet. */
    constructor (e: Env, c: Chip)
      requires Coherent(e, c) && c.log == []
      ensures Valid() && env == e && Now() == c
    {
      env, bank, user, emb, issued := e, c.bank, c.user, c.emb, 0;
      log := [];
    }

    /** asm330lhb_read_reg: `n` bytes from `a` of the selected bank; no register changes. */
    method ReadReg(a: RegAddr, n: nat) returns (st: int, data: seq<bv8>)
      requires Valid() && a + n <= 256
      modifies this
      ensures Valid()
      ensures var r := Bus.ReadReg(env, old(Now()), a, n); Now() == r.c && st == r.st && data == r.v
      ensures bank == old(bank) && user == old(user) && emb == old(emb)
      ensures |data| == n && forall i :: 0 <= i < n ==> data[i] == File(old(Now()), bank)[a + i]
    {
      st := env.fail(issued);
      data := (if bank == User then user else emb)[a..a + n];
      log := log + [Rd(bank, a, n, st)];
      issued := issued + 1;
    }

    /** asm330lhb_write_reg: `data` to `a` of the selected bank, committed only when the write succeeds. */
    method WriteReg(a: RegAddr, data: seq<bv8>) returns (st: int)
      requires Valid() && a + |data| <= 256
      modifies this
      ensures Valid()
      ensures var r := Bus.WriteReg(env, old(Now()), a, data); Now() == r.c && st == r.st
      ensures st != 0 ==> bank == old(bank) && user == old(user) && emb == old(emb)
      ensures st == 0 ==> forall i :: 0 <= i < |data| ==> File(Now(), old(bank))[a + i] == data[i]
    {
      st := env.fail(issued);
      ghost var c := Now();
      if st == 0 {
        var c1 := Commit(env, Chip(bank, user, emb, []), a, data);
        bank, user, emb := c1.bank, c1.user, c1.emb;
      }
      log := log + [Wr(c.bank, a, data, st)];
      issued := issued + 1;
    }

    /** asm330lhb_mem_bank_set: read FUNC_CFG_ACCESS, assign reg_access, write it back. */
    method MemBankSet(b: Bank) returns (st: int)
      requires Valid()
      modifies this
      ensures Valid()
      ensures var r := Bus.MemBankSet(env, old(Now()), b); Now() == r.c && st == r.st
      ensures st == 0 ==> bank == b
      ensures st != 0 ==> bank == old(bank)
    {
      ghost var c := Now();
      MemBankSetSelects(env, c, b);
      var a := Addr(env, FuncCfgAccess);
      var d;
      st, d := ReadReg(a, 1);
      if st == 0 {
        st := WriteReg(a, [Set(d[0], Fld(env, RegAccess), BankCode(env.lay, b))]);
      }
    }

    /** asm330lhb_mem_bank_get: the bank FUNC_CFG_ACCESS selects. */
    method MemBankGet() returns (st: int, b: Bank)
      requires Valid()
      modifies this
      ensures Valid()
      ensures var r := Bus.MemBankGet(env, old(Now())); Now() == r.c && st == r.st && b == r.v
      ensures b == old(bank)
    {
      var d;
      st, d := ReadReg(Addr(env, FuncCfgAccess), 1);
      b := BankOf(env.lay, d[0]);
    }

    /** The driver's setters: read register `a`, assign the fields, and write it back if the read succeeded. */
    method SetFields(a: RegAddr, ups: seq<Update>) returns (st: int)
      requires Valid() && AllWellFormed(ups)
      modifies this
      ensures Valid()
      ensures var r := Bus.SetFields(env, old(Now()), a, ups); Now() == r.c && st == r.st
    {
      var d;
      st, d := ReadReg(a, 1);
      if st == 0 {
        st := WriteReg(a, [Overlay(d[0], ups)]);
      }
    }

    /** The driver's getters: read register `a` and decode one field. */
    method GetField(a: RegAddr, f: Field, dec: Decoder) returns (st: int, v: bv8)
      requires Valid() && WellFormed(f)
      modifies this
      ensures Valid()
      ensures var r := Bus.GetField(env, old(Now()), a, f, dec); Now() == r.c && st == r.st && v == r.v
    {
      var d;
      st, d := ReadReg(a, 1);
      v := Decode(dec, Get(d[0], f));
    }

    /** A setter of the embedded-functions bank: switch bank, set the fields, switch back. */
    method EmbSetFields(a: RegAddr, ups: seq<Update>) returns (st: int)
      requires Valid() && AllWellFormed(ups)
      modifies this
      ensures Valid()
      ensures var r := Bus.EmbSetFields(env, old(Now()), a, ups); Now() == r.c && st == r.st
    {
      st := MemBankSet(Embedded);
      if st == 0 {
        st := SetFields(a, ups);
        if st == 0 {
          st := MemBankSet(User);
        }
      }
    }

    /** A getter of the embedded-functions bank: the output stays 0 unless the read succeeded. */
    method EmbGetField(a: RegAddr, f: Field, dec: Decoder) returns (st: int, v: bv8)
      requires Valid() && WellFormed(f)
      modifies this
      ensures Valid()
      ensures var r := Bus.EmbGetField(env, old(Now()), a, f, dec); Now() == r.c && st == r.st && v == r.v
    {
      v := 0;
      st := MemBankSet(Embedded);
      if st == 0 {
        var x;
        st, x := GetField(a, f, dec);
        if st == 0 {
          v := x;
          st := MemBankSet(User);
        }
      }
    }

    // -------------------------------------------------------------------
    // The raw output getters

    /** asm330lhb_timestamp_raw_get */
    method TimestampRawGet() returns (st: int, v: nat)
      requires Valid() && Fit(env.lay, Timestamp0, 4)
      modifies this
      ensures Valid()
      ensures var r := Outputs.TimestampRawGet(env, old(Now())); Now() == r.c && st == r.st && v == r.v
    {
      var buff;
      st, buff := ReadReg(Addr(env, Timestamp0), 4);
      v := Samples.Timestamp(Outputs.Unsigned(buff));
    }

    /** asm330lhb_temperature_raw_get */
    method TemperatureRawGet() returns (st: int, v: int)
      requires Valid() && Fit(env.lay, OutTempL, 2)
      modifies this
      ensures Valid()
      ensures var r := Outputs.TemperatureRawGet(env, old(Now())); Now() == r.c && st == r.st && v == r.v
    {
      var buff;
      st, buff := ReadReg(Addr(env, OutTempL), 2);
      v := Samples.Int16(buff[0] as int, buff[1] as int);
    }

    /** asm330lhb_angular_rate_raw_get and asm330lhb_acceleration_raw_get, by their first output register. */
    method AxesRawGet(reg: RegName) returns (st: int, v: Samples.Axes)
      requires Valid() && Fit(env.lay, reg, 6)
      modifies this
      ensures Valid()
      ensures var r := Outputs.AxesRawGet(env, old(Now()), reg); Now() == r.c && st == r.st && v == r.v
    {
      var buff;
      st, buff := ReadReg(Addr(env, reg), 6);
      v := Samples.AxesOf(Outputs.Unsigned(buff));
    }

    /** A block write of the embedded-functions bank: switch bank, write, switch back. */
    method EmbWrite(a: RegAddr, data: seq<bv8>) returns (st: int)
      requires Valid() && a + |data| <= 256
      modifies this
      ensures Valid()
      ensures var r := Bus.EmbWrite(env, old(Now()), a, data); Now() == r.c && st == r.st
    {
      st := MemBankSet(Embedded);
      if st == 0 {
        st := WriteReg(a, data);
        if st == 0 {
          st := MemBankSet(User);
        }
      }
    }

    /** Two read-modify-writes in the selected bank, the second only after the first succeeded. */
    method SetFieldsTwice(a1: RegAddr, u1: seq<Update>, a2: RegAddr, u2: seq<Update>) returns (st: int)
      requires Valid() && AllWellFormed(u1) && AllWellFormed(u2)
      modifies this
      ensures Valid()
      ensures var r := Bus.SetFieldsTwice(env, old(Now()), a1, u1, a2, u2); Now() == r.c && st == r.st
    {
      st := SetFields(a1, u1);
      if st == 0 {
        st := SetFields(a2, u2);
      }
    }

    /** A read-modify-write, then a write of a whole byte. */
    method SetFieldsThenWrite(a1: RegAddr, u1: seq<Update>, a2: RegAddr, byte: bv8) returns (st: int)
      requires Valid() && AllWellFormed(u1)
      modifies this
      ensures Valid()
      ensures var r := Bus.SetFieldsThenWrite(env, old(Now()), a1, u1, a2, byte); Now() == r.c && st == r.st
    {
      st := SetFields(a1, u1);
      if st == 0 {
        st := WriteReg(a2, [byte]);
      }
    }

    /** Two single-byte reads, the second only after the first succeeded. */
    method ReadTwo(a1: RegAddr, a2: RegAddr) returns (st: int, v: (bv8, bv8))
      requires Valid()
      modifies this
      ensures Valid()
      ensures var r := Bus.ReadTwo(env, old(Now()), a1, a2); Now() == r.c && st == r.st && v == r.v
    {
      var d1, d2;
      st, d1 := ReadReg(a1, 1);
      v := (d1[0], 0);
      if st == 0 {
        st, d2 := ReadReg(a2, 1);
        v := (d1[0], d2[0]);
      }
    }

    /** A block read of the embedded-functions bank. */
    method EmbRead(a: RegAddr, n: nat) returns (st: int, data: seq<bv8>)
      requires Valid() && a + n <= 256
      modifies this
      ensures Valid()
      ensures var r := Bus.EmbRead(env, old(Now()), a, n); Now() == r.c && st == r.st && data == r.v
    {
      data := [];
      st := MemBankSet(Embedded);
      if st == 0 {
        st, data := ReadReg(a, n);
        if st == 0 {
          st := MemBankSet(User);
        }
      }
    }

    /** The switch to the embedded-functions bank, then one read of `a` if it succeeded. */
    method SwitchThenRead(a: RegAddr) returns (st: int, data: seq<bv8>)
      requires Valid()
      modifies this
      ensures Valid()
      ensures var r := Engines.SwitchThenRead(env, old(Now()), a); Now() == r.c && st == r.st && data == r.v
    {
      data := [0];
      st := MemBankSet(Embedded);
      if st == 0 {
        st, data := ReadReg(a, 1);
      }
    }

    // -------------------------------------------------------------------
    // The getters of split and multi-register fields

    /** asm330lhb_xl_hp_path_on_out_get */
    method HpPathGet() returns (st: int, v: bv8)
      requires Valid() && Fields(env.lay)
      modifies this
      ensures Valid()
      ensures var r := Splits.HpPathGet(env, old(Now())); Now() == r.c && st == r.st && v == r.v
    {
      var d;
      st, d := ReadReg(Addr(env, Ctrl8Xl), 1);
      v := Decode(env.lay.table(HpPathTable), Splits.HpPathJoin(env, d[0]));
    }

    /** asm330lhb_gy_hp_path_internal_get */
    method GyHpGet() returns (st: int, v: bv8)
      requires Valid() && Fields(env.lay)
      modifies this
      ensures Valid()
      ensures var r := Splits.GyHpGet(env, old(Now())); Now() == r.c && st == r.st && v == r.v
    {
      var d;
      st, d := ReadReg(Addr(env, Ctrl7G), 1);
      v := Decode(env.lay.table(GyHpTable), Splits.GyHpJoin(env, d[0]));
    }

    /** asm330lhb_i3c_disable_get */
    method I3cGet() returns (st: int, v: bv8)
      requires Valid() && Fields(env.lay)
      modifies this
      ensures Valid()
      ensures var r := Splits.I3cGet(env, old(Now())); Now() == r.c && st == r.st && v == r.v
    {
      var d;
      st, d := ReadTwo(Addr(env, Ctrl9Xl), Addr(env, I3cBusAvb));
      v := Decode(env.lay.table(I3cTable), Splits.I3cJoin(env, d.0, d.1));
    }

    /** asm330lhb_int_notification_get: INT_CFG0, then PAGE_RW of the embedded-functions bank. */
    method NotificationGet() returns (st: int, v: bv8)
      requires Valid() && Fields(env.lay)
      modifies this
      ensures Valid()
      ensures var r := Splits.NotificationGet(env, old(Now())); Now() == r.c && st == r.st && v == r.v
    {
      var d := env.lay.table(LirTable);
      var cfg0, rw;
      st, cfg0 := ReadReg(Addr(env, IntCfg0), 1);
      v := Decode(d, 0);
      if st == 0 {
        st, rw := EmbRead(Addr(env, PageRw), 1);
        if st == 0 {
          v := Decode(d, Splits.NotificationJoin(env, cfg0[0], rw[0]));
        }
      }
    }

    /** asm330lhb_ff_dur_get */
    method FfDurGet() returns (st: int, v: bv8)
      requires Valid() && Fields(env.lay)
      modifies this
      ensures Valid()
      ensures var r := Splits.FfDurGet(env, old(Now())); Now() == r.c && st == r.st && v == r.v
    {
      var d;
      st, d := ReadTwo(Addr(env, WakeUpDur), Addr(env, FreeFall));
      v := Splits.FfDurJoin(env, d.0, d.1);
    }

    /** asm330lhb_fifo_watermark_get */
    method WatermarkGet() returns (st: int, v: bv16)
      requires Valid() && Fields(env.lay)
      modifies this
      ensures Valid()
      ensures var r := Splits.WatermarkGet(env, old(Now())); Now() == r.c && st == r.st && v == r.v
    {
      var d;
      st, d := ReadTwo(Addr(env, FifoCtrl2), Addr(env, FifoCtrl1));
      v := Splits.WatermarkJoin(env, d.0, d.1);
    }

    /** asm330lhb_batch_counter_threshold_get */
    method BatchThGet() returns (st: int, v: bv16)
      requires Valid() && Fields(env.lay)
      modifies this
      ensures Valid()
      ensures var r := Splits.BatchThGet(env, old(Now())); Now() == r.c && st == r.st && v == r.v
    {
      var d;
      st, d := ReadTwo(Addr(env, CounterBdrReg1), Addr(env, CounterBdrReg2));
      v := Splits.BatchThJoin(env, d.0, d.1);
    }

    /** asm330lhb_fifo_data_level_get */
    method FifoLevelGet() returns (st: int, v: bv16)
      requires Valid() && Fields(env.lay)
      modifies this
      ensures Valid()
      ensures var r := Splits.FifoLevelGet(env, old(Now())); Now() == r.c && st == r.st && v == r.v
    {
      var d;
      st, d := ReadTwo(Addr(env, FifoStatus1), Addr(env, FifoStatus2));
      v := Word(Get(d.1, Fld(env, FifoStatus2Diff)), Get(d.0, Fld(env, FifoStatus1Diff)));
    }

    /** asm330lhb_long_cnt_get: both bytes of FSM_LONG_COUNTER in one read of the embedded bank. */
    method LongCntGet() returns (st: int, v: bv16)
      requires Valid() && Addr(env, FsmLongCounterL) + 2 <= 256
      modifies this
      ensures Valid()
      ensures var r := Splits.LongCntGet(env, old(Now())); Now() == r.c && st == r.st && v == r.v
    {
      var d;
      st, d := EmbRead(Addr(env, FsmLongCounterL), 2);
      v := 0;
      if st == 0 {
        v := Word(d[1], d[0]);
      }
    }

    // -------------------------------------------------------------------
    // The getters of the embedded functions

    /** asm330lhb_emb_fsm_en_get: it writes back the byte it read before switching back. */
    method EmbFsmEnGet() returns (st: int, v: bv8)
      requires Valid() && Fields(env.lay)
      modifies this
      ensures Valid()
      ensures var r := Engines.EmbFsmEnGet(env, old(Now())); Now() == r.c && st == r.st && v == r.v
    {
      var n := Addr(env, EmbFuncEnB);
      v := 0;
      st := MemBankSet(Embedded);
      if st == 0 {
        var d;
        st, d := ReadReg(n, 1);
        if st == 0 {
          v := Get(d[0], Fld(env, FsmEn));
          st := WriteReg(n, [d[0]]);
          if st == 0 {
            st := MemBankSet(User);
          }
        }
      }
    }

    /** asm330lhb_fsm_data_rate_get */
    method FsmDataRateGet() returns (st: int, o: EmbOdr)
      requires Valid() && Fields(env.lay)
      modifies this
      ensures Valid()
      ensures var r := Engines.FsmDataRateGet(env, old(Now())); Now() == r.c && st == r.st && o == r.v
    {
      var g;
      st, g := EmbGetField(Addr(env, EmbFuncOdrCfgB), Fld(env, FsmOdr), Raw);
      o := EmbOdrOf(env.lay.fsmOdrCode, g);
    }

    /** asm330lhb_mlc_data_rate_get */
    method MlcDataRateGet() returns (st: int, o: EmbOdr)
      requires Valid() && Fields(env.lay)
      modifies this
      ensures Valid()
      ensures var r := Engines.MlcDataRateGet(env, old(Now())); Now() == r.c && st == r.st && o == r.v
    {
      var g;
      st, g := EmbGetField(Addr(env, EmbFuncOdrCfgC), Fld(env, MlcOdr), Raw);
      o := EmbOdrOf(env.lay.mlcOdrCode, g);
    }

    /** asm330lhb_mlc_get */
    method MlcGet() returns (st: int, v: bv8)
      requires Valid() && Fields(env.lay)
      modifies this
      ensures Valid()
      ensures var r := Engines.MlcGet(env, old(Now())); Now() == r.c && st == r.st && v == r.v
    {
      st, v := EmbGetField(Addr(env, EmbFuncEnB), Fld(env, MlcEn), Raw);
    }

    /** asm330lhb_mlc_init_get: the status of the switch back replaces the earlier one. */
    method MlcInitGet() returns (st: int, v: bv8)
      requires Valid() && Fields(env.lay)
      modifies this
      ensures Valid()
      ensures var r := Engines.MlcInitGet(env, old(Now())); Now() == r.c && st == r.st && v == r.v
    {
      var st1, d := SwitchThenRead(Addr(env, EmbFuncInitB));
      v := if st1 == 0 then Get(d[0], Fld(env, MlcInit)) else 0;
      st := MemBankSet(User);
    }

    /** asm330lhb_emb_func_clk_dis_get: the statuses add up. */
    method ClkDisGet() returns (st: int, v: bv8)
      requires Valid() && Fields(env.lay)
      modifies this
      ensures Valid()
      ensures var r := Engines.ClkDisGet(env, old(Now())); Now() == r.c && st == r.st && v == r.v
    {
      var st1, d := SwitchThenRead(Addr(env, PageSel));
      var st2 := MemBankSet(User);
      st := st1 + st2;
      v := Get(d[0], Fld(env, EmbFuncClkDis));
    }

    /** asm330lhb_fsm_status_get: both reads are issued, and the first status is dropped. */
    method FsmStatusGet() returns (st: int, v: (bv8, bv8))
      requires Valid()
      modifies this
      ensures Valid()
      ensures var r := Engines.FsmStatusGet(env, old(Now())); Now() == r.c && st == r.st && v == r.v
    {
      var st1, a := ReadReg(Addr(env, FsmStatusAMainpage), 1);
      var b;
      st, b := ReadReg(Addr(env, FsmStatusBMainpage), 1);
      v := (a[0], b[0]);
    }

    /** asm330lhb_fsm_out_get */
    method FsmOutGet() returns (st: int, data: seq<bv8>)
      requires Valid() && Fit(env.lay, FsmOuts1, 16)
      modifies this
      ensures Valid()
      ensures var r := Engines.FsmOutGet(env, old(Now())); Now() == r.c && st == r.st && data == r.v
    {
      st, data := EmbRead(Addr(env, FsmOuts1), 16);
    }

    /** asm330lhb_mlc_out_get */
    method MlcOutGet() returns (st: int, data: seq<bv8>)
      requires Valid() && Fit(env.lay, Mlc0Src, 8)
      modifies this
      ensures Valid()
      ensures var r := Engines.MlcOutGet(env, old(Now())); Now() == r.c && st == r.st && data == r.v
    {
      st, data := EmbRead(Addr(env, Mlc0Src), 8);
    }

    /** asm330lhb_long_cnt_flag_data_ready_get */
    method LongCntFlagGet() returns (st: int, v: bv8)
      requires Valid() && Fields(env.lay)
      modifies this
      ensures Valid()
      ensures var r := Engines.LongCntFlagGet(env, old(Now())); Now() == r.c && st == r.st && v == r.v
    {
      st, v := EmbGetField(Addr(env, EmbFuncStatus), Fld(env, IsFsmLc), Raw);
    }

    // -------------------------------------------------------------------
    // The setters of split and multi-register fields

    /** asm330lhb_xl_hp_path_on_out_set: the three fields of CTRL8_XL from one code. */
    method HpPathSet(v: bv8) returns (st: int)
      requires Valid() && Fields(env.lay)
      modifies this
      ensures Valid()
      ensures var r := Splits.HpPathSet(env, old(Now()), v); Now() == r.c && st == r.st
    {
      st := SetFields(Addr(env, Ctrl8Xl), Splits.HpPathParts(env, v));
    }

    /** asm330lhb_gy_hp_path_internal_set: the two fields of CTRL7_G. */
    method GyHpSet(v: bv8) returns (st: int)
      requires Valid() && Fields(env.lay)
      modifies this
      ensures Valid()
      ensures var r := Splits.GyHpSet(env, old(Now()), v); Now() == r.c && st == r.st
    {
      st := SetFields(Addr(env, Ctrl7G), Splits.GyHpParts(env, v));
    }

    /** asm330lhb_i3c_disable_set: CTRL9_XL.i3c_disable, then I3C_BUS_AVB.i3c_bus_avb_sel. */
    method I3cSet(v: bv8) returns (st: int)
      requires Valid() && Fields(env.lay)
      modifies this
      ensures Valid()
      ensures var r := Splits.I3cSet(env, old(Now()), v); Now() == r.c && st == r.st
    {
      var p := Splits.I3cParts(env, v);
      st := SetFieldsTwice(Addr(env, Ctrl9Xl), p.0, Addr(env, I3cBusAvb), p.1);
    }

    /** asm330lhb_int_notification_set: INT_CFG0 in the user bank, then PAGE_RW.emb_func_lir in the embedded one. */
    method NotificationSet(v: bv8) returns (st: int)
      requires Valid() && Fields(env.lay)
      modifies this
      ensures Valid()
      ensures var r := Splits.NotificationSet(env, old(Now()), v); Now() == r.c && st == r.st
    {
      st := SetFields(Addr(env, IntCfg0), [Update(Fld(env, Lir), v & 0x01), Update(Fld(env, IntClrOnRead), v & 0x01)]);
      if st == 0 {
        st := EmbSetFields(Addr(env, PageRw), [Update(Fld(env, EmbFuncLir), (v & 0x02) >> 1)]);
      }
    }

    /** asm330lhb_ff_dur_set: the high bit to WAKE_UP_DUR, the low five to FREE_FALL. */
    method FfDurSet(v: bv8) returns (st: int)
      requires Valid() && Fields(env.lay)
      modifies this
      ensures Valid()
      ensures var r := Splits.FfDurSet(env, old(Now()), v); Now() == r.c && st == r.st
    {
      var p := Splits.FfDurParts(env, v);
      st := SetFieldsTwice(Addr(env, WakeUpDur), p.0, Addr(env, FreeFall), p.1);
    }

    /** asm330lhb_fifo_watermark_set: the high bit to FIFO_CTRL2, the low byte to FIFO_CTRL1. */
    method WatermarkSet(v: bv16) returns (st: int)
      requires Valid() && Fields(env.lay)
      modifies this
      ensures Valid()
      ensures var r := Splits.WatermarkSet(env, old(Now()), v); Now() == r.c && st == r.st
    {
      var p := Splits.WatermarkSplit(v);
      st := SetFieldsThenWrite(Addr(env, FifoCtrl2), [Update(Fld(env, FifoCtrl2Wtm), p.0)], Addr(env, FifoCtrl1), p.1);
    }

    /** asm330lhb_batch_counter_threshold_set: the high three bits to COUNTER_BDR_REG1, the low byte to COUNTER_BDR_REG2. */
    method BatchThSet(v: bv16) returns (st: int)
      requires Valid() && Fields(env.lay)
      modifies this
      ensures Valid()
      ensures var r := Splits.BatchThSet(env, old(Now()), v); Now() == r.c && st == r.st
    {
      var p := Splits.BatchThSplit(v);
      st := SetFieldsThenWrite(Addr(env, CounterBdrReg1), [Update(Fld(env, CntBdrThReg2), p.0)], Addr(env, CounterBdrReg2), p.1);
    }

    /** asm330lhb_long_cnt_set: both bytes of FSM_LONG_COUNTER in one write of the embedded bank. */
    method LongCntSet(v: bv16) returns (st: int)
      requires Valid() && Addr(env, FsmLongCounterL) + 2 <= 256
      modifies this
      ensures Valid()
      ensures var r := Splits.LongCntSet(env, old(Now()), v); Now() == r.c && st == r.st
    {
      st := EmbWrite(Addr(env, FsmLongCounterL), Splits.LongCntBytes(v));
    }

    // -------------------------------------------------------------------
    // The FSM and MLC setters

    /** asm330lhb_fsm_enable_set: FSM_ENABLE_A and FSM_ENABLE_B, then EMB_FUNC_EN_B.fsm_en derived from them. */
    method FsmEnableSet(a: bv8, b: bv8) returns (st: int)
      requires Valid() && Fields(env.lay)
      modifies this
      ensures Valid()
      ensures var r := Engines.FsmEnableSet(env, old(Now()), a, b); Now() == r.c && st == r.st
    {
      st := MemBankSet(Embedded);
      if st == 0 {
        st := WriteReg(Addr(env, FsmEnableA), [a]);
        if st == 0 {
          st := WriteReg(Addr(env, FsmEnableB), [b]);
          if st == 0 {
            st := SetFields(Addr(env, EmbFuncEnB), [Update(Fld(env, FsmEn), FsmEnBit(env, a, b))]);
          }
        }
        if st == 0 {
          st := MemBankSet(User);
        }
      }
    }

    /** asm330lhb_emb_fsm_en_set: EMB_FUNC_EN_B.fsm_en. */
    method EmbFsmEnSet(v: bv8) returns (st: int)
      requires Valid() && Fields(env.lay)
      modifies this
      ensures Valid()
      ensures var r := Engines.EmbFsmEnSet(env, old(Now()), v); Now() == r.c && st == r.st
    {
      st := EmbSetFields(Addr(env, EmbFuncEnB), [Update(Fld(env, FsmEn), v)]);
    }

    /** asm330lhb_fsm_data_rate_set: EMB_FUNC_ODR_CFG_B.fsm_odr with its two fixed fields. */
    method FsmDataRateSet(o: EmbOdr) returns (st: int)
      requires Valid() && Fields(env.lay)
      modifies this
      ensures Valid()
      ensures var r := Engines.FsmDataRateSet(env, old(Now()), o); Now() == r.c && st == r.st
    {
      st := EmbSetFields(Addr(env, EmbFuncOdrCfgB), FsmOdrParts(env, o));
    }

    /** asm330lhb_mlc_data_rate_set: EMB_FUNC_ODR_CFG_C.mlc_odr. */
    method MlcDataRateSet(o: EmbOdr) returns (st: int)
      requires Valid() && Fields(env.lay)
      modifies this
      ensures Valid()
      ensures var r := Engines.MlcDataRateSet(env, old(Now()), o); Now() == r.c && st == r.st
    {
      st := EmbSetFields(Addr(env, EmbFuncOdrCfgC), [Update(Fld(env, MlcOdr), env.lay.mlcOdrCode(o))]);
    }

    /** asm330lhb_mlc_set: EMB_FUNC_EN_B.mlc_en and, for a non-zero value, EMB_FUNC_INIT_B.mlc_init. */
    method MlcSet(v: bv8) returns (st: int)
      requires Valid() && Fields(env.lay)
      modifies this
      ensures Valid()
      ensures var r := Engines.MlcSet(env, old(Now()), v); Now() == r.c && st == r.st
    {
      st := MemBankSet(Embedded);
      if st == 0 {
        var u := [Update(Fld(env, MlcEn), v)];
        st := SetFields(Addr(env, EmbFuncEnB), u);
        if st == 0 && v != 0 {
          st := SetFields(Addr(env, EmbFuncInitB), u);
        }
        if st == 0 {
          st := MemBankSet(User);
        }
      }
    }

    /** asm330lhb_mlc_init_set: the switch back is issued whatever happened, and the statuses add up. */
    method MlcInitSet(v: bv8) returns (st: int)
      requires Valid() && Fields(env.lay)
      modifies this
      ensures Valid()
      ensures var r := Engines.MlcInitSet(env, old(Now()), v); Now() == r.c && st == r.st
    {
      var st1 := MemBankSet(Embedded);
      if st1 == 0 {
        st1 := SetFields(Addr(env, EmbFuncInitB), [Update(Fld(env, MlcInit), v)]);
      }
      var st2 := MemBankSet(User);
      st := st1 + st2;
    }

    /** asm330lhb_emb_func_clk_dis_set: reads PAGE_SEL and never writes it back; the statuses add up. */
    method ClkDisSet(v: bv8) returns (st: int)
      requires Valid()
      modifies this
      ensures Valid()
      ensures var r := Engines.ClkDisSet(env, old(Now()), v); Now() == r.c && st == r.st
    {
      var st1 := MemBankSet(Embedded);
      if st1 == 0 {
        var d;
        st1, d := ReadReg(Addr(env, PageSel), 1);
      }
      var st2 := MemBankSet(User);
      st := st1 + st2;
    }

    /** asm330lhb_xl_data_rate_get */
    method XlDataRateGet() returns (st: int, o: XlOdr)
      requires Valid() && Fields(env.lay)
      modifies this
      ensures Valid()
      ensures var r := Rate.XlDataRateGet(env, old(Now())); Now() == r.c && st == r.st && o == r.v
    {
      var d;
      st, d := ReadReg(Addr(env, Ctrl1Xl), 1);
      o := Rate.XlOdrOf(env.lay.xlOdrCode, Get(d[0], Fld(env, OdrXl)));
    }

    /** asm330lhb_gy_data_rate_get */
    method GyDataRateGet() returns (st: int, o: GyOdr)
      requires Valid() && Fields(env.lay)
      modifies this
      ensures Valid()
      ensures var r := Rate.GyDataRateGet(env, old(Now())); Now() == r.c && st == r.st && o == r.v
    {
      var d;
      st, d := ReadReg(Addr(env, Ctrl2G), 1);
      o := Rate.GyOdrOf(env.lay.gyOdrCode, Get(d[0], Fld(env, OdrG)));
    }

    // -------------------------------------------------------------------
    // asm330lhb_xl_data_rate_set and asm330lhb_gy_data_rate_set

    /** asm330lhb_fsm_enable_get: FSM_ENABLE_A and FSM_ENABLE_B, read in the embedded-functions bank. */
    method FsmEnableGet() returns (st: int, a: bv8, b: bv8)
      requires Valid()
      modifies this
      ensures Valid()
      ensures var r := Engines.FsmEnableGet(env, old(Now())); Now() == r.c && st == r.st && (a, b) == r.v
    {
      a, b := 0, 0;
      st := MemBankSet(Embedded);
      if st == 0 {
        var d;
        st, d := ReadReg(Addr(env, FsmEnableA), 1);
        a := d[0];
        if st == 0 {
          st, d := ReadReg(Addr(env, FsmEnableB), 1);
          b := d[0];
          if st == 0 {
            st := MemBankSet(User);
          }
        }
      }
    }

    /** The rate an enabled FSM requires, if one is enabled. */
    method FsmQuery() returns (st: int, floor: Option<EmbOdr>)
      requires Valid() && Fields(env.lay)
      modifies this
      ensures Valid()
      ensures var r := Rate.FsmQuery(env, old(Now())); Now() == r.c && st == r.st && floor == r.v
    {
      var a, b;
      st, a, b := FsmEnableGet();
      floor := None;
      if st == 0 && FsmEnBit(env, a, b) == 1 {
        var g;
        st, g := EmbGetField(Addr(env, EmbFuncOdrCfgB), Fld(env, FsmOdr), Raw);
        floor := Some(EmbOdrOf(env.lay.fsmOdrCode, g));
      }
    }

    /** The rate the MLC requires, if asm330lhb_mlc_get reads 1. */
    method MlcQuery() returns (st: int, floor: Option<EmbOdr>)
      requires Valid() && Fields(env.lay)
      modifies this
      ensures Valid()
      ensures var r := Rate.MlcQuery(env, old(Now())); Now() == r.c && st == r.st && floor == r.v
    {
      var en;
      st, en := EmbGetField(Addr(env, EmbFuncEnB), Fld(env, MlcEn), Raw);
      floor := None;
      if en == 1 {
        var g;
        st, g := EmbGetField(Addr(env, EmbFuncOdrCfgC), Fld(env, MlcOdr), Raw);
        floor := Some(EmbOdrOf(env.lay.mlcOdrCode, g));
      }
    }

    /** Both checks, the MLC one only after the FSM one succeeded. */
    method EngineFloors() returns (st: int, fsm: Option<EmbOdr>, mlc: Option<EmbOdr>)
      requires Valid() && Fields(env.lay)
      modifies this
      ensures Valid()
      ensures var r := Rate.EngineFloors(env, old(Now())); Now() == r.c && st == r.st && (fsm, mlc) == r.v
    {
      st, fsm := FsmQuery();
      mlc := None;
      if st != 0 {
        fsm := None;
      } else {
        st, mlc := MlcQuery();
      }
    }

    /** asm330lhb_xl_data_rate_set: the checks, then CTRL1_XL.odr_xl at the rate they arbitrate. */
    method XlDataRateSet(val: XlOdr) returns (st: int)
      requires Valid() && Fields(env.lay)
      modifies this
      ensures Valid()
      ensures var r := Rate.XlDataRateSet(env, old(Now()), val); Now() == r.c && st == r.st
    {
      var fsm, mlc;
      st, fsm, mlc := EngineFloors();
      if st == 0 {
        var odr := XlArbitrate(val, fsm, mlc);
        st := SetFields(Addr(env, Ctrl1Xl), [Update(Fld(env, OdrXl), env.lay.xlOdrCode(odr))]);
      }
    }

    /** asm330lhb_gy_data_rate_set: the checks, then CTRL2_G.odr_g at the rate they arbitrate. */
    method GyDataRateSet(val: GyOdr) returns (st: int)
      requires Valid() && Fields(env.lay)
      modifies this
      ensures Valid()
      ensures var r := Rate.GyDataRateSet(env, old(Now()), val); Now() == r.c && st == r.st
    {
      var fsm, mlc;
      st, fsm, mlc := EngineFloors();
      if st == 0 {
        var odr := GyArbitrate(val, fsm, mlc);
        st := SetFields(Addr(env, Ctrl2G), [Update(Fld(env, OdrG), env.lay.gyOdrCode(odr))]);
      }
    }

    // -------------------------------------------------------------------
    // Interrupt routing and sources

    /**
     * A chain of single-byte reads of `regs`, each issued only if the ones
     * before it returned 0 (the driver writes the chain out call by call).
     */
    method ReadRegs(regs: seq<RegAddr>) returns (st: int, got: seq<bv8>)
      requires Valid()
      modifies this
      ensures Valid()
      ensures var r := Routing.ReadSeq(env, old(Now()), regs); Now() == r.c && st == r.st && got == r.v
      decreases |regs|
    {
      if regs == [] {
        st, got := 0, [];
      } else {
        var d;
        st, d := ReadReg(regs[0], 1);
        got := [];
        if st == 0 {
          var rest;
          st, rest := ReadRegs(regs[1..]);
          got := d + rest;
        }
      }
    }

    /** A chain of single-byte writes of `data` to `regs`. */
    method WriteRegs(regs: seq<RegAddr>, data: seq<bv8>) returns (st: int)
      requires Valid() && |regs| == |data|
      modifies this
      ensures Valid()
      ensures var r := Routing.WriteSeq(env, old(Now()), regs, data); Now() == r.c && st == r.st
      decreases |regs|
    {
      if regs == [] {
        st := 0;
      } else {
        st := WriteReg(regs[0], [data[0]]);
        if st == 0 {
          st := WriteRegs(regs[1..], data[1..]);
        }
      }
    }

    /** The reads of the embedded-functions bank between the two bank switches. */
    method EmbReadRegs(regs: seq<RegAddr>) returns (st: int, got: seq<bv8>)
      requires Valid()
      modifies this
      ensures Valid()
      ensures var r := Routing.EmbReadSeq(env, old(Now()), regs); Now() == r.c && st == r.st && got == r.v
    {
      got := [];
      st := MemBankSet(Embedded);
      if st == 0 {
        st, got := ReadRegs(regs);
        if st == 0 {
          st := MemBankSet(User);
        }
      }
    }

    /** The writes to the embedded-functions bank between the two bank switches. */
    method EmbWriteRegs(regs: seq<RegAddr>, data: seq<bv8>) returns (st: int)
      requires Valid() && |regs| == |data|
      modifies this
      ensures Valid()
      ensures var r := Routing.EmbWriteSeq(env, old(Now()), regs, data); Now() == r.c && st == r.st
    {
      st := MemBankSet(Embedded);
      if st == 0 {
        st := WriteRegs(regs, data);
        if st == 0 {
          st := MemBankSet(User);
        }
      }
    }

    /**
     * asm330lhb_pin_int1_route_get and asm330lhb_pin_int2_route_get: the
     * caller's struct `v` with the fields whose read succeeded replaced.
     */
    method RouteGet(pin: Routing.Pin, v: Routing.Route) returns (st: int, out: Routing.Route)
      requires Valid()
      modifies this
      ensures Valid()
      ensures var r := Routing.RouteGet(env, old(Now()), pin, v); Now() == r.c && st == r.st && out == r.v
    {
      var mv, uv;
      st, mv := EmbReadRegs(Routing.EmbRegs(env, pin));
      uv := [];
      if st == 0 {
        st, uv := ReadRegs(Routing.UserRegs(env, pin));
      }
      out := Routing.RouteOfBytes(Routing.Overwrite(Routing.RouteBytes(v), mv + uv));
    }

    /**
     * The end of the route setters: read INT_CFG1, read the other pin's
     * routing into an unset struct, and write INT_CFG1 with
     * interrupts_enable set when a base routing bit of either pin is.
     */
    method Enable(pin: Routing.Pin, v: Routing.Route) returns (st: int)
      requires Valid() && Fields(env.lay)
      modifies this
      ensures Valid()
      ensures var r := Routing.Enable(env, old(Now()), pin, v); Now() == r.c && st == r.st
    {
      var a := Addr(env, IntCfg1);
      var cfg;
      st, cfg := ReadReg(a, 1);
      if st == 0 {
        var other;
        st, other := RouteGet(Routing.Mirror(pin), Routing.Unset);
        if st == 0 {
          var en := Routing.BaseRouted(env, pin, v) || Routing.BaseRouted(env, Routing.Mirror(pin), other);
          st := WriteReg(a, [Set(cfg[0], Fld(env, InterruptsEnable), Routing.Flag(en))]);
        }
      }
    }

    /**
     * asm330lhb_pin_int1_route_set and asm330lhb_pin_int2_route_set: the
     * output is the caller's struct as the setter leaves it, with
     * intx_emb_func derived once the embedded writes succeeded.
     */
    method RouteSet(pin: Routing.Pin, v: Routing.Route) returns (st: int, out: Routing.Route)
      requires Valid() && Fields(env.lay)
      modifies this
      ensures Valid()
      ensures var r := Routing.RouteSet(env, old(Now()), pin, v); Now() == r.c && st == r.st && out == r.v
    {
      out := v;
      st := EmbWriteRegs(Routing.EmbRegs(env, pin), Routing.RouteBytes(v)[..4]);
      if st == 0 {
        out := Routing.Routed(env, pin, v);
        st := WriteRegs(Routing.UserRegs(env, pin), Routing.RouteBytes(out)[4..]);
        if st == 0 {
          st := Enable(pin, out);
        }
      }
    }

    /** asm330lhb_all_sources_get: four registers of the selected bank, then four of the embedded one. */
    method AllSourcesGet(v: Routing.Sources) returns (st: int, out: Routing.Sources)
      requires Valid()
      modifies this
      ensures Valid()
      ensures var r := Routing.AllSourcesGet(env, old(Now()), v); Now() == r.c && st == r.st && out == r.v
    {
      var uv, mv;
      st, uv := ReadRegs(Routing.SourceUserRegs(env));
      mv := [];
      if st == 0 {
        st, mv := EmbReadRegs(Routing.SourceEmbRegs(env));
      }
      out := Routing.SourcesOfBytes(Routing.Overwrite(Routing.SourcesBytes(v), uv + mv));
    }

    // -------------------------------------------------------------------
    // The paging sequences

    /** One step of a paging sequence, on the locals `loc`. */
    method Step(cmd: Cmd, loc: Locals) returns (st: int, loc1: Locals)
      requires Valid() && Fields(env.lay) && Fit(env.lay, PageValue, 2)
      modifies this
      ensures Valid()
      ensures var r := Paging.Exec(env, old(Now()), loc, cmd); Now() == r.c && st == r.st && loc1 == r.v
    {
      loc1 := loc;
      match cmd
      case Switch(b) =>
        st := MemBankSet(b);
      case SetMode(rw) =>
        st := SetFields(Addr(env, PageRw), [Update(Fld(env, PageRwField), rw)]);
      case SetPage(page, load) =>
        st := 0;
        if load {
          var d;
          st, d := ReadReg(Addr(env, PageSel), 1);
          if st == 0 {
            loc1 := loc1.(sel := d[0]);
          }
        }
        if st == 0 {
          var sel := Overlay(loc1.sel, SelUps(env, page));
          st := WriteReg(Addr(env, PageSel), [sel]);
          loc1 := loc1.(sel := sel);
        }
      case SetOffset(o) =>
        st := WriteReg(Addr(env, PageAddress), [o]);
      case PutValue(v) =>
        st := WriteReg(Addr(env, PageValue), [v]);
      case FetchValue =>
        var d;
        st, d := ReadReg(Addr(env, PageValue), 2);
        if st == 0 {
          loc1 := loc1.(fetched := d);
        }
    }

    /** The device and the locals as the steps `cmds` leave them, run from `c0` with `l0`. */
    ghost predicate Ran(c0: Chip, l0: Locals, cmds: seq<Cmd>, st: int, loc: Locals)
      reads this
      requires Coherent(env, c0) && Fields(env.lay) && Fit(env.lay, PageValue, 2)
    {
      var r := Run(env, c0, l0, cmds);
      Now() == r.c && st == r.st && loc == r.v
    }

    /** `if (ret == 0)` the next step: the driver's way of chaining its steps. */
    method Continue(ghost c0: Chip, ghost l0: Locals, ghost done: seq<Cmd>, st0: int, loc0: Locals, cmd: Cmd)
      returns (st: int, loc: Locals)
      requires Valid() && Fields(env.lay) && Fit(env.lay, PageValue, 2) && Coherent(env, c0)
      requires Ran(c0, l0, done, st0, loc0)
      modifies this
      ensures Valid() && Ran(c0, l0, done + [cmd], st, loc)
    {
      RunConcat(env, c0, l0, done, [cmd]);
      ghost var x := Run(env, c0, l0, done);
      if st0 == 0 {
        RunOne(env, x.c, x.v, cmd);
        st, loc := Step(cmd, loc0);
      } else {
        st, loc := st0, loc0;
      }
    }

    /**
     * The opening every paging function shares: switch to the embedded
     * bank, set page mode `rw`, read PAGE_SEL and write it with `page`,
     * write the offset.
     */
    method Open(ghost c0: Chip, rw: bv8, page: bv8, offset: bv8) returns (st: int, loc: Locals)
      requires Valid() && Fields(env.lay) && Fit(env.lay, PageValue, 2) && Now() == c0
      modifies this
      ensures Valid() && Ran(c0, Locals(0, []), Opening(rw, page, offset), st, loc)
    {
      ghost var l0 := Locals(0, []);
      st, loc := 0, Locals(0, []);
      ghost var done: seq<Cmd> := [];
      st, loc := Continue(c0, l0, done, st, loc, Switch(Embedded));
      done := done + [Switch(Embedded)];
      st, loc := Continue(c0, l0, done, st, loc, SetMode(rw));
      done := done + [SetMode(rw)];
      st, loc := Continue(c0, l0, done, st, loc, SetPage(page, true));
      done := done + [SetPage(page, true)];
      st, loc := Continue(c0, l0, done, st, loc, SetOffset(offset));
      assert done + [SetOffset(offset)] == Opening(rw, page, offset);
    }

    /** The closing every paging function shares: page mode 0, then the user bank. */
    method Close(ghost c0: Chip, ghost l0: Locals, ghost done: seq<Cmd>, st0: int, loc0: Locals) returns (st: int, loc: Locals)
      requires Valid() && Fields(env.lay) && Fit(env.lay, PageValue, 2) && Coherent(env, c0)
      requires Ran(c0, l0, done, st0, loc0)
      modifies this
      ensures Valid() && Ran(c0, l0, done + [SetMode(0), Switch(User)], st, loc)
    {
      st, loc := Continue(c0, l0, done, st0, loc0, SetMode(0));
      st, loc := Continue(c0, l0, done + [SetMode(0)], st, loc, Switch(User));
      assert done + [SetMode(0)] + [Switch(User)] == done + [SetMode(0), Switch(User)];
    }

    /** asm330lhb_ln_pg_write_byte: one byte to line `add` of the paged memory. */
    method LnPgWriteByte(add: bv16, val: bv8) returns (st: int)
      requires Valid() && Fields(env.lay) && Fit(env.lay, PageValue, 2)
      modifies this
      ensures Valid()
      ensures var r := Paging.LnPgWriteByte(env, old(Now()), add, val); Now() == r.c && st == r.st
    {
      ghost var c0 := Now();
      var loc := Locals(0, []);
      st, loc := Open(c0, 2, Hi(add) & 0x0F, PageOffset(env, add));
      ghost var done := Opening(2, Hi(add) & 0x0F, PageOffset(env, add));
      st, loc := Continue(c0, Locals(0, []), done, st, loc, PutValue(val));
      st, loc := Close(c0, Locals(0, []), done + [PutValue(val)], st, loc);
      ByteSession(env, 2, add, PutValue(val));
    }

    /**
     * asm330lhb_ln_pg_write: the bytes of `buf` from line `add`, rewriting
     * PAGE_SEL after each byte with `msb`, which steps when `lsb` was 0
     * before the byte.
     */
    method LnPgWrite(add: bv16, buf: seq<bv8>) returns (st: int)
      requires Valid() && Fields(env.lay) && Fit(env.lay, PageValue, 2) && |buf| < 256
      modifies this
      ensures Valid()
      ensures var r := Paging.LnPgWrite(env, old(Now()), add, buf); Now() == r.c && st == r.st
    {
      var msb := Hi(add);
      var lsb := Lo(add);
      ghost var c0 := Now();
      ghost var l0 := Locals(0, []);
      var loc := Locals(0, []);
      st := 0;
      st, loc := Open(c0, 2, msb, lsb);
      ghost var pre := Opening(2, msb, lsb);
      ghost var done := pre;
      var i := 0;
      while i < |buf|
        invariant 0 <= i <= |buf|
        invariant Valid()
        invariant done == pre + LineCmds(false, buf[..i], Hi(add), Lo(add))
        invariant Ran(c0, l0, done, st, loc)
        invariant st == 0 ==> (msb, lsb) == Advance(false, Hi(add), Lo(add), i)
      {
        LinePrefix(pre, false, buf, i, Hi(add), Lo(add));
        AdvanceSnoc(false, Hi(add), Lo(add), i);
        st, loc, msb, lsb := PutLineByte(c0, l0, done, buf[i], Advance(false, Hi(add), Lo(add), i), st, loc, msb, lsb);
        done := done + LineStep(false, buf[i], Advance(false, Hi(add), Lo(add), i));
        i := i + 1;
      }
      st, loc := Continue(c0, l0, done, st, loc, SetPage(0, false));
      st, loc := Close(c0, l0, done + [SetPage(0, false)], st, loc);
      WriteSession(add, buf);
    }

    /**
     * One turn of the loop of asm330lhb_ln_pg_write, from the position `s`
     * the bookkeeping has reached: write the byte; on success step `msb` if
     * `lsb` is 0, reading PAGE_SEL, step `lsb`, and rewrite PAGE_SEL.
     */
    method PutLineByte(ghost c0: Chip, ghost l0: Locals, ghost done: seq<Cmd>, x: bv8, ghost s: (bv8, bv8),
                       st0: int, loc0: Locals, msb0: bv8, lsb0: bv8)
      returns (st: int, loc: Locals, msb: bv8, lsb: bv8)
      requires Valid() && Fields(env.lay) && Fit(env.lay, PageValue, 2) && Coherent(env, c0)
      requires Ran(c0, l0, done, st0, loc0) && (st0 == 0 ==> (msb0, lsb0) == s)
      modifies this
      ensures Valid() && Ran(c0, l0, done + LineStep(false, x, s), st, loc)
      ensures st == 0 ==> (msb, lsb) == PageStep(false, s.0, s.1)
    {
      ghost var step := LineStep(false, x, s);
      st, loc, msb, lsb := st0, loc0, msb0, lsb0;
      if st == 0 {
        var crossed := lsb == 0;
        st, loc := Continue(c0, l0, done, st, loc, PutValue(x));
        if st == 0 {
          if crossed {
            msb := msb + 1;
          }
          lsb := lsb + 1;
          st, loc := Continue(c0, l0, done + [PutValue(x)], st, loc, SetPage(msb, crossed));
          assert done + [PutValue(x)] + [SetPage(msb, crossed)] == done + step;
        } else {
          RunStopped(env, c0, l0, done + [PutValue(x)], [step[1]]);
          assert done + [PutValue(x)] + [step[1]] == done + step;
        }
      } else {
        RunStopped(env, c0, l0, done, step);
      }
    }

    /** Two single-byte writes of the paged memory, the second only after the first succeeded. */
    method TwoWrites(a1: bv16, b1: bv8, a2: bv16, b2: bv8) returns (st: int)
      requires Valid() && Fields(env.lay) && Fit(env.lay, PageValue, 2)
      modifies this
      ensures Valid()
      ensures var r := FsmPages.TwoWrites(env, old(Now()), a1, b1, a2, b2); Now() == r.c && st == r.st
    {
      st := LnPgWriteByte(a1, b1);
      if st == 0 {
        st := LnPgWriteByte(a2, b2);
      }
    }

    /** The 16-bit setters of the paged memory: the low byte to line `al`, then the high byte to line `ah`. */
    method WordSet(al: bv16, ah: bv16, val: bv16) returns (st: int)
      requires Valid() && Fields(env.lay) && Fit(env.lay, PageValue, 2)
      modifies this
      ensures Valid()
      ensures var r := FsmPages.WordSet(env, old(Now()), al, ah, val); Now() == r.c && st == r.st
    {
      var h := FsmPages.Halves(val);
      st := TwoWrites(al, h.0, ah, h.1);
    }

    /** asm330lhb_long_cnt_int_value_set */
    method LongCntIntValueSet(val: bv16) returns (st: int)
      requires Valid() && Fields(env.lay) && Fit(env.lay, PageValue, 2)
      modifies this
      ensures Valid()
      ensures var r := FsmPages.LongCntIntValueSet(env, old(Now()), val); Now() == r.c && st == r.st
    {
      st := WordSet(env.lay.page(LcTimeoutL), env.lay.page(LcTimeoutH), val);
    }

    /** asm330lhb_fsm_start_address_set */
    method FsmStartAddressSet(val: bv16) returns (st: int)
      requires Valid() && Fields(env.lay) && Fit(env.lay, PageValue, 2)
      modifies this
      ensures Valid()
      ensures var r := FsmPages.FsmStartAddressSet(env, old(Now()), val); Now() == r.c && st == r.st
    {
      st := WordSet(env.lay.page(StartAddL), env.lay.page(StartAddH), val);
    }

    /** asm330lhb_fsm_number_of_programs_set: the same byte to FSM_PROGRAMS and the line after it. */
    method FsmNumberOfProgramsSet(b: bv8) returns (st: int)
      requires Valid() && Fields(env.lay) && Fit(env.lay, PageValue, 2)
      modifies this
      ensures Valid()
      ensures var r := FsmPages.FsmNumberOfProgramsSet(env, old(Now()), b); Now() == r.c && st == r.st
    {
      var p := env.lay.page(FsmPrograms);
      st := TwoWrites(p, b, p + 1, b);
    }

    /**
     * The 16-bit getters of the paged memory, with a buffer that has room
     * for both reads: 0 when the first read fails.
     */
    method WordGet(al: bv16, ah: bv16) returns (st: int, v: bv16)
      requires Valid() && Fields(env.lay) && Fit(env.lay, PageValue, 2)
      modifies this
      ensures Valid()
      ensures var r := FsmPages.WordGet(env, old(Now()), al, ah); Now() == r.c && st == r.st && v == r.v
    {
      var buff;
      st, buff := LnPgReadByte(al, [0, 0, 0], 0);
      v := 0;
      if st == 0 {
        st, buff := LnPgReadByte(ah, buff, 1);
        v := Word(buff[1], buff[0]);
      }
    }

    /** asm330lhb_long_cnt_int_value_get, with room for both reads. */
    method LongCntIntValueGet() returns (st: int, v: bv16)
      requires Valid() && Fields(env.lay) && Fit(env.lay, PageValue, 2)
      modifies this
      ensures Valid()
      ensures var r := FsmPages.LongCntIntValueGet(env, old(Now())); Now() == r.c && st == r.st && v == r.v
    {
      st, v := WordGet(env.lay.page(LcTimeoutL), env.lay.page(LcTimeoutH));
    }

    /** asm330lhb_fsm_start_address_get, with room for both reads. */
    method FsmStartAddressGet() returns (st: int, v: bv16)
      requires Valid() && Fields(env.lay) && Fit(env.lay, PageValue, 2)
      modifies this
      ensures Valid()
      ensures var r := FsmPages.FsmStartAddressGet(env, old(Now())); Now() == r.c && st == r.st && v == r.v
    {
      st, v := WordGet(env.lay.page(StartAddL), env.lay.page(StartAddH));
    }

    /** asm330lhb_fsm_number_of_programs_get: the two-byte read of FSM_PROGRAMS into the caller's buffer. */
    method FsmNumberOfProgramsGet(dst: seq<bv8>) returns (st: int, out: seq<bv8>)
      requires Valid() && Fields(env.lay) && Fit(env.lay, PageValue, 2) && Room(|dst|, 0)
      modifies this
      ensures Valid()
      ensures var r := FsmPages.FsmNumberOfProgramsGet(env, old(Now()), dst); Now() == r.c && st == r.st && out == r.v
    {
      st, out := LnPgReadByte(env.lay.page(FsmPrograms), dst, 0);
    }

    /**
     * asm330lhb_ln_pg_read_byte: the two bytes the read of PAGE_VALUE
     * transfers go to `dst` from index `at`.
     */
    method LnPgReadByte(add: bv16, dst: seq<bv8>, at: nat) returns (st: int, out: seq<bv8>)
      requires Valid() && Fields(env.lay) && Fit(env.lay, PageValue, 2) && Room(|dst|, at)
      modifies this
      ensures Valid()
      ensures var r := Paging.LnPgReadByte(env, old(Now()), add, dst, at); Now() == r.c && st == r.st && out == r.v
    {
      ghost var c0 := Now();
      var loc := Locals(0, []);
      st, loc := Open(c0, 1, Hi(add) & 0x0F, PageOffset(env, add));
      ghost var done := Opening(1, Hi(add) & 0x0F, PageOffset(env, add));
      st, loc := Continue(c0, Locals(0, []), done, st, loc, FetchValue);
      st, loc := Close(c0, Locals(0, []), done + [FetchValue], st, loc);
      ByteSession(env, 1, add, FetchValue);
      out := dst;
      if |loc.fetched| == 2 {
        out := dst[at := loc.fetched[0]][at + 1 := loc.fetched[1]];
      }
    }
  }

  /** Once a step has failed, the steps after it run nothing. */
  lemma RunStopped(e: Env, c: Chip, loc: Locals, a: seq<Cmd>, b: seq<Cmd>)
    requires Coherent(e, c) && Fields(e.lay) && Fit(e.lay, PageValue, 2)
    requires Run(e, c, loc, a).st != 0
    ensures Run(e, c, loc, a + b) == Run(e, c, loc, a)
  {
    RunConcat(e, c, loc, a, b);
  }

  /** The first four steps of each paging function. */
  function Opening(rw: bv8, page: bv8, offset: bv8): seq<Cmd>
  {
    [Switch(Embedded), SetMode(rw), SetPage(page, true), SetOffset(offset)]
  }

  /** The single-byte functions are their opening, the transfer and the closing. */
  lemma ByteSession(e: Env, rw: bv8, add: bv16, x: Cmd)
    requires Fields(e.lay)
    ensures Opening(rw, Hi(add) & 0x0F, PageOffset(e, add)) + [x] + [SetMode(0), Switch(User)] == Session(LineBody(e, rw, add, x))
  {
  }

  /** asm330lhb_ln_pg_write is its opening, the loop, the page reset and the closing. */
  lemma WriteSession(add: bv16, buf: seq<bv8>)
    ensures Opening(2, Hi(add), Lo(add)) + LineCmds(false, buf[..|buf|], Hi(add), Lo(add)) + [SetPage(0, false)] + [SetMode(0), Switch(User)]
      == Session(WriteBody(false, add, buf))
  {
    assert buf[..|buf|] == buf;
  }

  /** The steps for byte `x` when the bookkeeping is at `s`. */
  function LineStep(fixed: bool, x: bv8, s: (bv8, bv8)): seq<Cmd>
  {
    [PutValue(x), SetPage(PageStep(fixed, s.0, s.1).0, Crossed(fixed, s.1))]
  }

  /** The loop's steps for the first `i + 1` bytes, after the steps `pre`. */
  lemma LinePrefix(pre: seq<Cmd>, fixed: bool, buf: seq<bv8>, i: nat, msb: bv8, lsb: bv8)
    requires i < |buf|
    ensures pre + LineCmds(fixed, buf[..i + 1], msb, lsb)
      == pre + LineCmds(fixed, buf[..i], msb, lsb) + LineStep(fixed, buf[i], Advance(fixed, msb, lsb, i))
  {
    assert buf[..i + 1] == buf[..i] + [buf[i]];
    LineCmdsSnoc(fixed, buf[..i], buf[i], msb, lsb);
  }

  /** The steps for one more byte come after those for the bytes before it. */
  lemma {:induction false} LineCmdsSnoc(fixed: bool, buf: seq<bv8>, x: bv8, msb: bv8, lsb: bv8)
    ensures LineCmds(fixed, buf + [x], msb, lsb) == LineCmds(fixed, buf, msb, lsb) + LineStep(fixed, x, Advance(fixed, msb, lsb, |buf|))
    decreases |buf|
  {
    if buf == [] {
      assert [x][1..] == [];
    } else {
      var s := PageStep(fixed, msb, lsb);
      assert (buf + [x])[0] == buf[0] && (buf + [x])[1..] == buf[1..] + [x];
      LineCmdsSnoc(fixed, buf[1..], x, s.0, s.1);
    }
  }

  /** A single step, run as a list of steps. */
  lemma RunOne(e: Env, c: Chip, loc: Locals, cmd: Cmd)
    requires Coherent(e, c) && Fields(e.lay) && Fit(e.lay, PageValue, 2)
    ensures Run(e, c, loc, [cmd]) == Exec(e, c, loc, cmd)
  {
    assert [cmd][1..] == [];
  }
}
