# ASM330LHB register driver, modelled in Dafny

This project models the platform-independent register driver of the
ASM330LHB six-axis inertial module (accelerometer and gyroscope with a
finite-state machine, FSM, and a machine-learning core, MLC). It proves
properties of that model. Every driver function talks to the device only
through two platform callbacks, `read_reg` and `write_reg`, and returns
their status. The model follows the driver one function at a time.

- **Device state.** A `Chip` holds the user bank and the
  embedded-functions bank as two 256-byte register files, the selected
  bank, and a log of every bus transaction issued (bank, address, length,
  data, status). FUNC_CFG_ACCESS is shared by both banks, and its
  reg_access field decides which bank is selected. Paged memory (the FSM
  and MLC configuration lines) is reached only through PAGE_SEL,
  PAGE_ADDRESS, PAGE_RW and PAGE_VALUE; the model records the paging
  operations the driver commits (`Paging.Trace`).
- **Transport.** The platform callbacks are not modelled as code. An
  environment `Env` holds a status oracle `fail(k)`, the status the k-th
  transaction returns. A transaction with status 0 takes effect; any other
  status leaves the registers alone. Every property below therefore holds
  for every failure pattern of the bus.
- **Register map.** The header's register addresses, bit positions and
  enumeration codes are parameters, collected in a `Layout`
  (`layout.dfy`). Lemmas state the few facts about them the code relies
  on, such as two registers being distinct or a field being one bit wide.
- **Specification and implementation.** Each driver function is a pure
  function over `Env` and `Chip`, in the modules `Bus`, `Splits`,
  `Engines`, `Rate`, `Paging`, `FsmPages`, `Routing` and `Outputs`. The
  lemmas state what the driver promises of it. The class `Driver.Device`
  holds the same state as fields and implements the functions as methods
  that update those fields one transaction at a time. Each method's
  `ensures` ties its new state, status and result to the pure function.
  The loop of `ln_pg_write` stays a `while` loop there, verified against
  the function.
- **Pure arithmetic.** Bit fields (`Bits`), output data rates and their
  arbitration (`Odr`), and the sample formats (`Samples`) are plain
  functions with lemmas.

A successful setter is proved to change only the registers it names. A
failure usually stops the sequence at the first failed transaction, with
these exceptions, each stated as the driver has it:
`asm330lhb_fsm_status_get` issues its second read after a failed first
one (`Engines.FsmStatusGetEffect`); `emb_func_clk_dis_set`/`_get` and
`mlc_init_set`/`_get` always attempt the switch back to the user bank and
add or substitute its status (`Engines.MlcInitSetStatusCancels`,
`Engines.MlcInitGetMasksFailure`); and the MLC query of the data-rate
setters reads the MLC rate without checking the status of `mlc_get`
(`Rate.MlcQueryMasksFailure`). A getter run after a successful setter
returns the value that was set, wherever the driver's field widths allow
it, except after `emb_func_clk_dis_set`, which never writes the register
it modifies (`Engines.ClkDisSetWritesNothing`).

## Model

| member | source | states |
|---|---|---|
| Bits.Set | sensor/stmemsc/asm330lhb_STdC/driver/asm330lhb_reg.c:2571-2587 | Assigning a field sets exactly that field to the value truncated to its width, as a C bitfield assignment does, and leaves every other bit of the register byte alone. |
| Bits.Trunc | sensor/stmemsc/asm330lhb_STdC/driver/asm330lhb_reg.c:2571-2587 | The truncated value fits the field, and truncation is the identity exactly on values that already fit. |
| Bits.OverlayGet | sensor/stmemsc/asm330lhb_STdC/driver/asm330lhb_reg.c:2571-2587 | After a register byte's disjoint fields are assigned in order, each field reads back the truncated value assigned to it. |
| Bits.Decode | sensor/stmemsc/asm330lhb_STdC/driver/asm330lhb_reg.c:206-232 | A getter's switch returns the raw code when its table lists it, the table's default otherwise, and the raw value when it has no table. |
| Bits.WordOfBytes | sensor/stmemsc/asm330lhb_STdC/driver/asm330lhb_reg.c:4522-4538 | Joining the high and low byte of a 16-bit value gives the value back. |
| Bits.SplitAsC | sensor/stmemsc/asm330lhb_STdC/driver/asm330lhb_reg.c:4490-4512 | The setters' split `hi = (v / 256) & m` and `lo = v - hi * 256` puts the low byte in `lo`, whatever the mask. |
| Bus.ReadReg | sensor/stmemsc/asm330lhb_STdC/driver/asm330lhb_reg.c:49-62 | A read returns `n` bytes of the selected bank from address `a` and leaves the device coherent. |
| Bus.ReadRegConfined | sensor/stmemsc/asm330lhb_STdC/driver/asm330lhb_reg.c:49-62 | A read changes no register or bank and logs exactly one read transaction, whose status it returns. |
| Bus.FailedWriteChangesNothing | sensor/stmemsc/asm330lhb_STdC/driver/asm330lhb_reg.c:74-87 | A failed write changes no register and keeps the bank, but is still logged. |
| Bus.WriteStores | sensor/stmemsc/asm330lhb_STdC/driver/asm330lhb_reg.c:74-87 | A successful write stores its bytes in the selected bank and leaves every other byte alone, except FUNC_CFG_ACCESS, which both banks share. |
| Bus.WriteRegFrame | sensor/stmemsc/asm330lhb_STdC/driver/asm330lhb_reg.c:74-87 | A write that does not cover FUNC_CFG_ACCESS keeps the bank and changes only the bytes it covers; on success they hold its data. |
| Bus.WriteThenRead | sensor/stmemsc/asm330lhb_STdC/driver/asm330lhb_reg.c:49-87 | After a successful write, a read of the same bytes returns the data written. |
| Bus.MemBankSetEffect | sensor/stmemsc/asm330lhb_STdC/driver/asm330lhb_reg.c:1716-1731 | The bank switch rewrites only the reg_access bits of FUNC_CFG_ACCESS, in both files, and only when both its transactions succeed. |
| Bus.MemBankSetSelects | sensor/stmemsc/asm330lhb_STdC/driver/asm330lhb_reg.c:1716-1731 | On success the requested bank is selected, on failure the bank is kept; no other register changes, and the write is issued only after the read succeeded. |
| Bus.MemBankSetThenGet | sensor/stmemsc/asm330lhb_STdC/driver/asm330lhb_reg.c:1716-1763 | After a successful bank switch, the bank getter reports that bank. |
| Bus.SetFieldsEffect | sensor/stmemsc/asm330lhb_STdC/driver/asm330lhb_reg.c:182-196 | The single-field setter changes only its register, which on success holds the assigned fields over its old contents; a failed read issues no write and returns its status. |
| Bus.SetThenGet | sensor/stmemsc/asm330lhb_STdC/driver/asm330lhb_reg.c:182-232 | After a successful set, the getter decodes the value set, for every code the getter's table lists that fits the field. |
| Bus.EmbSetFieldsEffect | sensor/stmemsc/asm330lhb_STdC/driver/asm330lhb_reg.c:6455-6479 | A setter of the embedded-functions bank changes only its register there; on success that register holds the assigned fields and the user bank is selected again. |
| Bus.EmbGetFieldEffect | sensor/stmemsc/asm330lhb_STdC/driver/asm330lhb_reg.c:6489-6524 | A getter of the embedded-functions bank changes no register; on success it decodes the register's field and the user bank is selected again. |
| Bus.EmbSetThenGet | sensor/stmemsc/asm330lhb_STdC/driver/asm330lhb_reg.c:6455-6524 | The set-then-get round trip in the embedded-functions bank. |
| Bus.EmbReadEffect | sensor/stmemsc/asm330lhb_STdC/driver/asm330lhb_reg.c:5686-5699 | A block read of the embedded-functions bank changes no register and on success returns that bank's bytes. |
| Bus.SetFieldsTwiceEffect | sensor/stmemsc/asm330lhb_STdC/driver/asm330lhb_reg.c:3088-3114 | Two read-modify-writes change only their two registers, each as assigned; the second is issued only after the first succeeded. |
| Bus.SetFieldsThenWriteEffect | sensor/stmemsc/asm330lhb_STdC/driver/asm330lhb_reg.c:4490-4512 | A read-modify-write followed by a whole-byte write changes only the two registers, which hold the fields and the byte. |
| Bus.WriteTwoEffect | sensor/stmemsc/asm330lhb_STdC/driver/asm330lhb_reg.c:5841-5899 | Two single-byte writes change only their two registers, which on success hold the bytes. |
| Bus.ReadTwoEffect | sensor/stmemsc/asm330lhb_STdC/driver/asm330lhb_reg.c:3124-3159 | Two reads change no register and on success return the two registers. |
| Bus.EmbWritePairEffect | sensor/stmemsc/asm330lhb_STdC/driver/asm330lhb_reg.c:5941-5959 | A two-byte write of the embedded-functions bank changes only its two bytes there, which on success hold the data, with the user bank selected again. |
| Bus.Enter | sensor/stmemsc/asm330lhb_STdC/driver/asm330lhb_reg.c:1716-1731 | The switch to the embedded-functions bank selects that bank on success and changes nothing an operation's frame must name. |
| Bus.Bracket | sensor/stmemsc/asm330lhb_STdC/driver/asm330lhb_reg.c:1716-1731 | An embedded-bank operation, bracketed by the two bank switches, keeps the frame of its middle step and selects the user bank on full success. |
| Odr.XlRaise | sensor/stmemsc/asm330lhb_STdC/driver/asm330lhb_reg.c:254-364 | One FSM or MLC check raises the requested accelerometer rate to the engine's rate exactly when the request is slower, with 1.6 Hz always passing through. |
| Odr.GyRaise | sensor/stmemsc/asm330lhb_STdC/driver/asm330lhb_reg.c:615-725 | The gyroscope check raises the request to the engine's rate exactly when it is slower. |
| Odr.XlArbitrate | sensor/stmemsc/asm330lhb_STdC/driver/asm330lhb_reg.c:242-474 | Apart from 1.6 Hz, the programmed rate is the faster of the request and the floor of the engine whose check applies last (the MLC when its rate was read, else the FSM); it is the request itself exactly when that already meets the floor or is 1.6 Hz. |
| Odr.GyArbitrate | sensor/stmemsc/asm330lhb_STdC/driver/asm330lhb_reg.c:603-836 | For the gyroscope, the programmed rate is the faster of the request and the floor of the engine whose check applies last; it is the request itself exactly when that meets the floor. |
| Odr.XlArbitrateMeetsFloor | sensor/stmemsc/asm330lhb_STdC/driver/asm330lhb_reg.c:254-474 | Apart from 1.6 Hz, the programmed rate meets the floor of the engine whose check applied last and is never below the request. |
| Odr.XlMlcReplacesFsm | sensor/stmemsc/asm330lhb_STdC/driver/asm330lhb_reg.c:366-474 | A slow MLC undoes the raise an FSM at 104 Hz needs: the programmed rate is not the larger of the two floors. |
| Odr.Xl1Hz6PassesThrough | sensor/stmemsc/asm330lhb_STdC/driver/asm330lhb_reg.c:254-474 | 1.6 Hz passes every check unchanged. |
| Odr.GyMlcReplacesFsm | sensor/stmemsc/asm330lhb_STdC/driver/asm330lhb_reg.c:727-836 | The MLC result also replaces the FSM result for the gyroscope. |
| Odr.XlArbitrateChained | sensor/stmemsc/asm330lhb_STdC/driver/asm330lhb_reg.c:254-459 | The corrected arbitration: apart from 1.6 Hz, the programmed rate is the slowest that meets the request and the floors of both running engines. |
| Odr.GyArbitrateChained | sensor/stmemsc/asm330lhb_STdC/driver/asm330lhb_reg.c:615-820 | The corrected gyroscope arbitration: the programmed rate is the slowest that meets the request and both floors. |
| Odr.XlArbitrateAgrees | sensor/stmemsc/asm330lhb_STdC/driver/asm330lhb_reg.c:254-459 | The driver's arbitration and the corrected one agree whenever at most one engine runs. |
| Odr.GyArbitrateAgrees | sensor/stmemsc/asm330lhb_STdC/driver/asm330lhb_reg.c:615-820 | The same for the gyroscope. |
| Samples.Timestamp | sensor/stmemsc/asm330lhb_STdC/driver/asm330lhb_reg.c:1475-1487 | The timestamp is the little-endian unsigned value of its four bytes, below 2^32. |
| Samples.TimestampOfBytes | sensor/stmemsc/asm330lhb_STdC/driver/asm330lhb_reg.c:1475-1487 | Splitting a 32-bit value into bytes and reassembling it gives it back. |
| Samples.BytesOfTimestamp | sensor/stmemsc/asm330lhb_STdC/driver/asm330lhb_reg.c:1475-1487 | Reassembling four bytes and splitting the value gives the bytes back. |
| Samples.Int16 | sensor/stmemsc/asm330lhb_STdC/driver/asm330lhb_reg.c:1570-1580 | The int16 of two bytes is `hi * 256 + lo` wrapped into the signed range; it is negative exactly when the top bit of `hi` is set. |
| Samples.Int16OfBytes | sensor/stmemsc/asm330lhb_STdC/driver/asm330lhb_reg.c:1570-1580 | Every int16 value is recovered from its two-complement bytes. |
| Samples.BytesOfInt16 | sensor/stmemsc/asm330lhb_STdC/driver/asm330lhb_reg.c:1570-1580 | Every pair of bytes is recovered from the int16 it makes. |
| Samples.AxesRoundTrip | sensor/stmemsc/asm330lhb_STdC/driver/asm330lhb_reg.c:1591-1630 | Six output bytes decode to an in-range sample that encodes back to the same bytes. |
| Samples.AxesOfBytes | sensor/stmemsc/asm330lhb_STdC/driver/asm330lhb_reg.c:1591-1630 | Every in-range sample is recovered from its six bytes. |
| Outputs.TimestampRawGetEffect | sensor/stmemsc/asm330lhb_STdC/driver/asm330lhb_reg.c:1475-1487 | The timestamp getter issues one 4-byte read of TIMESTAMP0 and changes nothing; on success its value splits back into exactly the bytes held there. |
| Outputs.TemperatureRawGetEffect | sensor/stmemsc/asm330lhb_STdC/driver/asm330lhb_reg.c:1570-1580 | The temperature getter issues one 2-byte read and, on success, returns the int16 whose two's-complement bytes OUT_TEMP_L and OUT_TEMP_H hold. |
| Outputs.AxesRawGetEffect | sensor/stmemsc/asm330lhb_STdC/driver/asm330lhb_reg.c:1591-1630 | The angular-rate and acceleration getters issue one 6-byte read and, on success, return the sample that encodes back into exactly those bytes. |
| Splits.HpPathPartsJoin | sensor/stmemsc/asm330lhb_STdC/driver/asm330lhb_reg.c:2571-2682 | The three fields the setter writes rejoin to the value the getter switches on. |
| Splits.HpPathRoundTrip | sensor/stmemsc/asm330lhb_STdC/driver/asm330lhb_reg.c:2571-2682 | The HP-path setter changes only CTRL8_XL; after it succeeded the getter returns every enumerator its table lists whose bits lie in the three fields. |
| Splits.GyHpRoundTrip | sensor/stmemsc/asm330lhb_STdC/driver/asm330lhb_reg.c:2795-2850 | The gyroscope HP setter changes only CTRL7_G and round-trips every listed enumerator. |
| Splits.I3cRoundTrip | sensor/stmemsc/asm330lhb_STdC/driver/asm330lhb_reg.c:3088-3159 | The I3C setter changes only CTRL9_XL and I3C_BUS_AVB, the second after the first was written, and round-trips every listed enumerator with bits only at 7, 1 and 0. |
| Splits.NotificationSetEffect | sensor/stmemsc/asm330lhb_STdC/driver/asm330lhb_reg.c:3690-3723 | The notification setter changes only INT_CFG0 and PAGE_RW, and on success stores the low bit in lir and int_clr_on_read and the second bit in emb_func_lir. |
| Splits.NotificationGetEffect | sensor/stmemsc/asm330lhb_STdC/driver/asm330lhb_reg.c:3733-3774 | The notification getter changes no register and on success decodes the two registers' bits. |
| Splits.NotificationRoundTrip | sensor/stmemsc/asm330lhb_STdC/driver/asm330lhb_reg.c:3690-3774 | The notification mode round-trips through its two registers in two banks for every listed enumerator below 4. |
| Splits.FfDurRoundTrip | sensor/stmemsc/asm330lhb_STdC/driver/asm330lhb_reg.c:4414-4467 | Free-fall duration: bit 5 goes to WAKE_UP_DUR and bits 0-4 to FREE_FALL; the getter returns the value's low six bits, which equal the value exactly when it is below 64. |
| Splits.WatermarkRoundTrip | sensor/stmemsc/asm330lhb_STdC/driver/asm330lhb_reg.c:4490-4538 | The watermark changes only FIFO_CTRL2 and FIFO_CTRL1; the getter returns the level modulo 512, which is the level exactly when it is below 512. |
| Splits.BatchThRoundTrip | sensor/stmemsc/asm330lhb_STdC/driver/asm330lhb_reg.c:5117-5167 | The batch-counter threshold changes only its two registers; the getter returns the value modulo 2048, which is the value exactly when it is below 2048. |
| Splits.FifoLevelGetEffect | sensor/stmemsc/asm330lhb_STdC/driver/asm330lhb_reg.c:5177-5194 | The FIFO level getter changes nothing and on success returns diff_fifo of FIFO_STATUS2 as the high byte and that of FIFO_STATUS1 as the low byte. |
| Splits.LongCntRoundTrip | sensor/stmemsc/asm330lhb_STdC/driver/asm330lhb_reg.c:5941-5987 | The long counter changes only its two bytes of the embedded-functions bank and round-trips every 16-bit value. |
| Engines.FsmEnBit | sensor/stmemsc/asm330lhb_STdC/driver/asm330lhb_reg.c:5841-5899 | The derived fsm_en is 1 exactly when one of the sixteen FSM enable bits is set, and 0 otherwise. |
| Engines.FsmEnableSetEffect | sensor/stmemsc/asm330lhb_STdC/driver/asm330lhb_reg.c:5841-5899 | The FSM enable setter changes only FSM_ENABLE_A, FSM_ENABLE_B and EMB_FUNC_EN_B; on success they hold the two bytes and fsm_en derived from them, with the user bank selected. |
| Engines.FsmEnableGetEffect | sensor/stmemsc/asm330lhb_STdC/driver/asm330lhb_reg.c:5909-5930 | The FSM enable getter changes nothing and on success returns the two enable registers. |
| Engines.FsmEnableRoundTrip | sensor/stmemsc/asm330lhb_STdC/driver/asm330lhb_reg.c:5841-5930 | After a successful set the getter returns the two bytes, and fsm_en is 1 exactly when one of the sixteen enable bits is set. |
| Engines.EmbFsmEnGetEffect | sensor/stmemsc/asm330lhb_STdC/driver/asm330lhb_reg.c:5809-5831 | The fsm_en getter changes no register and on success returns fsm_en with the user bank selected. |
| Engines.EmbFsmEnGetWritesBack | sensor/stmemsc/asm330lhb_STdC/driver/asm330lhb_reg.c:5809-5831 | The getter's fourth transaction writes EMB_FUNC_EN_B back with the byte it read. |
| Engines.EmbOdrOf | sensor/stmemsc/asm330lhb_STdC/driver/asm330lhb_reg.c:6110-6146 | The engine-rate getters return the enumerator whose code the field holds, and 12.5 Hz for any other value. |
| Engines.EmbOdrOfCode | sensor/stmemsc/asm330lhb_STdC/driver/asm330lhb_reg.c:6110-6146 | With distinct codes the switch inverts the code table. |
| Engines.FsmDataRateRoundTrip | sensor/stmemsc/asm330lhb_STdC/driver/asm330lhb_reg.c:6074-6146 | The FSM rate changes only EMB_FUNC_ODR_CFG_B, writes the two unused fields' defaults, and round-trips. |
| Engines.MlcDataRateRoundTrip | sensor/stmemsc/asm330lhb_STdC/driver/asm330lhb_reg.c:6455-6524 | The MLC rate changes only EMB_FUNC_ODR_CFG_C and round-trips. |
| Engines.MlcSetEffect | sensor/stmemsc/asm330lhb_STdC/driver/asm330lhb_reg.c:6374-6405 | mlc_set changes EMB_FUNC_EN_B, and EMB_FUNC_INIT_B only for a non-zero value; on success both hold the assigned bit. |
| Engines.MlcRoundTrip | sensor/stmemsc/asm330lhb_STdC/driver/asm330lhb_reg.c:6374-6431 | After mlc_set the getter returns what the one-bit field keeps of the value; for a non-zero value EMB_FUNC_INIT_B carries the same bit when mlc_init sits where mlc_en does. |
| Engines.MlcInitSetFrame | sensor/stmemsc/asm330lhb_STdC/driver/asm330lhb_reg.c:6534-6556 | mlc_init_set changes only EMB_FUNC_INIT_B. |
| Engines.MlcInitSetAgrees | sensor/stmemsc/asm330lhb_STdC/driver/asm330lhb_reg.c:6534-6556 | When every step succeeds mlc_init_set behaves as the ordinary setter of the embedded-functions bank. |
| Engines.MlcInitSetEffect | sensor/stmemsc/asm330lhb_STdC/driver/asm330lhb_reg.c:6534-6556 | When its six transactions succeed mlc_init_set reports success, EMB_FUNC_INIT_B holds the request, and the user bank is selected. |
| Engines.MlcInitSetRestores | sensor/stmemsc/asm330lhb_STdC/driver/asm330lhb_reg.c:6534-6556 | When the switch to the embedded bank fails, the switch back is still issued. |
| Engines.MlcInitSetStatusCancels | sensor/stmemsc/asm330lhb_STdC/driver/asm330lhb_reg.c:6534-6556 | The added statuses can cancel: -1 then 1 reports success although nothing changed. |
| Engines.MlcInitGetEffect | sensor/stmemsc/asm330lhb_STdC/driver/asm330lhb_reg.c:6566-6585 | mlc_init_get changes no register and returns mlc_init once its first three transactions succeeded, whatever the switch back reports. |
| Engines.MlcInitGetMasksFailure | sensor/stmemsc/asm330lhb_STdC/driver/asm330lhb_reg.c:6566-6585 | The restore status replaces a failed first status, so a failed switch reports success. |
| Engines.ClkDisSetWritesNothing | sensor/stmemsc/asm330lhb_STdC/driver/asm330lhb_reg.c:5730-5747 | emb_func_clk_dis_set changes no register, PAGE_SEL included, and issues only bank-switch writes. |
| Engines.ClkDisSetIsGet | sensor/stmemsc/asm330lhb_STdC/driver/asm330lhb_reg.c:5730-5766 | The clock-disable setter leaves the device, log and status exactly as the getter does: the value passed has no effect. |
| Engines.ClkDisGetEffect | sensor/stmemsc/asm330lhb_STdC/driver/asm330lhb_reg.c:5749-5766 | The clock-disable getter changes no register and returns emb_func_clk_dis once its first three transactions succeed. |
| Engines.ClkDisSetFixedThenGet | sensor/stmemsc/asm330lhb_STdC/driver/asm330lhb_reg.c:5730-5766 | The corrected clock-disable setter, which writes PAGE_SEL back, changes only PAGE_SEL; when its six transactions and the getter's five succeed, both report success and the getter returns the value set, truncated to the field. |
| Engines.FsmStatusGetEffect | sensor/stmemsc/asm330lhb_STdC/driver/asm330lhb_reg.c:5648-5677 | fsm_status_get issues both reads whatever the first returns, changes nothing, and reports the second read's status. |
| Engines.FsmStatusGetMasksFailure | sensor/stmemsc/asm330lhb_STdC/driver/asm330lhb_reg.c:5648-5677 | A failed first read is not reported when the second succeeds. |
| Engines.FsmOutGetEffect | sensor/stmemsc/asm330lhb_STdC/driver/asm330lhb_reg.c:5686-5699 | The FSM outputs are the 16 bytes from FSM_OUTS1 of the embedded bank; nothing changes. |
| Engines.MlcOutGetEffect | sensor/stmemsc/asm330lhb_STdC/driver/asm330lhb_reg.c:6594-6607 | The MLC outputs are the 8 bytes from MLC0_SRC of the embedded bank; nothing changes. |
| Engines.LongCntFlagGetEffect | sensor/stmemsc/asm330lhb_STdC/driver/asm330lhb_reg.c:5710-5728 | The long-counter flag is is_fsm_lc of EMB_FUNC_STATUS; nothing changes. |
| Rate.FsmQueryEffect | sensor/stmemsc/asm330lhb_STdC/driver/asm330lhb_reg.c:253-364 | The FSM check changes no register and on success yields the FSM rate exactly when an FSM is enabled. |
| Rate.MlcQueryEffect | sensor/stmemsc/asm330lhb_STdC/driver/asm330lhb_reg.c:366-459 | The MLC check changes no register and on success yields the MLC rate exactly when mlc_en reads 1. |
| Rate.EngineFloorsEffect | sensor/stmemsc/asm330lhb_STdC/driver/asm330lhb_reg.c:253-459 | Both checks together change no register and yield the two floors. |
| Rate.XlOdrOf | sensor/stmemsc/asm330lhb_STdC/driver/asm330lhb_reg.c:484-528 | The accelerometer rate getter returns the enumerator whose code the field holds and XL_ODR_OFF for any other code. |
| Rate.GyOdrOf | sensor/stmemsc/asm330lhb_STdC/driver/asm330lhb_reg.c:846-887 | The gyroscope rate getter returns GY_ODR_OFF for any unknown code. |
| Rate.XlOdrOfCode | sensor/stmemsc/asm330lhb_STdC/driver/asm330lhb_reg.c:484-528 | With distinct codes the getter's switch inverts the code table. |
| Rate.XlDataRateSetEffect | sensor/stmemsc/asm330lhb_STdC/driver/asm330lhb_reg.c:242-474 | xl_data_rate_set changes only CTRL1_XL, which on success holds the arbitrated rate in odr_xl over its old contents. |
| Rate.GyDataRateSetEffect | sensor/stmemsc/asm330lhb_STdC/driver/asm330lhb_reg.c:603-836 | gy_data_rate_set changes only CTRL2_G the same way. |
| Rate.XlDataRateSetQueryFails | sensor/stmemsc/asm330lhb_STdC/driver/asm330lhb_reg.c:461-473 | When a check fails, that status is returned and CTRL1_XL is neither read nor written. |
| Rate.GyDataRateSetQueryFails | sensor/stmemsc/asm330lhb_STdC/driver/asm330lhb_reg.c:822-836 | The same for CTRL2_G. |
| Rate.XlDataRateRoundTrip | sensor/stmemsc/asm330lhb_STdC/driver/asm330lhb_reg.c:242-528 | After a successful set the getter returns the arbitrated rate, which is the request itself when no engine runs. |
| Rate.GyDataRateRoundTrip | sensor/stmemsc/asm330lhb_STdC/driver/asm330lhb_reg.c:603-887 | The gyroscope rate round trip. |
| Rate.MlcQueryMasksFailure | sensor/stmemsc/asm330lhb_STdC/driver/asm330lhb_reg.c:366-459 | When mlc_en reads 1 and mlc_get's switch back fails, the following rate query's success hides the failure. |
| Paging.RunConcat | sensor/stmemsc/asm330lhb_STdC/driver/asm330lhb_reg.c:1774-1827 | Running two lists of paging steps is running the first and, if it succeeded, the second. |
| Paging.SessionTrace | sensor/stmemsc/asm330lhb_STdC/driver/asm330lhb_reg.c:1774-1827 | A paging sequence commits its planned operations on success, leaving the user bank selected; on failure it commits a strict prefix of them. |
| Paging.PageOffsetIsLow | sensor/stmemsc/asm330lhb_STdC/driver/asm330lhb_reg.c:1808-1813 | The PAGE_ADDRESS byte the driver computes is the low byte of the address, whatever the page field keeps. |
| Paging.LnPgWriteByteProtocol | sensor/stmemsc/asm330lhb_STdC/driver/asm330lhb_reg.c:1774-1827 | ln_pg_write_byte commits in order: embedded bank, write mode, the page with the reserved bit set, the offset, the byte, mode 0, user bank; the first failure skips the rest. |
| Paging.LnPgReadByteProtocol | sensor/stmemsc/asm330lhb_STdC/driver/asm330lhb_reg.c:1937-1990 | ln_pg_read_byte commits the same sequence in read mode, with the two-byte fetch in place of the write. |
| Paging.LnPgWriteByteFrame | sensor/stmemsc/asm330lhb_STdC/driver/asm330lhb_reg.c:1774-1827 | ln_pg_write_byte keeps the error discipline and changes only the four paging registers. |
| Paging.LnPgReadByteFrame | sensor/stmemsc/asm330lhb_STdC/driver/asm330lhb_reg.c:1937-1990 | ln_pg_read_byte changes no register but PAGE_RW, PAGE_SEL and PAGE_ADDRESS. |
| Paging.LnPgWriteByteOk | sensor/stmemsc/asm330lhb_STdC/driver/asm330lhb_reg.c:1774-1827 | When its twelve transactions succeed, ln_pg_write_byte reports success. |
| Paging.LnPgReadByteOutput | sensor/stmemsc/asm330lhb_STdC/driver/asm330lhb_reg.c:1937-1990 | ln_pg_read_byte writes only the two destination bytes from `at`; on success they are the two bytes PAGE_VALUE and the next register held on entry. |
| Paging.AdvanceFixedIsAdd | sensor/stmemsc/asm330lhb_STdC/driver/asm330lhb_reg.c:1879-1903 | With the crossing counted when lsb wraps, the loop's bookkeeping tracks the address of the next line. |
| Paging.AdvanceClosed | sensor/stmemsc/asm330lhb_STdC/driver/asm330lhb_reg.c:1879-1903 | The bookkeeping as written has a closed form that differs from the next line's page around page boundaries. |
| Paging.PageLag | sensor/stmemsc/asm330lhb_STdC/driver/asm330lhb_reg.c:1879-1903 | After a byte at offset 0x00 the driver selects a page one ahead of the next line's page; after a byte at 0xFF it keeps the page it just left. |
| Paging.LnPgWriteProtocol | sensor/stmemsc/asm330lhb_STdC/driver/asm330lhb_reg.c:1839-1926 | ln_pg_write commits the entry steps, each byte followed by a rewrite of PAGE_SEL with the bookkeeping's page, then page 0, mode 0 and the user bank; the first failure skips the rest. |
| Paging.LnPgWriteFixedProtocol | sensor/stmemsc/asm330lhb_STdC/driver/asm330lhb_reg.c:1839-1926 | With the corrected crossing test, every byte is followed by the page of the next line. |
| Paging.LnPgWriteFrame | sensor/stmemsc/asm330lhb_STdC/driver/asm330lhb_reg.c:1839-1926 | ln_pg_write changes only the four paging registers. |
| Paging.LnPgWriteOk | sensor/stmemsc/asm330lhb_STdC/driver/asm330lhb_reg.c:1839-1926 | ln_pg_write issues twelve transactions plus two or three per byte, and reports success when they all succeed. |
| FsmPages.HalvesJoin | sensor/stmemsc/asm330lhb_STdC/driver/asm330lhb_reg.c:6219-6234 | The setters' split of a 16-bit value gives its low and high byte, which rejoin to the value. |
| FsmPages.TwoWritesProtocol | sensor/stmemsc/asm330lhb_STdC/driver/asm330lhb_reg.c:6219-6234 | Two single-byte writes commit both paging sequences on success, and a strict prefix of them otherwise. |
| FsmPages.LongCntIntValueSetProtocol | sensor/stmemsc/asm330lhb_STdC/driver/asm330lhb_reg.c:6219-6234 | long_cnt_int_value_set writes the low byte to FSM_LC_TIMEOUT_L, then the high byte to FSM_LC_TIMEOUT_H. |
| FsmPages.FsmStartAddressSetProtocol | sensor/stmemsc/asm330lhb_STdC/driver/asm330lhb_reg.c:6312-6326 | fsm_start_address_set writes the low byte to FSM_START_ADD_L, then the high byte to FSM_START_ADD_H. |
| FsmPages.FsmNumberOfProgramsSetProtocol | sensor/stmemsc/asm330lhb_STdC/driver/asm330lhb_reg.c:6272-6284 | fsm_number_of_programs_set writes its byte to FSM_PROGRAMS and to the next line, the second only after the first succeeded. |
| FsmPages.FsmNumberOfProgramsGetProtocol | sensor/stmemsc/asm330lhb_STdC/driver/asm330lhb_reg.c:6294-6301 | fsm_number_of_programs_get commits the read sequence of FSM_PROGRAMS and changes only the first two bytes of the buffer. |
| FsmPages.GetterOverruns | sensor/stmemsc/asm330lhb_STdC/driver/asm330lhb_reg.c:6247-6262 | As written, for a 2-byte `buff` LnPgReadByte's precondition holds at offset 0 and fails at offset 1, where the second two-byte read lands. |
| FsmPages.WordGetProtocol | sensor/stmemsc/asm330lhb_STdC/driver/asm330lhb_reg.c:6247-6262 | A 16-bit getter with room for both reads commits the read sequence of the low line, then that of the high line. |
| FsmPages.WordGetValue | sensor/stmemsc/asm330lhb_STdC/driver/asm330lhb_reg.c:6337-6350 | The 16-bit getter ends as two reads into fresh buffers would, and on success returns the high line's byte times 256 plus the low line's. |
| Routing.ReadSeqEffect | sensor/stmemsc/asm330lhb_STdC/driver/asm330lhb_reg.c:3311-3353 | A read sequence changes nothing; each byte it returns is its register's, and on success it returns all of them. |
| Routing.WriteSeqEffect | sensor/stmemsc/asm330lhb_STdC/driver/asm330lhb_reg.c:3183-3301 | A write sequence to distinct registers changes only those registers, which on success hold the data. |
| Routing.EmbReadSeqEffect | sensor/stmemsc/asm330lhb_STdC/driver/asm330lhb_reg.c:3311-3353 | Reads of the embedded bank change nothing and on success return its registers, with the user bank selected. |
| Routing.EmbWriteSeqEffect | sensor/stmemsc/asm330lhb_STdC/driver/asm330lhb_reg.c:3183-3301 | Writes to the embedded bank change only their registers, which on success hold the data, with the user bank selected. |
| Routing.RouteGetEffect | sensor/stmemsc/asm330lhb_STdC/driver/asm330lhb_reg.c:3311-3353 | The route getter changes nothing and on success returns the routing the device holds, whatever the caller's struct held. |
| Routing.RoutedEmbFunc | sensor/stmemsc/asm330lhb_STdC/driver/asm330lhb_reg.c:3244-3249 | intx_emb_func is set exactly when a long-counter, FSM or MLC routing bit is set; nothing else of the caller's struct changes. |
| Routing.BaseIgnoresEmbedded | sensor/stmemsc/asm330lhb_STdC/driver/asm330lhb_reg.c:3262-3298 | The embedded-function bits do not enter the OR that decides interrupts_enable. |
| Routing.EnableEffect | sensor/stmemsc/asm330lhb_STdC/driver/asm330lhb_reg.c:3262-3298 | The final steps change only INT_CFG1, setting interrupts_enable exactly when a base routing bit of either pin is set. |
| Routing.RouteSetEffect | sensor/stmemsc/asm330lhb_STdC/driver/asm330lhb_reg.c:3183-3301 | The route setter changes only its pin's routing registers and INT_CFG1; on success the device holds the returned struct, and interrupts_enable is derived from both pins' base bits. |
| Routing.RouteSetEnables | sensor/stmemsc/asm330lhb_STdC/driver/asm330lhb_reg.c:3183-3301 | On success interrupts_enable is 1 exactly when a base routing bit of either pin is set, and intx_emb_func exactly when an embedded routing bit is set. |
| Routing.RouteSetThenGet | sensor/stmemsc/asm330lhb_STdC/driver/asm330lhb_reg.c:3183-3353 | A successful set followed by a successful get returns the struct the setter left. |
| Routing.AllSourcesGetEffect | sensor/stmemsc/asm330lhb_STdC/driver/asm330lhb_reg.c:1102-1154 | all_sources_get changes nothing and on success returns the eight source registers as the device holds them. |
| Driver.Device.constructor | sensor/stmemsc/asm330lhb_STdC/driver/asm330lhb_reg.c:49-87 | A device starts from a coherent state with an empty log. |
| Driver.Device.ReadReg | sensor/stmemsc/asm330lhb_STdC/driver/asm330lhb_reg.c:49-62 | Leaves the device as Bus.ReadReg leaves the state on entry, returning its status and result (so Bus.ReadRegConfined holds of the call). |
| Driver.Device.WriteReg | sensor/stmemsc/asm330lhb_STdC/driver/asm330lhb_reg.c:74-87 | Leaves the device as Bus.WriteReg leaves the state on entry, returning its status and result (so Bus.WriteRegFrame holds of the call). |
| Driver.Device.MemBankSet | sensor/stmemsc/asm330lhb_STdC/driver/asm330lhb_reg.c:1716-1731 | Leaves the device as Bus.MemBankSet leaves the state on entry, returning its status and result (so Bus.MemBankSetSelects holds of the call); on success the requested bank is selected. |
| Driver.Device.MemBankGet | sensor/stmemsc/asm330lhb_STdC/driver/asm330lhb_reg.c:1742-1763 | Leaves the device as Bus.MemBankGet leaves the state on entry, returning its status and result (so Bus.MemBankSetThenGet holds of the call). |
| Driver.Device.SetFields | sensor/stmemsc/asm330lhb_STdC/driver/asm330lhb_reg.c:182-196 | Leaves the device as Bus.SetFields leaves the state on entry, returning its status and result (so Bus.SetFieldsEffect holds of the call). |
| Driver.Device.GetField | sensor/stmemsc/asm330lhb_STdC/driver/asm330lhb_reg.c:206-232 | Leaves the device as Bus.GetField leaves the state on entry, returning its status and result (so Bus.SetThenGet holds of the call). |
| Driver.Device.EmbSetFields | sensor/stmemsc/asm330lhb_STdC/driver/asm330lhb_reg.c:6455-6479 | Leaves the device as Bus.EmbSetFields leaves the state on entry, returning its status and result (so Bus.EmbSetFieldsEffect holds of the call). |
| Driver.Device.EmbGetField | sensor/stmemsc/asm330lhb_STdC/driver/asm330lhb_reg.c:6489-6524 | Leaves the device as Bus.EmbGetField leaves the state on entry, returning its status and result (so Bus.EmbGetFieldEffect holds of the call). |
| Driver.Device.ReadTwo | sensor/stmemsc/asm330lhb_STdC/driver/asm330lhb_reg.c:3124-3159 | Leaves the device as Bus.ReadTwo leaves the state on entry, returning its status and result (so Bus.ReadTwoEffect holds of the call). |
| Driver.Device.EmbRead | sensor/stmemsc/asm330lhb_STdC/driver/asm330lhb_reg.c:5686-5699 | Leaves the device as Bus.EmbRead leaves the state on entry, returning its status and result (so Bus.EmbReadEffect holds of the call). |
| Driver.Device.EmbWrite | sensor/stmemsc/asm330lhb_STdC/driver/asm330lhb_reg.c:5941-5959 | Leaves the device as Bus.EmbWrite leaves the state on entry, returning its status and result (so Bus.EmbWritePairEffect holds of the call). |
| Driver.Device.SwitchThenRead | sensor/stmemsc/asm330lhb_STdC/driver/asm330lhb_reg.c:6566-6585 | Leaves the device as Engines.SwitchThenRead leaves the state on entry, returning its status and result (so Engines.SwitchThenReadEffect holds of the call). |
| Driver.Device.SetFieldsTwice | sensor/stmemsc/asm330lhb_STdC/driver/asm330lhb_reg.c:3088-3114 | Leaves the device as Bus.SetFieldsTwice leaves the state on entry, returning its status and result (so Bus.SetFieldsTwiceEffect holds of the call). |
| Driver.Device.SetFieldsThenWrite | sensor/stmemsc/asm330lhb_STdC/driver/asm330lhb_reg.c:4490-4512 | Leaves the device as Bus.SetFieldsThenWrite leaves the state on entry, returning its status and result (so Bus.SetFieldsThenWriteEffect holds of the call). |
| Driver.Device.TimestampRawGet | sensor/stmemsc/asm330lhb_STdC/driver/asm330lhb_reg.c:1475-1487 | Leaves the device as Outputs.TimestampRawGet leaves the state on entry, returning its status and result (so Outputs.TimestampRawGetEffect holds of the call). |
| Driver.Device.TemperatureRawGet | sensor/stmemsc/asm330lhb_STdC/driver/asm330lhb_reg.c:1570-1580 | Leaves the device as Outputs.TemperatureRawGet leaves the state on entry, returning its status and result (so Outputs.TemperatureRawGetEffect holds of the call). |
| Driver.Device.AxesRawGet | sensor/stmemsc/asm330lhb_STdC/driver/asm330lhb_reg.c:1591-1630 | Leaves the device as Outputs.AxesRawGet leaves the state on entry, returning its status and result (so Outputs.AxesRawGetEffect holds of the call); for OUTX_L_G or OUTX_L_A. |
| Driver.Device.HpPathSet | sensor/stmemsc/asm330lhb_STdC/driver/asm330lhb_reg.c:2571-2587 | Leaves the device as Splits.HpPathSet leaves the state on entry, returning its status and result (so Splits.HpPathRoundTrip holds of the call). |
| Driver.Device.HpPathGet | sensor/stmemsc/asm330lhb_STdC/driver/asm330lhb_reg.c:2598-2682 | Leaves the device as Splits.HpPathGet leaves the state on entry, returning its status and result (so Splits.HpPathRoundTrip holds of the call). |
| Driver.Device.GyHpSet | sensor/stmemsc/asm330lhb_STdC/driver/asm330lhb_reg.c:2795-2809 | Leaves the device as Splits.GyHpSet leaves the state on entry, returning its status and result (so Splits.GyHpRoundTrip holds of the call). |
| Driver.Device.GyHpGet | sensor/stmemsc/asm330lhb_STdC/driver/asm330lhb_reg.c:2820-2850 | Leaves the device as Splits.GyHpGet leaves the state on entry, returning its status and result (so Splits.GyHpRoundTrip holds of the call). |
| Driver.Device.I3cSet | sensor/stmemsc/asm330lhb_STdC/driver/asm330lhb_reg.c:3088-3114 | Leaves the device as Splits.I3cSet leaves the state on entry, returning its status and result (so Splits.I3cRoundTrip holds of the call). |
| Driver.Device.I3cGet | sensor/stmemsc/asm330lhb_STdC/driver/asm330lhb_reg.c:3124-3159 | Leaves the device as Splits.I3cGet leaves the state on entry, returning its status and result (so Splits.I3cRoundTrip holds of the call). |
| Driver.Device.NotificationSet | sensor/stmemsc/asm330lhb_STdC/driver/asm330lhb_reg.c:3690-3723 | Leaves the device as Splits.NotificationSet leaves the state on entry, returning its status and result (so Splits.NotificationSetEffect holds of the call). |
| Driver.Device.NotificationGet | sensor/stmemsc/asm330lhb_STdC/driver/asm330lhb_reg.c:3733-3774 | Leaves the device as Splits.NotificationGet leaves the state on entry, returning its status and result (so Splits.NotificationGetEffect holds of the call). |
| Driver.Device.FfDurSet | sensor/stmemsc/asm330lhb_STdC/driver/asm330lhb_reg.c:4414-4440 | Leaves the device as Splits.FfDurSet leaves the state on entry, returning its status and result (so Splits.FfDurRoundTrip holds of the call). |
| Driver.Device.FfDurGet | sensor/stmemsc/asm330lhb_STdC/driver/asm330lhb_reg.c:4450-4467 | Leaves the device as Splits.FfDurGet leaves the state on entry, returning its status and result (so Splits.FfDurRoundTrip holds of the call). |
| Driver.Device.WatermarkSet | sensor/stmemsc/asm330lhb_STdC/driver/asm330lhb_reg.c:4490-4512 | Leaves the device as Splits.WatermarkSet leaves the state on entry, returning its status and result (so Splits.WatermarkRoundTrip holds of the call). |
| Driver.Device.WatermarkGet | sensor/stmemsc/asm330lhb_STdC/driver/asm330lhb_reg.c:4522-4538 | Leaves the device as Splits.WatermarkGet leaves the state on entry, returning its status and result (so Splits.WatermarkRoundTrip holds of the call). |
| Driver.Device.BatchThSet | sensor/stmemsc/asm330lhb_STdC/driver/asm330lhb_reg.c:5117-5138 | Leaves the device as Splits.BatchThSet leaves the state on entry, returning its status and result (so Splits.BatchThRoundTrip holds of the call). |
| Driver.Device.BatchThGet | sensor/stmemsc/asm330lhb_STdC/driver/asm330lhb_reg.c:5149-5167 | Leaves the device as Splits.BatchThGet leaves the state on entry, returning its status and result (so Splits.BatchThRoundTrip holds of the call). |
| Driver.Device.FifoLevelGet | sensor/stmemsc/asm330lhb_STdC/driver/asm330lhb_reg.c:5177-5194 | Leaves the device as Splits.FifoLevelGet leaves the state on entry, returning its status and result (so Splits.FifoLevelGetEffect holds of the call). |
| Driver.Device.LongCntSet | sensor/stmemsc/asm330lhb_STdC/driver/asm330lhb_reg.c:5941-5959 | Leaves the device as Splits.LongCntSet leaves the state on entry, returning its status and result (so Splits.LongCntRoundTrip holds of the call). |
| Driver.Device.LongCntGet | sensor/stmemsc/asm330lhb_STdC/driver/asm330lhb_reg.c:5970-5987 | Leaves the device as Splits.LongCntGet leaves the state on entry, returning its status and result (so Splits.LongCntRoundTrip holds of the call). |
| Driver.Device.FsmEnableSet | sensor/stmemsc/asm330lhb_STdC/driver/asm330lhb_reg.c:5841-5899 | Leaves the device as Engines.FsmEnableSet leaves the state on entry, returning its status and result (so Engines.FsmEnableSetEffect holds of the call). |
| Driver.Device.FsmEnableGet | sensor/stmemsc/asm330lhb_STdC/driver/asm330lhb_reg.c:5909-5930 | Leaves the device as Engines.FsmEnableGet leaves the state on entry, returning its status and result (so Engines.FsmEnableGetEffect holds of the call). |
| Driver.Device.EmbFsmEnSet | sensor/stmemsc/asm330lhb_STdC/driver/asm330lhb_reg.c:5776-5799 | Leaves the device as Engines.EmbFsmEnSet leaves the state on entry, returning its status and result (so Bus.EmbSetFieldsEffect holds of the call). |
| Driver.Device.EmbFsmEnGet | sensor/stmemsc/asm330lhb_STdC/driver/asm330lhb_reg.c:5809-5831 | Leaves the device as Engines.EmbFsmEnGet leaves the state on entry, returning its status and result (so Engines.EmbFsmEnGetEffect holds of the call); write-back included. |
| Driver.Device.FsmDataRateSet | sensor/stmemsc/asm330lhb_STdC/driver/asm330lhb_reg.c:6074-6100 | Leaves the device as Engines.FsmDataRateSet leaves the state on entry, returning its status and result (so Engines.FsmDataRateRoundTrip holds of the call). |
| Driver.Device.FsmDataRateGet | sensor/stmemsc/asm330lhb_STdC/driver/asm330lhb_reg.c:6110-6146 | Leaves the device as Engines.FsmDataRateGet leaves the state on entry, returning its status and result (so Engines.FsmDataRateRoundTrip holds of the call). |
| Driver.Device.MlcDataRateSet | sensor/stmemsc/asm330lhb_STdC/driver/asm330lhb_reg.c:6455-6479 | Leaves the device as Engines.MlcDataRateSet leaves the state on entry, returning its status and result (so Engines.MlcDataRateRoundTrip holds of the call). |
| Driver.Device.MlcDataRateGet | sensor/stmemsc/asm330lhb_STdC/driver/asm330lhb_reg.c:6489-6524 | Leaves the device as Engines.MlcDataRateGet leaves the state on entry, returning its status and result (so Engines.MlcDataRateRoundTrip holds of the call). |
| Driver.Device.MlcSet | sensor/stmemsc/asm330lhb_STdC/driver/asm330lhb_reg.c:6374-6405 | Leaves the device as Engines.MlcSet leaves the state on entry, returning its status and result (so Engines.MlcSetEffect holds of the call). |
| Driver.Device.MlcGet | sensor/stmemsc/asm330lhb_STdC/driver/asm330lhb_reg.c:6415-6431 | Leaves the device as Engines.MlcGet leaves the state on entry, returning its status and result (so Engines.MlcRoundTrip holds of the call). |
| Driver.Device.MlcInitSet | sensor/stmemsc/asm330lhb_STdC/driver/asm330lhb_reg.c:6534-6556 | Leaves the device as Engines.MlcInitSet leaves the state on entry, returning its status and result (so Engines.MlcInitSetEffect holds of the call); with the added status. |
| Driver.Device.MlcInitGet | sensor/stmemsc/asm330lhb_STdC/driver/asm330lhb_reg.c:6566-6585 | Leaves the device as Engines.MlcInitGet leaves the state on entry, returning its status and result (so Engines.MlcInitGetEffect holds of the call); with the restore status replacing the earlier one. |
| Driver.Device.ClkDisSet | sensor/stmemsc/asm330lhb_STdC/driver/asm330lhb_reg.c:5730-5747 | Leaves the device as Engines.ClkDisSet leaves the state on entry, returning its status and result (so Engines.ClkDisSetWritesNothing holds of the call); PAGE_SEL is read and never written back. |
| Driver.Device.ClkDisGet | sensor/stmemsc/asm330lhb_STdC/driver/asm330lhb_reg.c:5749-5766 | Leaves the device as Engines.ClkDisGet leaves the state on entry, returning its status and result (so Engines.ClkDisGetEffect holds of the call). |
| Driver.Device.FsmStatusGet | sensor/stmemsc/asm330lhb_STdC/driver/asm330lhb_reg.c:5648-5677 | Leaves the device as Engines.FsmStatusGet leaves the state on entry, returning its status and result (so Engines.FsmStatusGetEffect holds of the call); dropping the first status. |
| Driver.Device.FsmOutGet | sensor/stmemsc/asm330lhb_STdC/driver/asm330lhb_reg.c:5686-5699 | Leaves the device as Engines.FsmOutGet leaves the state on entry, returning its status and result (so Engines.FsmOutGetEffect holds of the call). |
| Driver.Device.MlcOutGet | sensor/stmemsc/asm330lhb_STdC/driver/asm330lhb_reg.c:6594-6607 | Leaves the device as Engines.MlcOutGet leaves the state on entry, returning its status and result (so Engines.MlcOutGetEffect holds of the call). |
| Driver.Device.LongCntFlagGet | sensor/stmemsc/asm330lhb_STdC/driver/asm330lhb_reg.c:5710-5728 | Leaves the device as Engines.LongCntFlagGet leaves the state on entry, returning its status and result (so Engines.LongCntFlagGetEffect holds of the call). |
| Driver.Device.FsmQuery | sensor/stmemsc/asm330lhb_STdC/driver/asm330lhb_reg.c:253-364 | Leaves the device as Rate.FsmQuery leaves the state on entry, returning its status and result (so Rate.FsmQueryEffect holds of the call). |
| Driver.Device.MlcQuery | sensor/stmemsc/asm330lhb_STdC/driver/asm330lhb_reg.c:366-459 | Leaves the device as Rate.MlcQuery leaves the state on entry, returning its status and result (so Rate.MlcQueryEffect holds of the call). |
| Driver.Device.EngineFloors | sensor/stmemsc/asm330lhb_STdC/driver/asm330lhb_reg.c:253-459 | Leaves the device as Rate.EngineFloors leaves the state on entry, returning its status and result (so Rate.EngineFloorsEffect holds of the call). |
| Driver.Device.XlDataRateSet | sensor/stmemsc/asm330lhb_STdC/driver/asm330lhb_reg.c:242-474 | Leaves the device as Rate.XlDataRateSet leaves the state on entry, returning its status and result (so Rate.XlDataRateSetEffect holds of the call); the checks, then the arbitrated rate written to CTRL1_XL. |
| Driver.Device.XlDataRateGet | sensor/stmemsc/asm330lhb_STdC/driver/asm330lhb_reg.c:484-528 | Leaves the device as Rate.XlDataRateGet leaves the state on entry, returning its status and result (so Rate.XlDataRateRoundTrip holds of the call). |
| Driver.Device.GyDataRateSet | sensor/stmemsc/asm330lhb_STdC/driver/asm330lhb_reg.c:603-836 | Leaves the device as Rate.GyDataRateSet leaves the state on entry, returning its status and result (so Rate.GyDataRateSetEffect holds of the call). |
| Driver.Device.GyDataRateGet | sensor/stmemsc/asm330lhb_STdC/driver/asm330lhb_reg.c:846-887 | Leaves the device as Rate.GyDataRateGet leaves the state on entry, returning its status and result (so Rate.GyDataRateRoundTrip holds of the call). |
| Driver.Device.ReadRegs | sensor/stmemsc/asm330lhb_STdC/driver/asm330lhb_reg.c:3311-3353 | Leaves the device as Routing.ReadSeq leaves the state on entry, returning its status and bytes (so Routing.ReadSeqEffect holds of the call): single-byte reads that stop at the first failure. |
| Driver.Device.WriteRegs | sensor/stmemsc/asm330lhb_STdC/driver/asm330lhb_reg.c:3183-3301 | Leaves the device as Routing.WriteSeq leaves the state on entry, returning its status (so Routing.WriteSeqEffect holds of the call): single-byte writes that stop at the first failure. |
| Driver.Device.EmbReadRegs | sensor/stmemsc/asm330lhb_STdC/driver/asm330lhb_reg.c:3311-3353 | Leaves the device as Routing.EmbReadSeq leaves the state on entry, returning its status and result (so Routing.EmbReadSeqEffect holds of the call). |
| Driver.Device.EmbWriteRegs | sensor/stmemsc/asm330lhb_STdC/driver/asm330lhb_reg.c:3183-3301 | Leaves the device as Routing.EmbWriteSeq leaves the state on entry, returning its status and result (so Routing.EmbWriteSeqEffect holds of the call). |
| Driver.Device.RouteGet | sensor/stmemsc/asm330lhb_STdC/driver/asm330lhb_reg.c:3311-3353 | Leaves the device as Routing.RouteGet leaves the state on entry, returning its status and result (so Routing.RouteGetEffect holds of the call); for either pin. |
| Driver.Device.Enable | sensor/stmemsc/asm330lhb_STdC/driver/asm330lhb_reg.c:3262-3298 | Leaves the device as Routing.Enable leaves the state on entry, returning its status and result (so Routing.EnableEffect holds of the call). |
| Driver.Device.RouteSet | sensor/stmemsc/asm330lhb_STdC/driver/asm330lhb_reg.c:3183-3301 | Leaves the device as Routing.RouteSet leaves the state on entry, returning its status and result (so Routing.RouteSetEffect holds of the call); for either pin, returning the caller's struct as the call leaves it. |
| Driver.Device.AllSourcesGet | sensor/stmemsc/asm330lhb_STdC/driver/asm330lhb_reg.c:1102-1154 | Leaves the device as Routing.AllSourcesGet leaves the state on entry, returning its status and result (so Routing.AllSourcesGetEffect holds of the call). |
| Driver.Device.Step | sensor/stmemsc/asm330lhb_STdC/driver/asm330lhb_reg.c:1774-1827 | Leaves the device as Paging.Exec leaves the state on entry and returns its status and the updated locals of the paging function. |
| Driver.Device.Open | sensor/stmemsc/asm330lhb_STdC/driver/asm330lhb_reg.c:1839-1878 | The entry steps of a paging function (embedded bank, page mode, PAGE_SEL, PAGE_ADDRESS) end as Paging.Run of those steps. |
| Driver.Device.Close | sensor/stmemsc/asm330lhb_STdC/driver/asm330lhb_reg.c:1912-1924 | The exit steps, page mode 0 and the user bank, end as Paging.Run of the steps so far followed by those two. |
| Driver.Device.LnPgWriteByte | sensor/stmemsc/asm330lhb_STdC/driver/asm330lhb_reg.c:1774-1827 | Leaves the device as Paging.LnPgWriteByte leaves the state on entry, returning its status and result (so Paging.LnPgWriteByteProtocol holds of the call). |
| Driver.Device.LnPgReadByte | sensor/stmemsc/asm330lhb_STdC/driver/asm330lhb_reg.c:1937-1990 | Leaves the device as Paging.LnPgReadByte leaves the state on entry, returning its status and result (so Paging.LnPgReadByteOutput holds of the call). |
| Driver.Device.PutLineByte | sensor/stmemsc/asm330lhb_STdC/driver/asm330lhb_reg.c:1879-1903 | One turn of the loop ends as the paging steps Driver.LineStep plans, and on success its msb and lsb are the bookkeeping Paging.PageStep gives, crossing test as written. |
| Driver.Device.LnPgWrite | sensor/stmemsc/asm330lhb_STdC/driver/asm330lhb_reg.c:1839-1926 | The loop over the buffer, with an invariant tying the steps so far to the plan and the bookkeeping, ends as Paging.LnPgWrite (so Paging.LnPgWriteProtocol and Paging.PageLag hold of the call). |
| Driver.Device.TwoWrites | sensor/stmemsc/asm330lhb_STdC/driver/asm330lhb_reg.c:6219-6234 | Leaves the device as FsmPages.TwoWrites leaves the state on entry, returning its status and result (so FsmPages.TwoWritesProtocol holds of the call). |
| Driver.Device.WordSet | sensor/stmemsc/asm330lhb_STdC/driver/asm330lhb_reg.c:6219-6234 | Leaves the device as FsmPages.WordSet leaves the state on entry, returning its status and result (so FsmPages.WordSetProtocol holds of the call). |
| Driver.Device.LongCntIntValueSet | sensor/stmemsc/asm330lhb_STdC/driver/asm330lhb_reg.c:6219-6234 | Leaves the device as FsmPages.LongCntIntValueSet leaves the state on entry, returning its status and result (so FsmPages.LongCntIntValueSetProtocol holds of the call). |
| Driver.Device.FsmStartAddressSet | sensor/stmemsc/asm330lhb_STdC/driver/asm330lhb_reg.c:6312-6326 | Leaves the device as FsmPages.FsmStartAddressSet leaves the state on entry, returning its status and result (so FsmPages.FsmStartAddressSetProtocol holds of the call). |
| Driver.Device.FsmNumberOfProgramsSet | sensor/stmemsc/asm330lhb_STdC/driver/asm330lhb_reg.c:6272-6284 | Leaves the device as FsmPages.FsmNumberOfProgramsSet leaves the state on entry, returning its status and result (so FsmPages.FsmNumberOfProgramsSetProtocol holds of the call). |
| Driver.Device.FsmNumberOfProgramsGet | sensor/stmemsc/asm330lhb_STdC/driver/asm330lhb_reg.c:6294-6301 | Leaves the device as FsmPages.FsmNumberOfProgramsGet leaves the state on entry, returning its status and result (so FsmPages.FsmNumberOfProgramsGetProtocol holds of the call). |
| Driver.Device.WordGet | sensor/stmemsc/asm330lhb_STdC/driver/asm330lhb_reg.c:6247-6262 | Leaves the device as FsmPages.WordGet leaves the state on entry, returning its status and result (so FsmPages.WordGetValue holds of the call). |
| Driver.Device.LongCntIntValueGet | sensor/stmemsc/asm330lhb_STdC/driver/asm330lhb_reg.c:6247-6262 | Leaves the device as FsmPages.LongCntIntValueGet leaves the state on entry, returning its status and result (so FsmPages.WordGetValue holds of the call). |
| Driver.Device.FsmStartAddressGet | sensor/stmemsc/asm330lhb_STdC/driver/asm330lhb_reg.c:6337-6350 | Leaves the device as FsmPages.FsmStartAddressGet leaves the state on entry, returning its status and result (so FsmPages.WordGetValue holds of the call). |
| Bits.WordIsSum | sensor/stmemsc/asm330lhb_STdC/driver/asm330lhb_reg.c:4522-4538 | The joined word is the driver's `hi * 256 + lo`, with no carry out of the low byte. |
| Bus.WriteByte | sensor/stmemsc/asm330lhb_STdC/driver/asm330lhb_reg.c:74-87 | A successful single-byte write stores the byte in the selected bank, in both banks for FUNC_CFG_ACCESS, and the selected bank is what FUNC_CFG_ACCESS then encodes. |
| Bus.MemBankSetLog | sensor/stmemsc/asm330lhb_STdC/driver/asm330lhb_reg.c:1716-1731 | The bank switch issues its read, and its write only when the read succeeded. |
| Splits.WatermarkSplit | sensor/stmemsc/asm330lhb_STdC/driver/asm330lhb_reg.c:4490-4512 | The two parts the watermark setter writes are bit 8 of the level and its low byte; they rejoin to the level's low nine bits. |
| Splits.BatchThSplit | sensor/stmemsc/asm330lhb_STdC/driver/asm330lhb_reg.c:5117-5138 | The two parts the threshold setter writes, at most 7 and a byte, rejoin to the value's low eleven bits. |
| Splits.LongCntBytes | sensor/stmemsc/asm330lhb_STdC/driver/asm330lhb_reg.c:5941-5959 | The two bytes written to the long counter, low first, rejoin to the counter. |
| Engines.SwitchThenReadEffect | sensor/stmemsc/asm330lhb_STdC/driver/asm330lhb_reg.c:6566-6585 | The switch to the embedded bank followed by a read changes no register; when both succeed the byte read is that register of the embedded bank. |
| Rate.GyOdrOfCode | sensor/stmemsc/asm330lhb_STdC/driver/asm330lhb_reg.c:846-887 | With distinct codes the gyroscope getter's switch inverts the code table. |
| Rate.XlProgramThenGet | sensor/stmemsc/asm330lhb_STdC/driver/asm330lhb_reg.c:461-528 | After the final read-modify-write of CTRL1_XL succeeded, the rate getter decodes the arbitrated rate. |
| Rate.MlcGetRestoreFails | sensor/stmemsc/asm330lhb_STdC/driver/asm330lhb_reg.c:6415-6431 | With mlc_en set and the switch back failing in its write, mlc_get still returns 1 and reports the failure. |
| Paging.RunOk | sensor/stmemsc/asm330lhb_STdC/driver/asm330lhb_reg.c:1774-1827 | Paging steps whose transactions all succeed report success after issuing exactly their total number of transactions. |
| Paging.SessionOk | sensor/stmemsc/asm330lhb_STdC/driver/asm330lhb_reg.c:1774-1827 | A paging sequence whose transactions all succeed reports success after four more transactions than its body issues. |
| Paging.LnPgReadByteOk | sensor/stmemsc/asm330lhb_STdC/driver/asm330lhb_reg.c:1937-1990 | When its twelve transactions succeed, ln_pg_read_byte reports success. |
| Paging.FetchedOnEntry | sensor/stmemsc/asm330lhb_STdC/driver/asm330lhb_reg.c:1971-1976 | A sequence that reads PAGE_VALUE once, after steps that leave it alone, returns the two bytes PAGE_VALUE and the next register held on entry. |
| Paging.PageStepClosed | sensor/stmemsc/asm330lhb_STdC/driver/asm330lhb_reg.c:1879-1903 | One turn of the driver's bookkeeping keeps its closed form: the page lags by one exactly when the line offset is 0. |
| Paging.PageStepFixedAdds | sensor/stmemsc/asm330lhb_STdC/driver/asm330lhb_reg.c:1879-1903 | One turn of the corrected bookkeeping steps the 16-bit line address by one. |
| FsmPages.WordSetProtocol | sensor/stmemsc/asm330lhb_STdC/driver/asm330lhb_reg.c:6219-6234 | A 16-bit setter commits the write sequence of the low byte and then, after it succeeded, that of the high byte; the two rejoin to the value. |
| Routing.RouteWritesEffect | sensor/stmemsc/asm330lhb_STdC/driver/asm330lhb_reg.c:3183-3301 | The four embedded-bank writes and the two user-bank writes change only the pin's routing registers; on success the device holds the struct with intx_emb_func derived. |
| Routing.RouteOfBytes | sensor/stmemsc/asm330lhb_STdC/driver/asm330lhb_reg.c:3311-3353 | The six routing bytes read back decode to a struct whose bytes are exactly those. |
| Routing.SourcesOfBytes | sensor/stmemsc/asm330lhb_STdC/driver/asm330lhb_reg.c:1102-1154 | The eight source bytes decode to a struct whose bytes are exactly those. |
| Routing.SourcesRead | sensor/stmemsc/asm330lhb_STdC/driver/asm330lhb_reg.c:1102-1154 | Four bytes of the selected bank and four of the embedded bank, read from the source registers, are the bytes of the device's sources. |

## Left out

- The conversion of raw samples to physical units (`sensor/stmemsc/asm330lhb_STdC/driver/asm330lhb_reg.c` lines 101-159) is floating-point arithmetic and is not modelled.
- The platform callbacks, the bus they drive and the context pointer are a status oracle: the model assumes a transaction with status 0 takes effect and any other status does not. Timing and the delay callback are not modelled.
- The device's own behaviour behind PAGE_VALUE is not modelled: the paged memory is seen only through the paging operations the driver commits (`Paging.Trace`), not as the bytes the device stores.
- The register addresses, field positions and enumeration codes of the header are parameters of every lemma (`Layout`), not the header's constants, because the header is not part of this model.
- The roughly 150 field setters and getters that follow one pattern (read, assign a field, write back; read, switch on a field) are modelled once, by `Bus.SetFields`, `Bus.GetField` and `Bits.Decode`, not one function each.
- The unrolled reads and writes of the interrupt-routing functions become `Routing.ReadSeq` and `Routing.WriteSeq` over a list of registers.
- Driver.Device: the register files are `seq` fields that each method reassigns, not C structs reached through pointers, so aliasing between the caller's buffers and the device is not modelled.
- Bytes a getter returns after a failed read are whatever the register file holds: the C leaves those locals or output bytes as they were, and the model does not distinguish them.
- FsmPages.WordGet: returns 0 when its first read fails, where the C leaves `*val` unassigned.
- Splits.LongCntGet: returns 0 when the switch to the embedded bank or the read fails, where the C leaves `*val` unassigned after a failed switch and combines the bytes of `buff` it did not fill after a failed read.
- Splits.NotificationGet: returns the decoding of 0 (all interrupts pulsed) on any failure, including a failure of only the final switch back to the user bank, where the C has already read both registers and decodes their bits.
- The `ret +=` status sums of `emb_func_clk_dis_set`, `emb_func_clk_dis_get` and `mlc_init_set` (lines 5744, 5763, 6553) are `int32_t` additions in the C; the model adds unbounded integers, so signed overflow of the sum is not modelled.
- Paging.LnPgWrite: `len` is a `uint8_t` in the C, so the model takes buffers shorter than 256 bytes.
- Splits.BatchThRoundTrip: the C writes the high part through the COUNTER_BDR_REG2 layout into COUNTER_BDR_REG1 (lines 5127-5129), and that layout's one field fills the byte, so the other fields of COUNTER_BDR_REG1 are overwritten; the model writes the same byte (`Splits.BatchThSet` through `CntBdrThReg2`), and the lemma states only the threshold bits of that register.
- FIFO_CTRL1 and COUNTER_BDR_REG2 are written by the C from locals it never read, whose only field fills the byte. The model writes them as whole bytes of the value and keeps no bits of their previous contents.
- Concurrency, interrupts arriving during a call, and re-entrancy are not modelled.

## Findings

The driver model (`Rate`, `Paging`, `FsmPages` and `Driver.Device`) follows the code as written, with one exception: the 16-bit paged-memory getters read into a buffer with room for both transfers (second row), because the overrun has no defined meaning. The other corrected members stand beside the as-written ones, each with its intended property proved.

| source | as written | input that shows it | evidently intended | confidence | as-written member | corrected member |
|---|---|---|---|---|---|---|
| sensor/stmemsc/asm330lhb_STdC/driver/asm330lhb_reg.c:1887-1893 | `ln_pg_write` tests `lsb == 0` before `lsb++`, so it selects the next page after the byte at offset 0x00 instead of after the byte at 0xFF: one page ahead for a page-aligned start, the old page kept after a crossing | `add = 0x0100`, one byte: PAGE_SEL is rewritten with page 2; `add = 0x01FF`, one byte: it keeps page 1 though the next line is on page 2 | step `msb` when `lsb` wraps to 0 after its increment, so PAGE_SEL always holds the page of the next line | high; not executed | Paging.PageLag | Paging.LnPgWriteFixedProtocol |
| sensor/stmemsc/asm330lhb_STdC/driver/asm330lhb_reg.c:6247-6262 | the 16-bit getters read the high line into `&buff[1]` of `uint8_t buff[2]`, but `ln_pg_read_byte` transfers two bytes (line 1974) | any call of `long_cnt_int_value_get` or `fsm_start_address_get`: the second read stores one byte past the end of `buff` | a buffer with room for both two-byte transfers | high; not executed | FsmPages.GetterOverruns | FsmPages.WordGetValue |
| sensor/stmemsc/asm330lhb_STdC/driver/asm330lhb_reg.c:366-459 | the MLC check of `xl_data_rate_set` (and of `gy_data_rate_set`) raises the caller's `val`, not the rate the FSM check produced, so its result replaces the FSM adjustment | FSM running at 104 Hz, MLC at 26 Hz, request XL_ODR_OFF: CTRL1_XL gets 26 Hz, below the FSM's floor | raise the FSM-adjusted rate, so the result meets both floors | medium; not executed | Odr.XlMlcReplacesFsm | Odr.XlArbitrateChained |
| sensor/stmemsc/asm330lhb_STdC/driver/asm330lhb_reg.c:5730-5747 | `emb_func_clk_dis_set` reads PAGE_SEL and assigns `page_sel.emb_func_clk_dis`, but never writes the byte back | any `val`: after a successful call PAGE_SEL is unchanged, and `emb_func_clk_dis_get` returns the old field | write the modified PAGE_SEL back before switching to the user bank, so the getter returns the value set | high; not executed | Engines.ClkDisSetWritesNothing | Engines.ClkDisSetFixedThenGet |
