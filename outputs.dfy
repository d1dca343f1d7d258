// The raw output getters: one burst read of the output registers in the
// selected bank, reassembled little-endian by the functions of Samples. The
// assembly is applied whatever the read returned; only a successful read's
// bytes are the registers' contents as far as any caller may rely on.

module Outputs {
  import opened Layout
  import opened Bus
  import opened Samples

  /** The unsigned values of a run of register bytes. */
  function Unsigned(s: seq<bv8>): (r: seq<byte>)
    ensures |r| == |s| && forall i :: 0 <= i < |s| ==> r[i] == s[i] as int
  {
    seq(|s|, i requires 0 <= i < |s| => s[i] as int)
  }

  /** The bytes of register file `b` from the address of `reg`. */
  function OutBytes(e: Env, c: Chip, reg: RegName, n: nat): seq<byte>
    requires Coherent(e, c) && Fit(e.lay, reg, n)
  {
    Unsigned(File(c, c.bank)[Addr(e, reg)..Addr(e, reg) + n])
  }

  /** asm330lhb_timestamp_raw_get: TIMESTAMP0..3 in one read, as an unsigned 32-bit value. */
  function TimestampRawGet(e: Env, c: Chip): (r: Res<nat>)
    requires Coherent(e, c) && Fit(e.lay, Timestamp0, 4)
    ensures Coherent(e, r.c)
  {
    var rd := ReadReg(e, c, Addr(e, Timestamp0), 4);
    Res(rd.c, rd.st, Timestamp(Unsigned(rd.v)))
  }

  /** asm330lhb_temperature_raw_get: OUT_TEMP_L and OUT_TEMP_H as one int16. */
  function TemperatureRawGet(e: Env, c: Chip): (r: Res<int>)
    requires Coherent(e, c) && Fit(e.lay, OutTempL, 2)
    ensures Coherent(e, r.c)
  {
    var rd := ReadReg(e, c, Addr(e, OutTempL), 2);
    Res(rd.c, rd.st, Int16(rd.v[0] as int, rd.v[1] as int))
  }

  /** The three axes of a six-byte read from `reg`. */
  function AxesRawGet(e: Env, c: Chip, reg: RegName): (r: Res<Axes>)
    requires Coherent(e, c) && Fit(e.lay, reg, 6)
    ensures Coherent(e, r.c)
  {
    var rd := ReadReg(e, c, Addr(e, reg), 6);
    Res(rd.c, rd.st, AxesOf(Unsigned(rd.v)))
  }

  /** asm330lhb_angular_rate_raw_get: OUTX_L_G .. OUTZ_H_G. */
  function AngularRateRawGet(e: Env, c: Chip): (r: Res<Axes>)
    requires Coherent(e, c) && Fit(e.lay, OutxLG, 6)
    ensures Coherent(e, r.c)
  {
    AxesRawGet(e, c, OutxLG)
  }

  /** asm330lhb_acceleration_raw_get: OUTX_L_A .. OUTZ_H_A. */
  function AccelerationRawGet(e: Env, c: Chip): (r: Res<Axes>)
    requires Coherent(e, c) && Fit(e.lay, OutxLA, 6)
    ensures Coherent(e, r.c)
  {
    AxesRawGet(e, c, OutxLA)
  }

  /** A getter is one read of its registers in the selected bank and changes no register. */
  predicate OneRead(e: Env, c: Chip, c1: Chip, st: int, reg: RegName, n: nat)
    requires |c.log| <= |c1.log|
  {
    && Delta(c, c1) == [Rd(c.bank, Addr(e, reg), n, st)]
    && c1.bank == c.bank && c1.user == c.user && c1.emb == c.emb
  }

  /** The timestamp getter reads four bytes and, on success, the value it returns splits back into exactly those bytes. */
  lemma TimestampRawGetEffect(e: Env, c: Chip)
    requires Coherent(e, c) && Fit(e.lay, Timestamp0, 4)
    ensures var r := TimestampRawGet(e, c);
      && Extends(c, r.c) && OneRead(e, c, r.c, r.st, Timestamp0, 4)
      && r.v < 0x1_0000_0000
      && (r.st == 0 ==> TimestampBytes(r.v) == OutBytes(e, c, Timestamp0, 4))
  {
    var rd := ReadReg(e, c, Addr(e, Timestamp0), 4);
    ReadRegConfined(e, c, Addr(e, Timestamp0), 4);
    assert Unsigned(rd.v) == OutBytes(e, c, Timestamp0, 4);
    BytesOfTimestamp(Unsigned(rd.v));
  }

  /** The temperature getter reads two bytes and, on success, returns the int16 whose two's-complement bytes they are. */
  lemma TemperatureRawGetEffect(e: Env, c: Chip)
    requires Coherent(e, c) && Fit(e.lay, OutTempL, 2)
    ensures var r := TemperatureRawGet(e, c); var b := OutBytes(e, c, OutTempL, 2);
      && Extends(c, r.c) && OneRead(e, c, r.c, r.st, OutTempL, 2)
      && -0x8000 <= r.v < 0x8000
      && (r.st == 0 ==> Int16Bytes(r.v) == (b[0], b[1]))
  {
    var rd := ReadReg(e, c, Addr(e, OutTempL), 2);
    ReadRegConfined(e, c, Addr(e, OutTempL), 2);
    BytesOfInt16(rd.v[0] as int, rd.v[1] as int);
  }

  /** A three-axis getter reads six bytes and, on success, the sample it returns encodes back into exactly those bytes. */
  lemma AxesRawGetEffect(e: Env, c: Chip, reg: RegName)
    requires Coherent(e, c) && Fit(e.lay, reg, 6)
    ensures var r := AxesRawGet(e, c, reg);
      && Extends(c, r.c) && OneRead(e, c, r.c, r.st, reg, 6)
      && InRange(r.v)
      && (r.st == 0 ==> AxesBytes(r.v) == OutBytes(e, c, reg, 6))
  {
    var rd := ReadReg(e, c, Addr(e, reg), 6);
    ReadRegConfined(e, c, Addr(e, reg), 6);
    assert Unsigned(rd.v) == OutBytes(e, c, reg, 6);
    AxesRoundTrip(Unsigned(rd.v));
  }
}
