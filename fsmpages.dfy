// The 16-bit FSM parameters the driver keeps in the paged memory: the long
// counter timeout, the number of FSM programs and the FSM start address, each
// reached one line at a time through the single-byte paging functions.

module FsmPages {
  import opened Bits
  import opened Layout
  import opened Bus
  import opened Paging

  /** The driver's split of a uint16_t: `buff[1] = val / 256` and `buff[0] = val - buff[1] * 256`, as (buff[0], buff[1]). */
  function Halves(val: bv16): (bv8, bv8)
  {
    var hi := (val / 256) as bv8;
    (((val - (hi as bv16) * 256) & 0xFF) as bv8, hi)
  }

  /** The split gives the low and the high byte, which rejoin to the value. */
  lemma HalvesJoin(val: bv16)
    ensures Halves(val) == (Lo(val), Hi(val)) && Word(Halves(val).1, Halves(val).0) == val
  {
    SplitAsC(val, 0xFF);
    WordOfBytes(val);
  }

  /** Two single-byte writes, the second only after the first succeeded. */
  function TwoWrites(e: Env, c: Chip, a1: bv16, b1: bv8, a2: bv16, b2: bv8): (r: Res<()>)
    requires Coherent(e, c) && Fields(e.lay) && Fit(e.lay, PageValue, 2)
    ensures Coherent(e, r.c)
  {
    var w1 := LnPgWriteByte(e, c, a1, b1);
    if w1.st != 0 then w1 else LnPgWriteByte(e, w1.c, a2, b2)
  }

  /** A 16-bit setter: the low byte to line `al`, then the high byte to line `ah`. */
  function WordSet(e: Env, c: Chip, al: bv16, ah: bv16, val: bv16): (r: Res<()>)
    requires Coherent(e, c) && Fields(e.lay) && Fit(e.lay, PageValue, 2)
    ensures Coherent(e, r.c)
  {
    var h := Halves(val);
    TwoWrites(e, c, al, h.0, ah, h.1)
  }

  /** asm330lhb_long_cnt_int_value_set */
  function LongCntIntValueSet(e: Env, c: Chip, val: bv16): (r: Res<()>)
    requires Coherent(e, c) && Fields(e.lay) && Fit(e.lay, PageValue, 2)
    ensures Coherent(e, r.c)
  {
    WordSet(e, c, e.lay.page(LcTimeoutL), e.lay.page(LcTimeoutH), val)
  }

  /** asm330lhb_fsm_start_address_set */
  function FsmStartAddressSet(e: Env, c: Chip, val: bv16): (r: Res<()>)
    requires Coherent(e, c) && Fields(e.lay) && Fit(e.lay, PageValue, 2)
    ensures Coherent(e, r.c)
  {
    WordSet(e, c, e.lay.page(StartAddL), e.lay.page(StartAddH), val)
  }

  /** The paging operations of two successful single-byte writes. */
  function TwoWritten(e: Env, a1: bv16, b1: bv8, a2: bv16, b2: bv8): seq<PageOp>
    requires Fields(e.lay)
  {
    ByteWritten(e, a1, b1) + ByteWritten(e, a2, b2)
  }

  /**
   * Two single-byte writes, the second only after the first succeeded:
   * when both succeed the log holds both complete paging sequences and the
   * user bank is selected; otherwise a strict prefix of them.
   */
  lemma TwoWritesProtocol(e: Env, c: Chip, a1: bv16, b1: bv8, a2: bv16, b2: bv8)
    requires Coherent(e, c) && Fields(e.lay) && PagingLayout(e.lay)
    ensures var r := TwoWrites(e, c, a1, b1, a2, b2);
      && Extends(c, r.c)
      && var t := Trace(e, Delta(c, r.c));
      && (r.st == 0 ==> t == TwoWritten(e, a1, b1, a2, b2) && r.c.bank == User)
      && (r.st != 0 ==> t < TwoWritten(e, a1, b1, a2, b2))
  {
    var w1 := LnPgWriteByte(e, c, a1, b1);
    LnPgWriteByteProtocol(e, c, a1, b1);
    if w1.st == 0 {
      var w2 := LnPgWriteByte(e, w1.c, a2, b2);
      LnPgWriteByteProtocol(e, w1.c, a2, b2);
      Link(e, c, w1.c, w2.c);
    }
  }

  /**
   * A 16-bit setter commits the paging sequence of the low byte to `al` and,
   * after it, that of the high byte to `ah`; the two bytes rejoin to `val`.
   */
  lemma WordSetProtocol(e: Env, c: Chip, al: bv16, ah: bv16, val: bv16)
    requires Coherent(e, c) && Fields(e.lay) && PagingLayout(e.lay)
    ensures var r := WordSet(e, c, al, ah, val);
      && Extends(c, r.c)
      && var t := Trace(e, Delta(c, r.c));
      && (r.st == 0 ==> t == TwoWritten(e, al, Lo(val), ah, Hi(val)) && r.c.bank == User)
      && (r.st != 0 ==> t < TwoWritten(e, al, Lo(val), ah, Hi(val)))
  {
    HalvesJoin(val);
    TwoWritesProtocol(e, c, al, Lo(val), ah, Hi(val));
  }

  /** asm330lhb_long_cnt_int_value_set writes the low byte to FSM_LC_TIMEOUT_L and then the high byte to FSM_LC_TIMEOUT_H. */
  lemma LongCntIntValueSetProtocol(e: Env, c: Chip, val: bv16)
    requires Coherent(e, c) && Fields(e.lay) && PagingLayout(e.lay)
    ensures var r := LongCntIntValueSet(e, c, val);
      var p := TwoWritten(e, e.lay.page(LcTimeoutL), Lo(val), e.lay.page(LcTimeoutH), Hi(val));
      && Extends(c, r.c)
      && (r.st == 0 ==> Trace(e, Delta(c, r.c)) == p && r.c.bank == User)
      && (r.st != 0 ==> Trace(e, Delta(c, r.c)) < p)
  {
    WordSetProtocol(e, c, e.lay.page(LcTimeoutL), e.lay.page(LcTimeoutH), val);
  }

  /** asm330lhb_fsm_start_address_set writes the low byte to FSM_START_ADD_L and then the high byte to FSM_START_ADD_H. */
  lemma FsmStartAddressSetProtocol(e: Env, c: Chip, val: bv16)
    requires Coherent(e, c) && Fields(e.lay) && PagingLayout(e.lay)
    ensures var r := FsmStartAddressSet(e, c, val);
      var p := TwoWritten(e, e.lay.page(StartAddL), Lo(val), e.lay.page(StartAddH), Hi(val));
      && Extends(c, r.c)
      && (r.st == 0 ==> Trace(e, Delta(c, r.c)) == p && r.c.bank == User)
      && (r.st != 0 ==> Trace(e, Delta(c, r.c)) < p)
  {
    WordSetProtocol(e, c, e.lay.page(StartAddL), e.lay.page(StartAddH), val);
  }

  /** asm330lhb_fsm_number_of_programs_set: the same byte to FSM_PROGRAMS and to the line after it. */
  function FsmNumberOfProgramsSet(e: Env, c: Chip, b: bv8): (r: Res<()>)
    requires Coherent(e, c) && Fields(e.lay) && Fit(e.lay, PageValue, 2)
    ensures Coherent(e, r.c)
  {
    var p := e.lay.page(FsmPrograms);
    TwoWrites(e, c, p, b, p + 1, b)
  }

  /** asm330lhb_fsm_number_of_programs_set writes its byte to both lines, the second only after the first succeeded. */
  lemma FsmNumberOfProgramsSetProtocol(e: Env, c: Chip, b: bv8)
    requires Coherent(e, c) && Fields(e.lay) && PagingLayout(e.lay)
    ensures var r := FsmNumberOfProgramsSet(e, c, b);
      var q := e.lay.page(FsmPrograms);
      && Extends(c, r.c)
      && (r.st == 0 ==> Trace(e, Delta(c, r.c)) == TwoWritten(e, q, b, q + 1, b) && r.c.bank == User)
      && (r.st != 0 ==> Trace(e, Delta(c, r.c)) < TwoWritten(e, q, b, q + 1, b))
  {
    SameByteTwice(e, c, b, e.lay.page(FsmPrograms), e.lay.page(FsmPrograms) + 1);
  }

  /** The same as FsmNumberOfProgramsSetProtocol, with both line addresses named. */
  lemma SameByteTwice(e: Env, c: Chip, b: bv8, q: bv16, q1: bv16)
    requires Coherent(e, c) && Fields(e.lay) && PagingLayout(e.lay)
    requires q == e.lay.page(FsmPrograms) && q1 == q + 1
    ensures var r := FsmNumberOfProgramsSet(e, c, b);
      && Extends(c, r.c)
      && (r.st == 0 ==> Trace(e, Delta(c, r.c)) == TwoWritten(e, q, b, q1, b) && r.c.bank == User)
      && (r.st != 0 ==> Trace(e, Delta(c, r.c)) < TwoWritten(e, q, b, q1, b))
  {
    assert FsmNumberOfProgramsSet(e, c, b) == TwoWrites(e, c, q, b, q1, b);
    TwoWritesProtocol(e, c, q, b, q1, b);
  }

  /** asm330lhb_fsm_number_of_programs_get: the two-byte read of FSM_PROGRAMS into the caller's buffer. */
  function FsmNumberOfProgramsGet(e: Env, c: Chip, dst: seq<bv8>): (r: Res<seq<bv8>>)
    requires Coherent(e, c) && Fields(e.lay) && Fit(e.lay, PageValue, 2) && Room(|dst|, 0)
    ensures Coherent(e, r.c) && |r.v| == |dst|
  {
    LnPgReadByte(e, c, e.lay.page(FsmPrograms), dst, 0)
  }

  /** asm330lhb_fsm_number_of_programs_get commits the read sequence of FSM_PROGRAMS and changes only the first two bytes of the buffer. */
  lemma FsmNumberOfProgramsGetProtocol(e: Env, c: Chip, dst: seq<bv8>)
    requires Coherent(e, c) && Fields(e.lay) && PagingLayout(e.lay) && Room(|dst|, 0)
    ensures var r := FsmNumberOfProgramsGet(e, c, dst);
      && Extends(c, r.c)
      && (r.st == 0 ==> Trace(e, Delta(c, r.c)) == ByteRead(e, e.lay.page(FsmPrograms)) && r.c.bank == User)
      && (r.st != 0 ==> Trace(e, Delta(c, r.c)) < ByteRead(e, e.lay.page(FsmPrograms)))
      && r.v[2..] == dst[2..]
  {
    LnPgReadByteProtocol(e, c, e.lay.page(FsmPrograms), dst, 0);
    var r := FsmNumberOfProgramsGet(e, c, dst);
    assert forall j :: 2 <= j < |dst| ==> r.v[j] == dst[j];
  }

  // ---------------------------------------------------------------------
  // The 16-bit getters

  /**
   * As written, a 16-bit getter passes its 2-byte `buff` to two reads, at
   * offsets 0 and 1. Each read transfers two bytes, so LnPgReadByte's
   * precondition holds for the first and fails for the second, whose
   * second byte would land one past the end of the array.
   */
  lemma GetterOverruns(buff: seq<bv8>)
    requires |buff| == 2
    ensures Room(|buff|, 0)
    ensures !Room(|buff|, 1)
  {
  }

  /**
   * A 16-bit getter with a buffer that has room for both reads: the low
   * line to `buff[0]`, then, if that succeeded, the high line to `buff[1]`;
   * the value is `buff[1] * 256 + buff[0]`, assigned after the second read
   * whatever its status, and 0 when the first read failed.
   */
  function WordGet(e: Env, c: Chip, al: bv16, ah: bv16): (r: Res<bv16>)
    requires Coherent(e, c) && Fields(e.lay) && Fit(e.lay, PageValue, 2)
    ensures Coherent(e, r.c)
  {
    var r1 := LnPgReadByte(e, c, al, [0, 0, 0], 0);
    if r1.st != 0 then Res(r1.c, r1.st, 0) else
    var r2 := LnPgReadByte(e, r1.c, ah, r1.v, 1);
    Res(r2.c, r2.st, Word(r2.v[1], r2.v[0]))
  }

  /** asm330lhb_long_cnt_int_value_get, with room for both reads. */
  function LongCntIntValueGet(e: Env, c: Chip): (r: Res<bv16>)
    requires Coherent(e, c) && Fields(e.lay) && Fit(e.lay, PageValue, 2)
    ensures Coherent(e, r.c)
  {
    WordGet(e, c, e.lay.page(LcTimeoutL), e.lay.page(LcTimeoutH))
  }

  /** asm330lhb_fsm_start_address_get, with room for both reads. */
  function FsmStartAddressGet(e: Env, c: Chip): (r: Res<bv16>)
    requires Coherent(e, c) && Fields(e.lay) && Fit(e.lay, PageValue, 2)
    ensures Coherent(e, r.c)
  {
    WordGet(e, c, e.lay.page(StartAddL), e.lay.page(StartAddH))
  }

  /** The paging operations of two successful single-byte reads. */
  function TwoRead(e: Env, a1: bv16, a2: bv16): seq<PageOp>
    requires Fields(e.lay)
  {
    ByteRead(e, a1) + ByteRead(e, a2)
  }

  /** A 16-bit getter commits the read sequence of the low line and then that of the high line. */
  lemma WordGetProtocol(e: Env, c: Chip, al: bv16, ah: bv16)
    requires Coherent(e, c) && Fields(e.lay) && PagingLayout(e.lay)
    ensures var r := WordGet(e, c, al, ah);
      && Extends(c, r.c)
      && var t := Trace(e, Delta(c, r.c));
      && (r.st == 0 ==> t == TwoRead(e, al, ah) && r.c.bank == User)
      && (r.st != 0 ==> t < TwoRead(e, al, ah))
  {
    var r1 := LnPgReadByte(e, c, al, [0, 0, 0], 0);
    LnPgReadByteProtocol(e, c, al, [0, 0, 0], 0);
    if r1.st == 0 {
      var r2 := LnPgReadByte(e, r1.c, ah, r1.v, 1);
      LnPgReadByteProtocol(e, r1.c, ah, r1.v, 1);
      Link(e, c, r1.c, r2.c);
    }
  }

  /**
   * Where in the buffer a read lands does not change what it reads: a
   * 16-bit getter ends as two reads into fresh 2-byte buffers would, and on
   * success its value is the high line's byte times 256 plus the low line's.
   */
  lemma WordGetValue(e: Env, c: Chip, al: bv16, ah: bv16)
    requires Coherent(e, c) && Fields(e.lay) && PagingLayout(e.lay)
    ensures var r := WordGet(e, c, al, ah);
      var l := LnPgReadByte(e, c, al, [0, 0], 0);
      && (l.st != 0 ==> r.c == l.c && r.st == l.st)
      && (l.st == 0 ==>
            var h := LnPgReadByte(e, l.c, ah, [0, 0], 0);
            r.c == h.c && r.st == h.st && (r.st == 0 ==> r.v == Word(h.v[0], l.v[0])))
  {
    var loc := Locals(0, []);
    var s1 := Run(e, c, loc, Session(LineBody(e, 1, al, FetchValue)));
    var r1 := LnPgReadByte(e, c, al, [0, 0, 0], 0);
    if r1.st == 0 {
      var s2 := Run(e, s1.c, loc, Session(LineBody(e, 1, ah, FetchValue)));
      ReadSequenceFetches(e, c, al);
      ReadSequenceFetches(e, s1.c, ah);
    }
  }

  /** A successful read sequence fetched two bytes. */
  lemma ReadSequenceFetches(e: Env, c: Chip, add: bv16)
    requires Coherent(e, c) && Fields(e.lay) && PagingLayout(e.lay)
    ensures var s := Run(e, c, Locals(0, []), Session(LineBody(e, 1, add, FetchValue)));
      s.st == 0 ==> |s.v.fetched| == 2
  {
    var o := [SetMode(1), SetPage(Hi(add) & 0x0F, true), SetOffset(PageOffset(e, add))];
    var b := [SetMode(0), Switch(User)];
    assert Session(LineBody(e, 1, add, FetchValue)) == ([Switch(Embedded)] + o) + ([FetchValue] + b);
    FetchedTwo(e, c, Locals(0, []), [Switch(Embedded)] + o, b);
  }
}
