// Register bitfields of the ASM330LHB driver.
//
// Every register of the device is one byte. The driver reads a register into
// a C struct of bitfields, assigns some of the fields and writes the byte back;
// a getter reads the byte and copies one field out. Here a field is described
// by the bits it covers (`mask`) and the position of its lowest bit (`shift`);
// the concrete masks come from the driver's header and are parameters of the
// model (see module Layout).

module Bits {

  /** A bitfield of a one-byte register: the bits `mask` covers, lowest at `shift`. */
  datatype Field = Field(mask: bv8, shift: bv8)

  /** The field's all-ones value, right-aligned: 0x07 for a 3-bit field. */
  function Ones(f: Field): bv8
    requires f.shift < 8
  {
    f.mask >> f.shift
  }

  /** A field is a non-empty run of contiguous bits starting at `shift`. */
  predicate WellFormed(f: Field)
  {
    f.shift < 8 && f.mask != 0 && Ones(f) << f.shift == f.mask && Ones(f) & (Ones(f) + 1) == 0
  }

  /** `v` is representable in the field without losing bits. */
  predicate Fits(f: Field, v: bv8)
    requires f.shift < 8
  {
    v & !Ones(f) == 0
  }

  /** What C keeps when a uint8_t is assigned to a bitfield: its low bits. */
  function Trunc(f: Field, v: bv8): (r: bv8)
    requires WellFormed(f)
    ensures Fits(f, r)
    ensures Fits(f, v) <==> r == v
  {
    v & Ones(f)
  }

  /** Reading a field out of a register byte (`reg.field` in the driver). */
  function Get(b: bv8, f: Field): (r: bv8)
    requires WellFormed(f)
  {
    (b & f.mask) >> f.shift
  }

  /** A field's value fits the field and, shifted back, is the byte's bits under the mask. */
  lemma GetFits(b: bv8, f: Field)
    requires WellFormed(f)
    ensures Fits(f, Get(b, f))
    ensures b & f.mask == Get(b, f) << f.shift
  {
  }

  /** Assigning a field of a register byte (`reg.field = (uint8_t)v`). */
  function Set(b: bv8, f: Field, v: bv8): (r: bv8)
    requires WellFormed(f)
    ensures Get(r, f) == Trunc(f, v)
    ensures r & !f.mask == b & !f.mask
  {
    ShiftMask(v, f);
    (b & !f.mask) | ((v << f.shift) & f.mask)
  }

  /** Shifting a value into a field keeps exactly its low bits. */
  lemma ShiftMask(v: bv8, f: Field)
    requires WellFormed(f)
    ensures (v << f.shift) & f.mask == (v & Ones(f)) << f.shift
    ensures ((v & Ones(f)) << f.shift) >> f.shift == v & Ones(f)
  {
    var s := f.shift;
    if s == 0 {
    } else if s == 1 {
    } else if s == 2 {
    } else if s == 3 {
    } else if s == 4 {
    } else if s == 5 {
    } else if s == 6 {
    } else {
      assert s == 7;
    }
  }

  /** One field assignment of a read-modify-write. */
  datatype Update = Update(f: Field, v: bv8)

  predicate AllWellFormed(ups: seq<Update>)
  {
    forall i :: 0 <= i < |ups| ==> WellFormed(ups[i].f)
  }

  /** The assigned fields do not share bits. */
  predicate Disjoint(ups: seq<Update>)
  {
    forall i, j :: 0 <= i < j < |ups| ==> ups[i].f.mask & ups[j].f.mask == 0
  }

  /** Three assignments to pairwise disjoint fields are disjoint. */
  lemma Disjoint3(u0: Update, u1: Update, u2: Update)
    requires u0.f.mask & u1.f.mask == 0 && u0.f.mask & u2.f.mask == 0 && u1.f.mask & u2.f.mask == 0
    ensures Disjoint([u0, u1, u2])
  {
    var ups := [u0, u1, u2];
    forall i, j | 0 <= i < j < 3 ensures ups[i].f.mask & ups[j].f.mask == 0 {
      if i == 0 && j == 1 {
      } else if i == 0 {
        assert j == 2;
      } else {
        assert i == 1 && j == 2;
      }
    }
  }

  /** The union of the bits that the assignments cover. */
  function Covered(ups: seq<Update>): bv8
  {
    if ups == [] then 0 else ups[0].f.mask | Covered(ups[1..])
  }

  /** The assignments applied in order to one register byte. */
  function Overlay(b: bv8, ups: seq<Update>): (r: bv8)
    requires AllWellFormed(ups)
    ensures r & !Covered(ups) == b & !Covered(ups)
    decreases |ups|
  {
    if ups == [] then b else Overlay(Set(b, ups[0].f, ups[0].v), ups[1..])
  }

  /** After an overlay of disjoint fields, every field holds its assigned value. */
  lemma {:induction false} OverlayGet(b: bv8, ups: seq<Update>, k: nat)
    requires AllWellFormed(ups) && Disjoint(ups) && k < |ups|
    ensures Get(Overlay(b, ups), ups[k].f) == Trunc(ups[k].f, ups[k].v)
    decreases |ups|
  {
    TailDisjoint(ups);
    var b1 := Set(b, ups[0].f, ups[0].v);
    if k == 0 {
      OverlayKeepsFirst(b, ups);
    } else {
      OverlayGet(b1, ups[1..], k - 1);
      assert ups[1..][k - 1] == ups[k];
    }
  }

  /** The assignments after the first keep its well-formedness and disjointness. */
  lemma TailDisjoint(ups: seq<Update>)
    requires AllWellFormed(ups) && Disjoint(ups) && ups != []
    ensures AllWellFormed(ups[1..]) && Disjoint(ups[1..])
  {
    var rest := ups[1..];
    forall i | 0 <= i < |rest| ensures WellFormed(rest[i].f) { assert rest[i] == ups[i + 1]; }
    forall i, j | 0 <= i < j < |rest| ensures rest[i].f.mask & rest[j].f.mask == 0 {
      assert rest[i] == ups[i + 1] && rest[j] == ups[j + 1];
    }
  }

  /** The later assignments of an overlay leave the first field alone. */
  lemma OverlayKeepsFirst(b: bv8, ups: seq<Update>)
    requires AllWellFormed(ups) && Disjoint(ups) && ups != []
    ensures Get(Overlay(b, ups), ups[0].f) == Trunc(ups[0].f, ups[0].v)
  {
    var rest := ups[1..];
    TailDisjoint(ups);
    forall i | 0 <= i < |rest| ensures ups[0].f.mask & rest[i].f.mask == 0 {
      assert rest[i] == ups[i + 1];
    }
    CoveredDisjoint(ups[0].f.mask, rest);
    var b1 := Set(b, ups[0].f, ups[0].v);
    var r := Overlay(b1, rest);
    AgreeOutside(r, b1, Covered(rest), ups[0].f.mask);
    GetSameBits(r, b1, ups[0].f);
  }

  /** Bytes that agree outside `c` agree on any mask disjoint from `c`. */
  lemma AgreeOutside(x: bv8, y: bv8, c: bv8, m: bv8)
    requires x & !c == y & !c && m & c == 0
    ensures x & m == y & m
  {
  }

  /** A field's value depends only on the bits the field covers. */
  lemma GetSameBits(x: bv8, y: bv8, f: Field)
    requires WellFormed(f) && x & f.mask == y & f.mask
    ensures Get(x, f) == Get(y, f)
  {
  }

  /** A mask disjoint from every assigned field is disjoint from their union. */
  lemma {:induction false} CoveredDisjoint(m: bv8, ups: seq<Update>)
    requires forall i :: 0 <= i < |ups| ==> m & ups[i].f.mask == 0
    ensures m & Covered(ups) == 0
    decreases |ups|
  {
    if ups != [] {
      CoveredDisjoint(m, ups[1..]);
    }
  }

  /**
   * How a getter maps the raw field value to the C enumerator it returns:
   * `Raw` copies it (a uint8_t getter); `Table` is the switch of an enum
   * getter, with the defined raw codes and the enumerator of its default branch.
   */
  datatype Decoder = Raw | Table(codes: seq<bv8>, default: bv8)

  function Decode(d: Decoder, raw: bv8): (r: bv8)
    ensures d.Raw? ==> r == raw
    ensures d.Table? ==> r == (if raw in d.codes then raw else d.default)
  {
    match d
    case Raw => raw
    case Table(codes, default) => if raw in codes then raw else default
  }

  /** Any bit of the group `g` is set in `b`: the OR of several one-bit fields. */
  predicate AnySet(b: bv8, g: bv8)
  {
    b & g != 0
  }

  /** The high byte of a uint16_t, `(uint8_t)(v / 256)`. */
  function Hi(v: bv16): bv8
  {
    (v >> 8) as bv8
  }

  /** The low byte of a uint16_t. */
  function Lo(v: bv16): bv8
  {
    (v & 0xFF) as bv8
  }

  /** `hi * 256 + lo` in uint16_t arithmetic. */
  function Word(hi: bv8, lo: bv8): (r: bv16)
    ensures Hi(r) == hi && Lo(r) == lo
  {
    ((hi as bv16) << 8) | (lo as bv16)
  }

  lemma WordOfBytes(v: bv16)
    ensures Word(Hi(v), Lo(v)) == v
  {
  }

  /** Word is the driver's `hi * 256U + lo`: the shifted high byte leaves no carry. */
  lemma WordIsSum(hi: bv8, lo: bv8)
    ensures Word(hi, lo) == (hi as bv16) * 256 + lo as bv16
  {
  }

  /**
   * The driver's split of a uint16_t `v` into `hi = (v / 256) & m` and
   * `lo = (uint8_t)(v - hi * 256)`: the low part is the low byte whatever
   * the mask.
   */
  lemma SplitAsC(v: bv16, m: bv8)
    ensures Hi(v) & m == ((v / 256) as bv8) & m
    ensures Lo(v) == ((v - ((Hi(v) & m) as bv16) * 256) & 0xFF) as bv8
  {
  }
}
