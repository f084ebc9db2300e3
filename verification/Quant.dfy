/**
 The block-quantised weight formats, one element at a time.

 A byte is a number below 256, so a mask is a remainder, a shift a quotient, and an `|` of disjoint
 fields a sum. `Decode` says what number a 16-bit block scale, an 8-bit E8M0 scale and a 32-bit
 bias stand for; every result holds for any reading of them.
 */
module Quant {
  import opened Bytes
  import opened Sums

  datatype Decode = Decode(half: nat -> real, e8m0: nat -> real, float: nat -> real)

  datatype QuantType = Q4K | Q5K | Q6K | Q80 | Mxfp4

  /** 32-element units per block. */
  function UnitsPerBlock(ty: QuantType): (n: nat)
    ensures n == 1 || n == 8
  {
    if ty == Q80 || ty == Mxfp4 then 1 else 8
  }

  /** Byte i of a buffer. */
  function B(w: seq<byte>, i: nat): byte { if i < |w| then w[i] else 0 }

  function At(x: seq<real>, i: nat): real { if i < |x| then x[i] else 0.0 }

  function U16(w: seq<byte>, i: nat): nat { B(w, i) + 256 * B(w, i + 1) }

  function U32(w: seq<byte>, i: nat): nat {
    B(w, i) + 0x100 * B(w, i + 1) + 0x1_0000 * B(w, i + 2) + 0x100_0000 * B(w, i + 3)
  }

  function SByte(b: byte): int { if b < 128 then b else b - 256 }

  /** The 6-bit scale and minimum of sub-block j, from the twelve packed bytes at q. */
  function ScaleMin(w: seq<byte>, q: nat, j: nat): (nat, nat) {
    if j < 4 then (B(w, q + j) % 64, B(w, q + j + 4) % 64)
    else (B(w, q + j + 4) % 16 + B(w, q + j - 4) / 64 * 16, B(w, q + j + 4) / 16 + B(w, q + j) / 64 * 16)
  }

  function Nibble(b: byte, high: bool): nat { if high then b / 16 else b % 16 }

  /** Scale and minimum of a Q4_K or Q5_K sub-block, multiplied out. */
  function KScale(dec: Decode, w: seq<byte>, blk: nat, sub: nat): real {
    Mul(dec.half(U16(w, blk)), ScaleMin(w, blk + 4, sub).0 as real)
  }

  function KMin(dec: Decode, w: seq<byte>, blk: nat, sub: nat): real {
    Mul(dec.half(U16(w, blk + 2)), ScaleMin(w, blk + 4, sub).1 as real)
  }

  function Q4kQuant(w: seq<byte>, blk: nat, sub: nat, l: nat): nat {
    Nibble(B(w, blk + 16 + sub / 2 * 32 + l), sub % 2 == 1)
  }

  function Q4kElem(dec: Decode, w: seq<byte>, blk: nat, i: nat): real {
    Mul(KScale(dec, w, blk, i / 32), Q4kQuant(w, blk, i / 32, i % 32) as real) - KMin(dec, w, blk, i / 32)
  }

  /** `(b >> k) & 1`. */
  function Bit(b: byte, k: nat): nat {
    match k
    case 0 => b % 2
    case 1 => b / 2 % 2
    case 2 => b / 4 % 2
    case 3 => b / 8 % 2
    case 4 => b / 16 % 2
    case 5 => b / 32 % 2
    case 6 => b / 64 % 2
    case _ => b / 128 % 2
  }

  function Q5kQuant(w: seq<byte>, blk: nat, sub: nat, l: nat): nat {
    Nibble(B(w, blk + 48 + sub / 2 * 32 + l), sub % 2 == 1) + 16 * Bit(B(w, blk + 16 + l), 2 * (sub / 2) + sub % 2)
  }

  function Q5kElem(dec: Decode, w: seq<byte>, blk: nat, i: nat): real {
    Mul(KScale(dec, w, blk, i / 32), Q5kQuant(w, blk, i / 32, i % 32) as real) - KMin(dec, w, blk, i / 32)
  }

  /** `(b >> 2k) & 3`. */
  function Pair(b: byte, k: nat): nat {
    match k
    case 0 => b % 4
    case 1 => b / 4 % 4
    case 2 => b / 16 % 4
    case _ => b / 64
  }

  /** The signed quant of Q6_K element l of quarter k of pass n. */
  function Q6kQuant(w: seq<byte>, blk: nat, n: nat, k: nat, l: nat): int {
    Nibble(B(w, blk + n * 64 + k % 2 * 32 + l), k >= 2) + Pair(B(w, blk + 128 + n * 32 + l), k) * 16 - 32
  }

  function Q6kScale(w: seq<byte>, blk: nat, n: nat, k: nat, half: nat): int {
    SByte(B(w, blk + 192 + n * 8 + 2 * k + half))
  }

  function Q6kElem(dec: Decode, w: seq<byte>, blk: nat, i: nat): real {
    var n, k, l := i / 128, i % 128 / 32, i % 32;
    Mul(Mul(dec.half(U16(w, blk + 208)), Q6kScale(w, blk, n, k, l / 16) as real), Q6kQuant(w, blk, n, k, l) as real)
  }

  /** `KVALUES_MXFP4`: the E2M1 values doubled. */
  function E2m1(code: nat): int {
    match code
    case 1 => 1
    case 2 => 2
    case 3 => 3
    case 4 => 4
    case 5 => 6
    case 6 => 8
    case 7 => 12
    case 9 => -1
    case 10 => -2
    case 11 => -3
    case 12 => -4
    case 13 => -6
    case 14 => -8
    case 15 => -12
    case _ => 0
  }

  function Mxfp4Elem(dec: Decode, w: seq<byte>, blk: nat, i: nat): real {
    Mul(E2m1(Nibble(B(w, blk + 1 + i % 16), i >= 16)) as real, dec.e8m0(B(w, blk)))
  }

  function Q80Elem(dec: Decode, w: seq<byte>, blk: nat, i: nat): real {
    Mul(SByte(B(w, blk + 2 + i)) as real, dec.half(U16(w, blk)))
  }

  /** `elem_at`: element i of the block at byte `blk`. */
  function ElemAt(dec: Decode, ty: QuantType, w: seq<byte>, blk: nat, i: nat): real {
    match ty
    case Q4K => Q4kElem(dec, w, blk, i)
    case Q5K => Q5kElem(dec, w, blk, i)
    case Q6K => Q6kElem(dec, w, blk, i)
    case Q80 => Q80Elem(dec, w, blk, i)
    case Mxfp4 => Mxfp4Elem(dec, w, blk, i)
  }

  // ---- the naive products every kernel is measured against ---------------------------------------

  /** Reads an element: (byte offset of its block, index within the block). */
  type Elem = (nat, nat) -> real

  function Elems(dec: Decode, ty: QuantType, w: seq<byte>): Elem {
    (blk: nat, i: nat) => ElemAt(dec, ty, w, blk, i)
  }

  /** Byte offset of block k of a row. */
  function BlockAt(ty: QuantType, k: nat): nat {
    match ty
    case Q4K => k * 144
    case Q5K => k * 176
    case Q6K => k * 210
    case Q80 => k * 34
    case Mxfp4 => k * 17
  }

  /** Which block column i falls in, and where in that block. */
  function Locate(ty: QuantType, i: nat): (nat, nat) {
    if UnitsPerBlock(ty) == 1 then (i / 32, i % 32) else (i / 256, i % 256)
  }

  /** Which block unit u falls in, and where in that block. */
  function LocateUnit(ty: QuantType, u: nat): (nat, nat) {
    if UnitsPerBlock(ty) == 1 then (u, 0) else (u / 8, u % 8)
  }

  /** Column i of the row at byte `row`, dequantised, times its activation. */
  function Term(elem: Elem, ty: QuantType, row: nat, x: seq<real>, xoff: nat, i: nat): real {
    Mul(elem(row + BlockAt(ty, Locate(ty, i).0), Locate(ty, i).1), At(x, xoff + i))
  }

  /** Dequantise every element of the row and accumulate: the reference dot product over n columns. */
  ghost function RowDot(elem: Elem, ty: QuantType, row: nat, x: seq<real>, xoff: nat, n: nat): real {
    Sum(n, (i: nat) => Term(elem, ty, row, x, xoff, i))
  }

  /** Element l of a unit times its activation. */
  function UnitTerm(elem: Elem, blk: nat, sub: nat, x: seq<real>, xoff: nat, l: nat): real {
    Mul(elem(blk, sub * 32 + l), At(x, xoff + l))
  }

  /** The same over one 32-element unit of the block at `blk`. */
  ghost function UnitDot(elem: Elem, blk: nat, sub: nat, x: seq<real>, xoff: nat): real {
    Sum(32, (l: nat) => UnitTerm(elem, blk, sub, x, xoff, l))
  }

  ghost function UnitOf(elem: Elem, ty: QuantType, row: nat, x: seq<real>, xoff: nat, u: nat): real {
    UnitDot(elem, row + BlockAt(ty, LocateUnit(ty, u).0), LocateUnit(ty, u).1, x, xoff + u * 32)
  }

  /** A row is its units: splitting it into 32-element pieces loses and repeats nothing. */
  lemma RowIsUnits(elem: Elem, ty: QuantType, row: nat, x: seq<real>, xoff: nat, units: nat, g: nat -> real)
    requires forall u: nat :: u < units ==> g(u) == UnitOf(elem, ty, row, x, xoff, u)
    ensures RowDot(elem, ty, row, x, xoff, units * 32) == Sum(units, g)
  {
    hide Term, UnitOf, Sum;
    var f := (i: nat) => Term(elem, ty, row, x, xoff, i);
    forall u: nat | u < units ensures g(u) == Sum(32, (l: nat) => f(u * 32 + l)) {
      UnitOfTerms(elem, ty, row, x, xoff, u, (l: nat) => f(u * 32 + l));
    }
    SumBlocks(units, 32, f, g);
    SumCong(units * 32, f, (i: nat) => Term(elem, ty, row, x, xoff, i));
  }

  lemma LocateInUnit(ty: QuantType, u: nat, l: nat)
    requires l < 32
    ensures Locate(ty, u * 32 + l) == (LocateUnit(ty, u).0, LocateUnit(ty, u).1 * 32 + l)
  {
    if UnitsPerBlock(ty) == 1 {
      WholeBlock(u * 32 + l, u, l);
    } else {
      assert u == 8 * (u / 8) + u % 8;
      SuperBlock(u * 32 + l, u / 8, u % 8 * 32 + l);
    }
  }

  lemma WholeBlock(i: nat, q: nat, r: nat)
    requires i == q * 32 + r && r < 32
    ensures i / 32 == q && i % 32 == r
  {
  }

  lemma SuperBlock(i: nat, q: nat, r: nat)
    requires i == q * 256 + r && r < 256
    ensures i / 256 == q && i % 256 == r
  {
  }

  lemma TermInUnit(elem: Elem, ty: QuantType, row: nat, x: seq<real>, xoff: nat, u: nat, l: nat)
    requires l < 32
    ensures Term(elem, ty, row, x, xoff, u * 32 + l)
         == UnitTerm(elem, row + BlockAt(ty, LocateUnit(ty, u).0), LocateUnit(ty, u).1, x, xoff + u * 32, l)
  {
    LocateInUnit(ty, u, l);
    assert xoff + (u * 32 + l) == xoff + u * 32 + l;
  }

  lemma UnitDotIs(elem: Elem, blk: nat, sub: nat, x: seq<real>, xoff: nat, f: nat -> real)
    requires forall l: nat :: l < 32 ==> f(l) == UnitTerm(elem, blk, sub, x, xoff, l)
    ensures UnitDot(elem, blk, sub, x, xoff) == Sum(32, f)
  {
    SumCong(32, f, (l: nat) => UnitTerm(elem, blk, sub, x, xoff, l));
  }

  lemma UnitOfTerms(elem: Elem, ty: QuantType, row: nat, x: seq<real>, xoff: nat, u: nat, f: nat -> real)
    requires forall l: nat :: l < 32 ==> f(l) == Term(elem, ty, row, x, xoff, u * 32 + l)
    ensures UnitOf(elem, ty, row, x, xoff, u) == Sum(32, f)
  {
    hide Term, UnitTerm, UnitDot;
    var (k, sub) := LocateUnit(ty, u);
    var blk, off := row + BlockAt(ty, k), xoff + u * 32;
    forall l: nat | l < 32 ensures f(l) == UnitTerm(elem, blk, sub, x, off, l) {
      TermInUnit(elem, ty, row, x, xoff, u, l);
    }
    UnitDotIs(elem, blk, sub, x, off, f);
  }

  /** The first n units of a row, added one after the other. */
  ghost function UnitsDot(elem: Elem, ty: QuantType, row: nat, x: seq<real>, xoff: nat, n: nat): real {
    if n == 0 then 0.0 else UnitsDot(elem, ty, row, x, xoff, n - 1) + UnitOf(elem, ty, row, x, xoff, n - 1)
  }

  lemma {:induction false} UnitsDotIsSum(elem: Elem, ty: QuantType, row: nat, x: seq<real>, xoff: nat, n: nat, g: nat -> real)
    requires forall u: nat :: u < n ==> g(u) == UnitOf(elem, ty, row, x, xoff, u)
    ensures UnitsDot(elem, ty, row, x, xoff, n) == Sum(n, g)
  {
    hide UnitOf;
    if n > 0 {
      UnitsDotIsSum(elem, ty, row, x, xoff, n - 1, g);
    }
  }

  /** Adding up the units of a row gives the naive dot product over its columns. */
  lemma UnitsDotIsRowDot(elem: Elem, ty: QuantType, row: nat, x: seq<real>, xoff: nat, n: nat)
    ensures UnitsDot(elem, ty, row, x, xoff, n) == RowDot(elem, ty, row, x, xoff, n * 32)
  {
    hide UnitOf, RowDot;
    var g := (u: nat) => UnitOf(elem, ty, row, x, xoff, u);
    UnitsDotIsSum(elem, ty, row, x, xoff, n, g);
    RowIsUnits(elem, ty, row, x, xoff, n, g);
  }

  /** The unit at index k of block b of a row of eight-unit blocks. */
  lemma UnitInBlock(elem: Elem, ty: QuantType, row: nat, x: seq<real>, b: nat, k: nat)
    requires UnitsPerBlock(ty) == 8 && k < 8
    ensures UnitOf(elem, ty, row, x, 0, b * 8 + k) == UnitDot(elem, row + BlockAt(ty, b), k, x, (b * 8 + k) * 32)
  {
    hide UnitDot;
    assert LocateUnit(ty, b * 8 + k) == (b, k);
  }

  /** A whole eight-unit block added to the units before it. */
  lemma BlockOfUnits(elem: Elem, ty: QuantType, row: nat, x: seq<real>, b: nat)
    requires UnitsPerBlock(ty) == 8
    ensures var blk := row + BlockAt(ty, b);
      UnitsDot(elem, ty, row, x, 0, b * 8 + 8) == UnitsDot(elem, ty, row, x, 0, b * 8)
        + UnitDot(elem, blk, 0, x, b * 256) + UnitDot(elem, blk, 1, x, b * 256 + 32)
        + UnitDot(elem, blk, 2, x, b * 256 + 64) + UnitDot(elem, blk, 3, x, b * 256 + 96)
        + UnitDot(elem, blk, 4, x, b * 256 + 128) + UnitDot(elem, blk, 5, x, b * 256 + 160)
        + UnitDot(elem, blk, 6, x, b * 256 + 192) + UnitDot(elem, blk, 7, x, b * 256 + 224)
  {
    hide UnitDot, UnitOf;
    UnitInBlock(elem, ty, row, x, b, 0);
    UnitInBlock(elem, ty, row, x, b, 1);
    UnitInBlock(elem, ty, row, x, b, 2);
    UnitInBlock(elem, ty, row, x, b, 3);
    assert UnitsDot(elem, ty, row, x, 0, b * 8 + 2) == UnitsDot(elem, ty, row, x, 0, b * 8 + 1) + UnitOf(elem, ty, row, x, 0, b * 8 + 1);
    assert UnitsDot(elem, ty, row, x, 0, b * 8 + 4) == UnitsDot(elem, ty, row, x, 0, b * 8 + 3) + UnitOf(elem, ty, row, x, 0, b * 8 + 3);
    UnitInBlock(elem, ty, row, x, b, 4);
    UnitInBlock(elem, ty, row, x, b, 5);
    UnitInBlock(elem, ty, row, x, b, 6);
    UnitInBlock(elem, ty, row, x, b, 7);
    assert UnitsDot(elem, ty, row, x, 0, b * 8 + 6) == UnitsDot(elem, ty, row, x, 0, b * 8 + 5) + UnitOf(elem, ty, row, x, 0, b * 8 + 5);
  }
}
