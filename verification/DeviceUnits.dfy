/** The device's hoisted accumulation over one 32-element unit, against one dequantised element at a time. */
module DeviceUnits {
  import opened Bytes
  import opened Sums
  import opened Quant

  /** Elements lo..hi of a unit, each dequantised, times their activations. */
  ghost function UnitRange(elem: Elem, blk: nat, sub: nat, x: seq<real>, xoff: nat, lo: nat, hi: nat): real
    requires lo <= hi
    decreases hi - lo, 0
  {
    if lo == hi then 0.0 else UnitRange(elem, blk, sub, x, xoff, lo, hi - 1) + UnitTerm(elem, blk, sub, x, xoff, hi - 1)
  }

  lemma {:induction false} RangeIsSum(elem: Elem, blk: nat, sub: nat, x: seq<real>, xoff: nat, n: nat, f: nat -> real)
    requires forall l: nat :: l < n ==> f(l) == UnitTerm(elem, blk, sub, x, xoff, l)
    ensures UnitRange(elem, blk, sub, x, xoff, 0, n) == Sum(n, f)
  {
    hide UnitTerm;
    if n > 0 {
      RangeIsSum(elem, blk, sub, x, xoff, n - 1, f);
    }
  }

  lemma {:induction false} RangeSplit(elem: Elem, blk: nat, sub: nat, x: seq<real>, xoff: nat, lo: nat, mid: nat, hi: nat)
    requires lo <= mid <= hi
    ensures UnitRange(elem, blk, sub, x, xoff, lo, hi)
      == UnitRange(elem, blk, sub, x, xoff, lo, mid) + UnitRange(elem, blk, sub, x, xoff, mid, hi)
    decreases hi - mid
  {
    hide UnitTerm;
    if mid < hi {
      RangeSplit(elem, blk, sub, x, xoff, lo, mid, hi - 1);
    }
  }

  lemma WholeUnit(elem: Elem, blk: nat, sub: nat, x: seq<real>, xoff: nat)
    ensures UnitRange(elem, blk, sub, x, xoff, 0, 32) == UnitDot(elem, blk, sub, x, xoff)
  {
    hide *;
    var f := (l: nat) => UnitTerm(elem, blk, sub, x, xoff, l);
    RangeIsSum(elem, blk, sub, x, xoff, 32, f);
    UnitDotIs(elem, blk, sub, x, xoff, f);
  }

  // ---- one element, in a unit's terms ------------------------------------------------------------

  lemma UnitIndex(sub: nat, l: nat)
    requires l < 32
    ensures (sub * 32 + l) / 32 == sub && (sub * 32 + l) % 32 == l
  {
  }

  lemma QuarterIndex(sub: nat, l: nat)
    requires l < 32
    ensures (sub * 32 + l) / 128 == sub / 4 && (sub * 32 + l) % 128 / 32 == sub % 4 && (sub * 32 + l) % 32 == l
  {
    assert sub == 4 * (sub / 4) + sub % 4;
  }

  lemma Q4kAt(dec: Decode, w: seq<byte>, blk: nat, sub: nat, l: nat)
    requires l < 32
    ensures ElemAt(dec, Q4K, w, blk, sub * 32 + l)
      == Mul(KScale(dec, w, blk, sub), Nibble(B(w, blk + 16 + sub / 2 * 32 + l), sub % 2 == 1) as real)
      - KMin(dec, w, blk, sub)
  {
    hide KScale, KMin, Nibble, B, Mul;
    UnitIndex(sub, l);
  }

  /** The fifth bit of a Q5_K quant is bit `sub`: 2 * (sub / 2) + sub % 2 is `sub` itself. */
  lemma Q5kAt(dec: Decode, w: seq<byte>, blk: nat, sub: nat, l: nat)
    requires l < 32
    ensures ElemAt(dec, Q5K, w, blk, sub * 32 + l)
      == Mul(KScale(dec, w, blk, sub),
             (Nibble(B(w, blk + 48 + sub / 2 * 32 + l), sub % 2 == 1) + 16 * Bit(B(w, blk + 16 + l), sub)) as real)
      - KMin(dec, w, blk, sub)
  {
    hide KScale, KMin, Nibble, B, Bit, Mul;
    UnitIndex(sub, l);
    assert 2 * (sub / 2) + sub % 2 == sub;
  }

  lemma Q6kAt(dec: Decode, w: seq<byte>, blk: nat, sub: nat, l: nat)
    requires l < 32
    ensures ElemAt(dec, Q6K, w, blk, sub * 32 + l)
      == Mul(Mul(dec.half(U16(w, blk + 208)), Q6kScale(w, blk, sub / 4, sub % 4, l / 16) as real),
             Q6kQuant(w, blk, sub / 4, sub % 4, l) as real)
  {
    hide Q6kScale, Q6kQuant, U16, Mul;
    QuarterIndex(sub, l);
  }

  lemma EmptyRange(elem: Elem, blk: nat, sub: nat, x: seq<real>, xoff: nat, lo: nat)
    ensures UnitRange(elem, blk, sub, x, xoff, lo, lo) == 0.0
  {
  }

  lemma NextElement(elem: Elem, blk: nat, sub: nat, x: seq<real>, xoff: nat, lo: nat, l: nat)
    requires lo <= l
    ensures UnitRange(elem, blk, sub, x, xoff, lo, l + 1)
      == UnitRange(elem, blk, sub, x, xoff, lo, l) + Mul(elem(blk, sub * 32 + l), At(x, xoff + l))
  {
  }

  // ---- unit_acc ----------------------------------------------------------------------------------

  method Q4kAcc(acc0: real, dec: Decode, w: seq<byte>, blk: nat, sub: nat, x: seq<real>, xoff: nat) returns (acc: real)
    ensures acc == acc0 + UnitDot(Elems(dec, Q4K, w), blk, sub, x, xoff)
  {
    hide UnitDot, KScale, KMin, B, ElemAt, Nibble, Mul, UnitRange;
    var d1, m1 := KScale(dec, w, blk, sub), KMin(dec, w, blk, sub);
    var qs := blk + 16 + sub / 2 * 32;
    var hi := sub % 2 == 1;
    acc := acc0;
    ghost var elem := Elems(dec, Q4K, w);
    EmptyRange(elem, blk, sub, x, xoff, 0);
    for l := 0 to 32
      invariant acc == acc0 + UnitRange(elem, blk, sub, x, xoff, 0, l)
    {
      Q4kAt(dec, w, blk, sub, l);
      NextElement(elem, blk, sub, x, xoff, 0, l);
      acc := acc + Mul(Mul(d1, Nibble(B(w, qs + l), hi) as real) - m1, At(x, xoff + l));
    }
    WholeUnit(elem, blk, sub, x, xoff);
  }

  method Q5kAcc(acc0: real, dec: Decode, w: seq<byte>, blk: nat, sub: nat, x: seq<real>, xoff: nat) returns (acc: real)
    ensures acc == acc0 + UnitDot(Elems(dec, Q5K, w), blk, sub, x, xoff)
  {
    hide UnitDot, KScale, KMin, B, ElemAt, Nibble, Bit, Mul, UnitRange;
    var d1, m1 := KScale(dec, w, blk, sub), KMin(dec, w, blk, sub);
    var qh, ql := blk + 16, blk + 48 + sub / 2 * 32;
    var shift := sub;
    var hi := sub % 2 == 1;
    acc := acc0;
    ghost var elem := Elems(dec, Q5K, w);
    EmptyRange(elem, blk, sub, x, xoff, 0);
    for l := 0 to 32
      invariant acc == acc0 + UnitRange(elem, blk, sub, x, xoff, 0, l)
    {
      Q5kAt(dec, w, blk, sub, l);
      NextElement(elem, blk, sub, x, xoff, 0, l);
      var lo := Nibble(B(w, ql + l), hi);
      var h := Bit(B(w, qh + l), shift);
      acc := acc + Mul(Mul(d1, (lo + 16 * h) as real) - m1, At(x, xoff + l));
    }
    WholeUnit(elem, blk, sub, x, xoff);
  }

  method Q6kAcc(acc0: real, dec: Decode, w: seq<byte>, blk: nat, sub: nat, x: seq<real>, xoff: nat) returns (acc: real)
    ensures acc == acc0 + UnitDot(Elems(dec, Q6K, w), blk, sub, x, xoff)
  {
    hide UnitDot, U16, B, ElemAt, Nibble, Pair, Mul, UnitRange, SByte;
    var n, k := sub / 4, sub % 4;
    var ql, qh, sc := blk + n * 64 + k % 2 * 32, blk + 128 + n * 32, blk + 192;
    var d := dec.half(U16(w, blk + 208));
    acc := acc0;
    ghost var elem := Elems(dec, Q6K, w);
    EmptyRange(elem, blk, sub, x, xoff, 0);
    for half := 0 to 2
      invariant acc == acc0 + UnitRange(elem, blk, sub, x, xoff, 0, half * 16)
    {
      var ds := Mul(d, SByte(B(w, sc + n * 8 + 2 * k + half)) as real);
      for l := half * 16 to half * 16 + 16
        invariant acc == acc0 + UnitRange(elem, blk, sub, x, xoff, 0, l)
      {
        assert l / 16 == half;
        Q6kAt(dec, w, blk, sub, l);
        NextElement(elem, blk, sub, x, xoff, 0, l);
        var lo: int := Nibble(B(w, ql + l), k >= 2);
        var hb: int := Pair(B(w, qh + l), k);
        acc := acc + Mul(Mul(ds, (lo + hb * 16 - 32) as real), At(x, xoff + l));
      }
    }
    WholeUnit(elem, blk, sub, x, xoff);
  }

  /** Both nibbles of a byte at once, so the two halves of the unit advance together. */
  method Mxfp4Acc(acc0: real, dec: Decode, w: seq<byte>, blk: nat, x: seq<real>, xoff: nat) returns (acc: real)
    ensures acc == acc0 + UnitDot(Elems(dec, Mxfp4, w), blk, 0, x, xoff)
  {
    hide UnitDot, B, E2m1, Nibble, Mul, UnitRange;
    var d := dec.e8m0(B(w, blk));
    var qs := blk + 1;
    acc := acc0;
    ghost var elem := Elems(dec, Mxfp4, w);
    EmptyRange(elem, blk, 0, x, xoff, 0);
    EmptyRange(elem, blk, 0, x, xoff, 16);
    for l := 0 to 16
      invariant acc == acc0 + UnitRange(elem, blk, 0, x, xoff, 0, l) + UnitRange(elem, blk, 0, x, xoff, 16, 16 + l)
    {
      NextElement(elem, blk, 0, x, xoff, 0, l);
      NextElement(elem, blk, 0, x, xoff, 16, 16 + l);
      var b := B(w, qs + l);
      acc := acc + Mul(Mul(E2m1(Nibble(b, false)) as real, d), At(x, xoff + l));
      acc := acc + Mul(Mul(E2m1(Nibble(b, true)) as real, d), At(x, xoff + (16 + l)));
    }
    RangeSplit(elem, blk, 0, x, xoff, 0, 16, 32);
    WholeUnit(elem, blk, 0, x, xoff);
  }

  method Q80Acc(acc0: real, dec: Decode, w: seq<byte>, blk: nat, x: seq<real>, xoff: nat) returns (acc: real)
    ensures acc == acc0 + UnitDot(Elems(dec, Q80, w), blk, 0, x, xoff)
  {
    hide UnitDot, B, U16, SByte, Mul, UnitRange;
    var d := dec.half(U16(w, blk));
    acc := acc0;
    ghost var elem := Elems(dec, Q80, w);
    EmptyRange(elem, blk, 0, x, xoff, 0);
    for l := 0 to 32
      invariant acc == acc0 + UnitRange(elem, blk, 0, x, xoff, 0, l)
    {
      NextElement(elem, blk, 0, x, xoff, 0, l);
      acc := acc + Mul(Mul(SByte(B(w, blk + 2 + l)) as real, d), At(x, xoff + l));
    }
    WholeUnit(elem, blk, 0, x, xoff);
  }

  /** `unit_acc`: accumulate one unit, whatever its format. */
  method UnitAcc(acc0: real, dec: Decode, ty: QuantType, w: seq<byte>, blk: nat, sub: nat, x: seq<real>, xoff: nat)
    returns (acc: real)
    requires UnitsPerBlock(ty) == 1 ==> sub == 0
    ensures acc == acc0 + UnitDot(Elems(dec, ty, w), blk, sub, x, xoff)
  {
    hide UnitDot, Elems;
    match ty
    case Q4K => acc := Q4kAcc(acc0, dec, w, blk, sub, x, xoff);
    case Q5K => acc := Q5kAcc(acc0, dec, w, blk, sub, x, xoff);
    case Q6K => acc := Q6kAcc(acc0, dec, w, blk, sub, x, xoff);
    case Mxfp4 => acc := Mxfp4Acc(acc0, dec, w, blk, x, xoff);
    case Q80 => acc := Q80Acc(acc0, dec, w, blk, x, xoff);
  }
}
