/**
 binary16 and binary32 bit patterns (section 3.4 of IEEE 754-2019) and the kernels' two conversions.

 A pattern is a natural number; masks and shifts are written as `%` and `/` by powers of two, and
 an `|` of disjoint fields as `+`. Magnitudes are counted in units of 2^-149, the smallest
 binary32 subnormal, so every finite value of either format is a whole number.
 */
module HalfFloat {

  function Pow2(n: nat): (p: nat)
    ensures p > 0
  {
    if n == 0 then 1 else 2 * Pow2(n - 1)
  }

  lemma {:induction false} Pow2Add(a: nat, b: nat)
    ensures Pow2(a + b) == Pow2(a) * Pow2(b)
  {
    if a > 0 {
      Pow2Add(a - 1, b);
      assert a - 1 + b == a + b - 1;
      DoubledProduct(Pow2(a - 1), Pow2(b));
    }
  }

  lemma DoubledProduct(p: nat, q: nat)
    ensures 2 * (p * q) == (2 * p) * q
  {
  }

  lemma {:induction false} Pow2Mono(a: nat, b: nat)
    requires a <= b
    ensures Pow2(a) <= Pow2(b)
  {
    if a < b {
      Pow2Mono(a, b - 1);
    }
  }

  lemma Pow2Values()
    ensures Pow2(10) == 0x400 && Pow2(13) == 0x2000 && Pow2(14) == 0x4000
    ensures Pow2(23) == 0x80_0000 && Pow2(24) == 0x100_0000
  {
  }

  lemma MulMono(a: nat, b: nat, c: nat)
    requires a <= b
    ensures a * c <= b * c && c * a <= c * b
  {
    assert (b - a) * c >= 0;
  }

  lemma MulStrict(a: nat, b: nat, c: nat)
    requires a < b && c > 0
    ensures a * c < b * c
  {
    assert (b - a) * c > 0;
  }

  lemma MulAssoc(a: nat, b: nat, c: nat)
    ensures a * (b * c) == (a * b) * c
  {
  }

  const INF16: nat := 0x7C00
  const SIGN16: nat := 0x8000
  const SIGN32: nat := 0x8000_0000

  // ---- rounding to the nearest of a rising sequence of values -----------------------------------

  ghost predicate Rising(f: nat -> nat) {
    forall a: nat, b: nat :: a < b ==> f(a) < f(b)
  }

  ghost function Dist(f: nat -> nat, m: nat, h: nat): nat {
    if f(h) <= m then m - f(h) else f(h) - m
  }

  /**
   h is m rounded to nearest, ties to even, among f(0) .. f(top): no other is nearer, and one that
   is equally near is odd.
   */
  ghost predicate Nearest(f: nat -> nat, top: nat, m: nat, h: nat) {
    && h <= top
    && forall h': nat :: h' <= top && h' != h ==>
         Dist(f, m, h) < Dist(f, m, h') || (Dist(f, m, h) == Dist(f, m, h') && h % 2 == 0 && h' % 2 == 1)
  }

  lemma NearestUnique(f: nat -> nat, top: nat, m: nat, h1: nat, h2: nat)
    requires Nearest(f, top, m, h1) && Nearest(f, top, m, h2)
    ensures h1 == h2
  {
    var d1, d2 := Dist(f, m, h1), Dist(f, m, h2);
    assert h1 != h2 ==> d1 <= d2 <= d1;
  }

  /** Between two neighbours the remainder is compared with half the gap; a tie goes to the even one. */
  lemma NearestBetween(f: nat -> nat, top: nat, m: nat, h: nat, rem: nat, half: nat)
    requires Rising(f) && h < top
    requires m == f(h) + rem && f(h + 1) == f(h) + 2 * half && rem < 2 * half
    ensures Nearest(f, top, m, if rem > half || (rem == half && h % 2 == 1) then h + 1 else h)
  {
    forall h': nat | h' <= top ensures (h' < h ==> f(h') < f(h)) && (h' > h + 1 ==> f(h') > f(h + 1)) {
    }
  }

  lemma NearestAbove(f: nat -> nat, top: nat, m: nat)
    requires Rising(f) && m >= f(top)
    ensures Nearest(f, top, m, top)
  {
  }

  lemma NearestExact(f: nat -> nat, top: nat, h: nat)
    requires Rising(f) && h <= top
    ensures Nearest(f, top, f(h), h)
  {
    forall h': nat | h' != h ensures f(h') != f(h) {
      if h' < h { assert f(h') < f(h); } else { assert f(h) < f(h'); }
    }
  }

  lemma {:induction false} FloorExists(f: nat -> nat, m: nat, top: nat) returns (h: nat)
    requires f(0) == 0
    ensures h <= top && f(h) <= m && (h < top ==> m < f(h + 1))
  {
    if f(top) <= m {
      h := top;
    } else {
      h := FloorExists(f, m, top - 1);
    }
  }

  // ---- the two formats ----------------------------------------------------------------------------

  function Exp16(h: nat): nat { h / 1024 % 32 }
  function Mant16(h: nat): nat { h % 1024 }
  function Exp32(x: nat): nat { x / 0x80_0000 % 256 }
  function Mant32(x: nat): nat { x % 0x80_0000 }

  predicate Finite16(h: nat) { h < 0x1_0000 && Exp16(h) < 31 }

  /** Magnitude of a half with the given exponent and mantissa fields. */
  ghost function HalfMag(e: nat, m: nat): nat {
    if e == 0 then m * Pow2(e + 125) else (1024 + m) * Pow2(e + 124)
  }

  /** The gap between neighbouring halves with exponent field e. */
  ghost function HalfGap(e: nat): nat {
    if e == 0 then Pow2(e + 125) else Pow2(e + 124)
  }

  ghost function FloatMag(e: nat, m: nat): nat {
    if e == 0 then m else (0x80_0000 + m) * Pow2(e - 1)
  }

  /** Magnitude of an unsigned half pattern; for infinity, the value 2^16 that overflow rounds to. */
  ghost function Mag16(h: nat): nat { HalfMag(h / 1024, h % 1024) }

  ghost function Mag32(x: nat): nat { FloatMag(Exp32(x), Mant32(x)) }

  ghost function Halves(): nat -> nat { (h: nat) => Mag16(h) }

  lemma HalfStep(e: nat, m: nat)
    requires m < 1024
    ensures HalfMag(e, m) + HalfGap(e) == (if m < 1023 then HalfMag(e, m + 1) else HalfMag(e + 1, 0))
  {
    var p := HalfGap(e);
    assert (1024 + m) * p + p == (1024 + m + 1) * p;
    assert m * p + p == (m + 1) * p;
    if m == 1023 {
      assert 2048 * p == 1024 * (2 * p);
    }
  }

  lemma Mag16Step(h: nat)
    ensures Halves()(h + 1) == Halves()(h) + HalfGap(h / 1024)
  {
    var e, m := h / 1024, h % 1024;
    assert h == 1024 * e + m;
    HalfStep(e, m);
    if m < 1023 {
      assert (h + 1) / 1024 == e && (h + 1) % 1024 == m + 1;
    } else {
      assert (h + 1) / 1024 == e + 1 && (h + 1) % 1024 == 0;
    }
  }

  lemma {:induction false} HalvesRise(a: nat, b: nat)
    requires a < b
    ensures Halves()(a) < Halves()(b)
  {
    Mag16Step(b - 1);
    if a < b - 1 {
      HalvesRise(a, b - 1);
    }
  }

  lemma HalvesRising()
    ensures Rising(Halves()) && Halves()(0) == 0
  {
    forall a: nat, b: nat | a < b ensures Halves()(a) < Halves()(b) {
      HalvesRise(a, b);
    }
  }

  /** h is the correctly rounded half for magnitude m (section 4.3.1 of IEEE 754-2019). */
  ghost predicate RoundsTo(m: nat, h: nat) { Nearest(Halves(), INF16, m, h) }

  lemma GapEven(e: nat) returns (half: nat)
    ensures HalfGap(e) == 2 * half
  {
    half := if e == 0 then Pow2(e + 124) else Pow2(e + 123);
  }

  lemma RoundingExists(m: nat)
    ensures exists h :: RoundsTo(m, h)
  {
    HalvesRising();
    var h := FloorExists(Halves(), m, INF16);
    if h == INF16 {
      NearestAbove(Halves(), INF16, m);
      assert RoundsTo(m, INF16);
    } else {
      Mag16Step(h);
      var half := GapEven(h / 1024);
      var rem := m - Halves()(h);
      NearestBetween(Halves(), INF16, m, h, rem, half);
      assert RoundsTo(m, if rem > half || (rem == half && h % 2 == 1) then h + 1 else h);
    }
  }

  ghost function Rounded(m: nat): (h: nat)
    ensures RoundsTo(m, h)
  {
    RoundingExists(m);
    var h :| RoundsTo(m, h);
    h
  }

  /** `0x200 | m` for a ten-bit m. */
  function Quieted(m: nat): nat { if m / 512 % 2 == 1 then m else m + 512 }

  /** What narrowing owes: the sign kept, a finite value rounded, infinities and NaNs carried over. */
  ghost function Narrow(x: nat): (h: nat) {
    x / SIGN32 * SIGN16 +
    (if Exp32(x) < 255 then Rounded(Mag32(x))
     else if Mant32(x) == 0 then INF16
     else INF16 + Quieted(Mant32(x) / 0x2000))
  }

  /** A narrowed pattern has sixteen bits. */
  lemma NarrowFits(x: nat)
    requires x < 0x1_0000_0000
    ensures Narrow(x) < 0x1_0000
  {
    hide RoundsTo;
    TopBits(x);
    hide Mant32, Quieted;
    if Exp32(x) < 255 {
      RoundedFits(Mag32(x));
    }
  }

  lemma TopBits(x: nat)
    ensures Quieted(Mant32(x) / 0x2000) < 1024
  {
    assert Mant32(x) / 0x2000 < 1024;
  }

  lemma RoundedFits(m: nat)
    ensures Rounded(m) <= INF16
  {
  }

  // ---- f32_to_f16 -------------------------------------------------------------------------------

  /** Comparing remainders is comparing them after scaling. */
  lemma ScaledCompare(rem: nat, half: nat, u: nat)
    requires u > 0
    ensures rem > half <==> rem * u > half * u
    ensures rem == half <==> rem * u == half * u
  {
    if rem > half {
      MulStrict(half, rem, u);
    } else if rem < half {
      MulStrict(rem, half, u);
    }
  }

  /** Rounding m = half h + rem*u, where the gap above h is 2*half*u. */
  lemma RoundsByRemainder(m: nat, e: nat, t: nat, rem: nat, half: nat, u: nat)
    requires e < 31 && t < 1024 && u > 0 && rem < 2 * half
    requires m == HalfMag(e, t) + rem * u && HalfGap(e) == 2 * half * u
    ensures RoundsTo(m, e * 1024 + t + (if rem > half || (rem == half && t % 2 == 1) then 1 else 0))
  {
    var h := e * 1024 + t;
    assert h / 1024 == e && h % 1024 == t && h % 2 == t % 2;
    HalvesRising();
    Mag16Step(h);
    hide HalfMag, HalfGap, Rising;
    ScaledCompare(rem, half, u);
    MulStrict(rem, 2 * half, u);
    MulAssoc(2, half, u);
    NearestBetween(Halves(), INF16, m, h, rem * u, half * u);
  }

  lemma Regroup(p: nat, t: nat, rem: nat, u: nat)
    ensures (p * t + rem) * u == t * (p * u) + rem * u
  {
    assert (p * t + rem) * u == p * t * u + rem * u;
    assert p * t * u == t * (p * u);
  }

  lemma NormalRounds(e32: nat, mant: nat)
    requires 113 <= e32 <= 142 && mant < 0x80_0000
    ensures var t, rem := mant / 0x2000, mant % 0x2000;
      RoundsTo(FloatMag(e32, mant),
               (e32 - 112) * 1024 + t + (if rem > 0x1000 || (rem == 0x1000 && t % 2 == 1) then 1 else 0))
  {
    var t, rem, u := mant / 0x2000, mant % 0x2000, Pow2(e32 - 1);
    Pow2Add(13, e32 - 1);
    Pow2Values();
    Regroup(0x2000, 1024 + t, rem, u);
    RoundsByRemainder(FloatMag(e32, mant), e32 - 112, t, rem, 0x1000, u);
  }

  /** `a >> k` and the bits shifted out, for p == 1 << k. */
  method ShiftOut(a: nat, p: nat) returns (t: nat, rem: nat)
    requires p > 0
    ensures a == p * t + rem && rem < p
  {
    t, rem := a / p, a % p;
  }

  lemma SubnormalRounds(e32: nat, mant: nat, p: nat, half: nat, t: nat, rem: nat)
    requires 102 <= e32 <= 112 && mant < 0x80_0000
    requires p == Pow2(126 - e32) && half == Pow2(125 - e32)
    requires mant + 0x80_0000 == p * t + rem && rem < p
    ensures t < 1024 && RoundsTo(FloatMag(e32, mant), t + (if rem > half || (rem == half && t % 2 == 1) then 1 else 0))
  {
    var u, zero := Pow2(e32 - 1), 112 - e32 - (112 - e32);
    Pow2Add(126 - e32, e32 - 1);
    assert 126 - e32 + (e32 - 1) == zero + 125;
    Pow2Mono(14, 126 - e32);
    Pow2Values();
    MulMono(0x4000, p, t);
    Regroup(p, t, rem, u);
    assert p == 2 * half;
    RoundsByRemainder(FloatMag(e32, mant), zero, t, rem, half, u);
  }

  lemma UnderflowRounds(e32: nat, mant: nat)
    requires e32 < 102 && mant < 0x80_0000
    ensures RoundsTo(FloatMag(e32, mant), 0)
  {
    var zero := e32 - e32;
    Pow2Values();
    if e32 > 0 {
      MulStrict(0x80_0000 + mant, 0x100_0000, Pow2(e32 - 1));
      Pow2Mono(e32 - 1, zero + 100);
      MulMono(Pow2(e32 - 1), Pow2(zero + 100), 0x100_0000);
      Pow2Add(24, zero + 100);
    } else {
      Pow2Mono(23, zero + 124);
    }
    assert FloatMag(e32, mant) < Pow2(zero + 124);
    assert 0 * Pow2(zero + 125) == 0;
    RoundsByRemainder(FloatMag(e32, mant), zero, 0, FloatMag(e32, mant), Pow2(zero + 124), 1);
  }

  lemma OverflowRounds(e32: nat, mant: nat)
    requires 143 <= e32
    ensures RoundsTo(FloatMag(e32, mant), INF16)
  {
    var k := e32 - 143;
    assert INF16 / 1024 == 31 && INF16 % 1024 == 0;
    MulMono(0x80_0000, 0x80_0000 + mant, Pow2(e32 - 1));
    var lo := e32 - 1 - k;
    Pow2Mono(lo, e32 - 1);
    MulMono(Pow2(lo), Pow2(e32 - 1), 0x80_0000);
    Pow2Add(13, lo);
    Pow2Values();
    assert HalfMag(31, 0) == 1024 * Pow2(13 + lo);
    HalvesRising();
    NearestAbove(Halves(), INF16, FloatMag(e32, mant));
  }

  /** The branch for results below the normal range: restore the implicit bit, shift and round. */
  method RoundSubnormal(e32: nat, mant32: nat) returns (h: nat)
    requires 102 <= e32 <= 112 && mant32 < 0x80_0000
    ensures RoundsTo(FloatMag(e32, mant32), h)
  {
    var mant := mant32 + 0x80_0000;
    var shift := 14 - (e32 - 112);
    var unit := Pow2(shift);
    var t, rem := ShiftOut(mant, unit);
    var half := Pow2(shift - 1);
    SubnormalRounds(e32, mant32, unit, half, t, rem);
    h := t + (if rem > half || (rem == half && t % 2 == 1) then 1 else 0);
  }

  /** The exponent and mantissa of a normal result, a carry bumping the exponent. */
  method RoundNormal(exp32: nat, mant32: nat) returns (exp: nat, t: nat)
    requires 113 <= exp32 <= 142 && mant32 < 0x80_0000
    ensures t < 0x400 && RoundsTo(FloatMag(exp32, mant32), exp * 1024 + t)
  {
    exp := exp32 - 112;
    t := mant32 / 0x2000;
    var rem := mant32 % 0x2000;
    NormalRounds(exp32, mant32);
    if rem > 0x1000 || (rem == 0x1000 && t % 2 == 1) {
      t := t + 1;
      if t == 0x400 {
        t := 0;
        exp := exp + 1;
      }
    }
  }

  lemma RoundedBelowTop(m: nat, h: nat)
    requires RoundsTo(m, h)
    ensures h <= INF16
  {
  }

  /** The finite part of `f32_to_f16`, on the exponent and mantissa fields. */
  method RoundMagnitude(e32: nat, mant32: nat) returns (h: nat)
    requires e32 < 255 && mant32 < 0x80_0000
    ensures RoundsTo(FloatMag(e32, mant32), h)
  {
    var exp := (e32 as int) - 127 + 15;
    if exp >= 0x1F {
      OverflowRounds(e32, mant32);
      return INF16;
    }
    if exp <= 0 {
      if exp < -10 {
        UnderflowRounds(e32, mant32);
        return 0;
      }
      h := RoundSubnormal(e32, mant32);
      return;
    }
    var t;
    exp, t := RoundNormal(e32, mant32);
    RoundedBelowTop(FloatMag(e32, mant32), exp * 1024 + t);
    if exp >= 0x1F {
      return INF16;
    }
    h := exp * 1024 + t;
  }

  /** `f32_to_f16`: round to nearest, ties to even, subnormals rounded, overflow to infinity. */
  method F32ToF16(x: nat) returns (h: nat)
    requires x < 0x1_0000_0000
    ensures h == Narrow(x)
  {
    var sign := x / SIGN32 * SIGN16;
    var e32 := Exp32(x);
    var mant := Mant32(x);
    if e32 == 0xFF {
      return sign + INF16 + (if mant != 0 then Quieted(mant / 0x2000) else 0);
    }
    var r := RoundMagnitude(e32, mant);
    NarrowIs(x, r);
    h := sign + r;
  }

  /** What rounding a magnitude to pattern r settles about `Narrow`. */
  lemma NarrowIs(x: nat, r: nat)
    requires Exp32(x) < 255 && RoundsTo(Mag32(x), r)
    ensures Narrow(x) == x / SIGN32 * SIGN16 + r
  {
    NearestUnique(Halves(), INF16, Mag32(x), r, Rounded(Mag32(x)));
  }

  // ---- f16_to_f32 -------------------------------------------------------------------------------

  /** x is h widened: the same sign and magnitude, or the same infinity, or the NaN with its payload. */
  ghost predicate Widens(h: nat, x: nat) {
    && x < 0x1_0000_0000 && x / SIGN32 == h / SIGN16
    && (if Exp16(h) < 31 then Exp32(x) < 255 && Mag32(x) == HalfMag(Exp16(h), Mant16(h))
        else Exp32(x) == 255 && Mant32(x) == Mant16(h) * 0x2000)
  }

  /** Putting the three fields of a widened pattern together. */
  lemma Fields(sign: nat, exp: nat, mant: nat)
    requires sign < 2 && exp < 256 && mant < 0x80_0000
    ensures var x := sign * SIGN32 + exp * 0x80_0000 + mant;
      && x < 0x1_0000_0000 && x / SIGN32 == sign && Exp32(x) == exp && Mant32(x) == mant
  {
    var x := sign * SIGN32 + exp * 0x80_0000 + mant;
    assert x / 0x80_0000 == sign * 256 + exp;
  }

  lemma NormalWidens(e: nat, m: nat)
    requires 0 < e < 31 && m < 0x400
    ensures FloatMag(e + 112, m * 0x2000) == HalfMag(e, m)
  {
    Pow2Values();
    Pow2Add(13, e + 111);
    MulAssoc(1024 + m, 0x2000, Pow2(e + 111));
  }

  lemma SubnormalWidens(m0: nat, exp: nat, mant: nat, zero: nat)
    requires zero == 0 && 103 <= exp <= 113 && mant == m0 * Pow2(113 - exp) && 0x400 <= mant < 0x800
    ensures FloatMag(exp, (mant - 0x400) * 0x2000) == HalfMag(zero, m0)
  {
    Pow2Values();
    Pow2Add(13, exp - 1);
    Pow2Add(113 - exp, exp + 12);
    assert 113 - exp + (exp + 12) == zero + 125;
    MulAssoc(mant, 0x2000, Pow2(exp - 1));
    MulAssoc(m0, Pow2(113 - exp), Pow2(exp + 12));
    assert 0x80_0000 + (mant - 0x400) * 0x2000 == mant * 0x2000;
  }

  lemma ShiftBound(m0: nat, k: nat)
    requires m0 > 0 && m0 * Pow2(k) < 0x400
    ensures k < 10
  {
    MulMono(1, m0, Pow2(k));
    if k >= 10 {
      Pow2Mono(10, k);
    }
    Pow2Values();
  }

  /** The renormalising loop: shift left until the implicit bit appears. */
  method Renormalise(m0: nat) returns (exp: nat, mant: nat)
    requires 0 < m0 < 0x400
    ensures 103 <= exp <= 113 && 0x400 <= mant < 0x800 && mant == m0 * Pow2(113 - exp)
  {
    mant := m0;
    exp := 113;
    assert Pow2(0) == 1;
    while mant / 0x400 % 2 == 0
      invariant 0 < mant < 0x800 && 103 <= exp <= 113
      invariant mant == m0 * Pow2(113 - exp)
      decreases 0x800 - mant
    {
      ShiftBound(m0, 113 - exp);
      MulAssoc(2, m0, Pow2(113 - exp));
      MulAssoc(m0, 2, Pow2(113 - exp));
      mant := mant * 2;
      exp := exp - 1;
    }
  }

  /** The exponent and mantissa fields carry the half's value, or its infinity or NaN payload. */
  ghost predicate Carries(e16: nat, m16: nat, exp: nat, mant: nat) {
    && exp < 256 && mant < 0x80_0000
    && if e16 < 31 then exp < 255 && FloatMag(exp, mant) == HalfMag(e16, m16)
       else exp == 255 && mant == m16 * 0x2000
  }

  method WidenSubnormal(m16: nat, e16: nat) returns (exp: nat, mant: nat)
    requires e16 == 0 && 0 < m16 < 1024
    ensures Carries(e16, m16, exp, mant)
  {
    exp, mant := Renormalise(m16);
    SubnormalWidens(m16, exp, mant, e16);
    assert mant % 0x400 == mant - 0x400;
    mant := mant % 0x400 * 0x2000;
  }

  lemma ZeroWidens(e16: nat)
    requires e16 == 0
    ensures Carries(e16, 0, 0, 0)
  {
    assert 0 * Pow2(e16 + 125) == 0;
  }

  lemma NormalCarries(e16: nat, m16: nat)
    requires 0 < e16 < 31 && m16 < 1024
    ensures Carries(e16, m16, e16 + 112, m16 * 0x2000)
  {
    NormalWidens(e16, m16);
  }

  /** The fields of the widened pattern. */
  method WidenFields(e16: nat, m16: nat) returns (exp: nat, mant: nat)
    requires e16 < 32 && m16 < 1024
    ensures Carries(e16, m16, exp, mant)
  {
    if e16 == 0 {
      if m16 == 0 {
        ZeroWidens(e16);
        return 0, 0;
      }
      exp, mant := WidenSubnormal(m16, e16);
    } else if e16 == 0x1F {
      return 255, m16 * 0x2000;
    } else {
      NormalCarries(e16, m16);
      return e16 + 112, m16 * 0x2000;
    }
  }

  lemma CarriedWidens(h: nat, exp: nat, mant: nat, x: nat)
    requires h < 0x1_0000 && Carries(Exp16(h), Mant16(h), exp, mant)
    requires x == h / SIGN16 * SIGN32 + exp * 0x80_0000 + mant
    ensures Widens(h, x)
  {
    Fields(h / SIGN16, exp, mant);
  }

  lemma FieldsFit(h: nat)
    ensures Exp16(h) < 32 && Mant16(h) < 1024
  {
  }

  lemma SplitHalf(h: nat)
    requires h < 0x1_0000
    ensures var r := Exp16(h) * 1024 + Mant16(h);
      && h == h / SIGN16 * SIGN16 + r && r / 1024 == Exp16(h) && r % 1024 == Mant16(h)
  {
    assert h / 1024 == h / SIGN16 * 32 + Exp16(h);
  }

  /** `f16_to_f32`. */
  method F16ToF32(h: nat) returns (x: nat)
    requires h < 0x1_0000
    ensures Widens(h, x)
  {
    var e16, m16, sign := Exp16(h), Mant16(h), h / SIGN16;
    FieldsFit(h);
    hide *;
    var exp, mant := WidenFields(e16, m16);
    x := sign * SIGN32 + exp * 0x80_0000 + mant;
    CarriedWidens(h, exp, mant, x);
  }

  /**
   Narrowing after widening gives a half back unchanged exactly when it is not a signalling NaN;
   a signalling NaN comes back quiet.
   */
  lemma NarrowAfterWiden(h: nat, x: nat)
    requires h < 0x1_0000 && Widens(h, x)
    ensures Narrow(x) == h <==> !(Exp16(h) == 31 && 0 < Mant16(h) < 512)
    ensures Exp16(h) == 31 && 0 < Mant16(h) < 512 ==> Narrow(x) == h + 512
  {
    var r := Exp16(h) * 1024 + Mant16(h);
    SplitHalf(h);
    if Exp16(h) < 31 {
      HalvesRising();
      assert Mag32(x) == Halves()(r);
      NearestExact(Halves(), INF16, r);
      NarrowIs(x, r);
    } else {
      assert Mant32(x) / 0x2000 == Mant16(h);
    }
  }

  // ---- the real values ------------------------------------------------------------------------------

  ghost function Signed(negative: bool, magnitude: nat, unit: nat): real
    requires unit > 0
  {
    if negative then -(magnitude as real / unit as real) else magnitude as real / unit as real
  }

  /** The number a finite half stands for; the scales of the weight blocks are read through it. */
  ghost function HalfValue(h: nat): real {
    Signed(h / SIGN16 % 2 == 1, HalfMag(Exp16(h), Mant16(h)), Pow2(149))
  }

  ghost function FloatValue(x: nat): real {
    Signed(x / SIGN32 % 2 == 1, Mag32(x), Pow2(149))
  }

  /** Widening changes the pattern and not the number. */
  lemma WideningIsExact(h: nat, x: nat)
    requires Finite16(h) && Widens(h, x)
    ensures FloatValue(x) == HalfValue(h)
  {
  }
}
