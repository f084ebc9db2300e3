/** What some patterns stand for, by the numbers of IEEE 754, and the scale byte of MXFP4. */
module FloatFacts {
  import opened Bytes
  import opened HalfFloat
  import opened Lanes
  import opened Softmax
  import opened Router

  /** n / d is the number of a magnitude of n of the units of which d make one. */
  lemma ValueOfMag(m: nat, n: nat, d: nat, unit: nat)
    requires d > 0 && unit > 0 && m * d == n * unit
    ensures m as real / unit as real == n as real / d as real
  {
    var q := n as real / d as real;
    assert q * d as real == n as real;
    assert (m * d) as real == (n * unit) as real;
    assert m as real * d as real == n as real * unit as real;
    assert m as real == q * unit as real by {
      CancelFactor(m as real, q * unit as real, d as real);
    }
  }

  lemma CancelFactor(a: real, b: real, d: real)
    requires d > 0.0 && a * d == b * d
    ensures a == b
  {
  }

  lemma Powers()
    ensures Pow2(5) == 32 && Pow2(10) == 1024 && Pow2(23) == 0x80_0000 && Pow2(24) == 0x100_0000
    ensures 1024 * Pow2(139) == Pow2(149) == 0x80_0000 * Pow2(126) == 0x100_0000 * Pow2(125)
    ensures Pow2(154) == 32 * Pow2(149)
  {
    assert Pow2(5) == 32;
    Pow2Values();
    hide Pow2;
    Pow2Add(10, 139);
    Pow2Add(23, 126);
    Pow2Add(24, 125);
    Pow2Add(5, 149);
  }

  /** The fields of the four patterns below. */
  lemma LandmarkFields()
    ensures Exp16(0x3C00) == 15 == Exp16(0xBC00) && Mant16(0x3C00) == 0 == Mant16(0xBC00)
    ensures Exp16(0x7BFF) == 30 && Mant16(0x7BFF) == 1023 && Exp16(1) == 0 && Mant16(1) == 1
    ensures Exp32(0x3F80_0000) == 127 == Exp32(0xBF80_0000) && Mant32(0x3F80_0000) == 0 == Mant32(0xBF80_0000)
  {
  }

  lemma LandmarkMags()
    ensures HalfMag(15, 0) == 1024 * Pow2(139) && FloatMag(127, 0) == 0x80_0000 * Pow2(126)
    ensures HalfMag(30, 1023) == 2047 * Pow2(154) && HalfMag(0, 1) == Pow2(125)
  {
    hide Pow2;
  }

  /** The patterns of 1 and -1 in both widths, of the largest half and of the smallest. */
  lemma Landmarks()
    ensures HalfValue(0x3C00) == FloatValue(0x3F80_0000) == 1.0
    ensures HalfValue(0xBC00) == FloatValue(0xBF80_0000) == -1.0
    ensures HalfValue(0x7BFF) == 65504.0 && HalfValue(0x0001) == 1.0 / 16777216.0
  {
    Powers();
    LandmarkFields();
    LandmarkMags();
    hide Pow2, HalfMag, FloatMag, Exp16, Mant16, Exp32, Mant32;
    var unit := Pow2(149);
    ValueOfMag(HalfMag(15, 0), 1, 1, unit);
    ValueOfMag(HalfMag(30, 1023), 65504, 1, unit);
    ValueOfMag(HalfMag(0, 1), 1, 0x100_0000, unit);
  }

  /** One more in the exponent field doubles a normal number, in either width. */
  lemma NextBinade(e: nat, m: nat)
    requires e > 0
    ensures HalfMag(e + 1, m) == 2 * HalfMag(e, m) && FloatMag(e + 1, m) == 2 * FloatMag(e, m)
  {
    var p, q := Pow2(e + 124), Pow2(e - 1);
    assert Pow2(e + 125) == 2 * p && Pow2(e) == 2 * q;
    assert (1024 + m) * (2 * p) == 2 * ((1024 + m) * p);
    assert (0x80_0000 + m) * (2 * q) == 2 * ((0x80_0000 + m) * q);
  }

  /** `e8m0_half`: the bits of the halved scale of an MXFP4 block. */
  function E8m0Half(x: byte): nat {
    if x < 2 then (if x == 0 then 0x20_0000 else 0x40_0000) else (x - 1) * 0x80_0000
  }

  /** They stand for 2^(x - 128), half the 2^(x - 127) that the byte encodes, subnormal results included. */
  lemma E8m0IsHalved(x: byte)
    ensures FloatValue(E8m0Half(x)) == Pow2(x) as real / Pow2(128) as real
  {
    ScaleMag(x);
    assert FloatValue(E8m0Half(x)) == Pow2(x + 21) as real / Pow2(149) as real by {
      hide Pow2, Mag32, E8m0Half;
    }
    hide *;
    ScaleProduct(x);
    ValueOfMag(Pow2(x + 21), Pow2(x), Pow2(128), Pow2(149));
  }

  lemma ScaleProduct(x: nat)
    ensures Pow2(x + 21) * Pow2(128) == Pow2(x) * Pow2(149)
  {
    hide Pow2;
    Pow2Add(x, 21);
    Pow2Add(128, 21);
    Swap(Pow2(x), Pow2(21), Pow2(128));
  }

  lemma Swap(a: nat, b: nat, c: nat)
    ensures (a * b) * c == a * (c * b)
  {
    assert (a * b) * c == a * (b * c);
  }

  lemma ScaleMag(x: byte)
    ensures Mag32(E8m0Half(x)) == Pow2(x + 21) && E8m0Half(x) / SIGN32 % 2 == 0
  {
    hide Pow2, Exp32, Mant32;
    if x < 2 {
      SmallPowers();
      SmallFields();
    } else {
      FieldOf(x - 1);
      NormalScale(x);
    }
  }

  lemma NormalScale(x: nat)
    requires x >= 2
    ensures 0x80_0000 * Pow2(x - 2) == Pow2(x + 21)
  {
    Pow2Values();
    hide Pow2;
    Pow2Add(23, x - 2);
  }

  lemma SmallFields()
    ensures Exp32(0x20_0000) == 0 == Exp32(0x40_0000) && Mant32(0x20_0000) == 0x20_0000 && Mant32(0x40_0000) == 0x40_0000
  {
  }

  lemma SmallPowers()
    ensures Pow2(21) == 0x20_0000 && Pow2(22) == 0x40_0000
  {
    Pow2Values();
    assert Pow2(23) == 2 * Pow2(22) == 4 * Pow2(21);
  }

  lemma FieldOf(e: nat)
    requires e < 255
    ensures var b := e * 0x80_0000; Exp32(b) == e && Mant32(b) == 0 && b / SIGN32 % 2 == 0
  {
  }

  // ---- constants of the kernels ---------------------------------------------------------------------

  lemma LargePowers()
    ensures Pow2(126) == 85070591730234615865843651857942052864
    ensures Pow2(104) == 20282409603651670423947251286016 && Pow2(14) == 16384
    ensures 0x80_0000 * Pow2(126) == Pow2(149) == 16384 * Pow2(135) && Pow2(253) == Pow2(104) * Pow2(149)
    ensures 1024 * Pow2(125) == Pow2(135)
  {
    Pow2Values();
    hide Pow2;
    Pow2Add(13, 13);
    Pow2Add(26, 26);
    Pow2Add(52, 52);
    Pow2Add(104, 22);
    Pow2Add(22, 1);
    OnePower();
    Pow2Add(23, 126);
    Pow2Add(14, 135);
    Pow2Add(104, 149);
    Pow2Add(10, 125);
  }

  lemma OnePower()
    ensures Pow2(1) == 2
  {
    assert Pow2(0) == 1;
  }

  /** The clamp of the softmax is the smallest normal float, the idle maximum the lowest, the router's clamp the smallest normal half. */
  lemma ConstantPatterns()
    ensures FloatValue(0x0080_0000) == FLT_MIN && FloatValue(0xFF7F_FFFF) == LOWEST && HalfValue(0x0400) == CLAMP
  {
    ConstantMags();
    LargePowers();
    hide Pow2, Mag32, HalfMag, Exp16, Mant16;
    ValueOfMag(0x80_0000, 1, Pow2(126), Pow2(149));
    var top: nat := 340282346638528859811704183484516925440;
    assert 0xFF_FFFF * 20282409603651670423947251286016 == top;
    MulAssoc(0xFF_FFFF, Pow2(104), Pow2(149));
    ValueOfMag(0xFF_FFFF * Pow2(253), top, 1, Pow2(149));
    ValueOfMag(Pow2(135), 1, 16384, Pow2(149));
  }

  lemma ConstantMags()
    ensures Mag32(0x0080_0000) == 0x80_0000 && Mag32(0xFF7F_FFFF) == 0xFF_FFFF * Pow2(253)
    ensures HalfMag(Exp16(0x0400), Mant16(0x0400)) == 1024 * Pow2(125)
    ensures 0x0080_0000 / SIGN32 % 2 == 0 && 0xFF7F_FFFF / SIGN32 % 2 == 1 && 0x0400 / SIGN16 % 2 == 0
  {
    ConstantFields();
    NoPower();
    hide Pow2, Exp32, Mant32, Exp16, Mant16;
  }

  lemma NoPower()
    ensures Pow2(0) == 1
  {
  }

  lemma ConstantFields()
    ensures Exp32(0x0080_0000) == 1 && Mant32(0x0080_0000) == 0 && Exp32(0xFF7F_FFFF) == 254
    ensures Mant32(0xFF7F_FFFF) == 0x7F_FFFF && Exp16(0x0400) == 1 && Mant16(0x0400) == 0
  {
  }
}
