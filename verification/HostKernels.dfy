/** The fused host dot products (`dot_q4k`, `dot_q6k`, `dot_mxfp4`) and the rows built on them. */
module HostKernels {
  import opened Bytes
  import opened Sums
  import opened Quant

  /**
   Eight independent accumulators, summed at the end: the reassociation the dot products make so
   that their inner loop vectorises.
   */
  method LaneSum(chunks: nat, term: nat -> real) returns (s: real)
    ensures s == Sum(chunks * 8, term)
  {
    var lanes := seq(8, _ => 0.0);
    for c := 0 to chunks
      invariant |lanes| == 8
      invariant forall l: nat :: l < 8 ==> lanes[l] == Sum(c, (k: nat) => term(k * 8 + l))
    {
      ghost var before := lanes;
      for l := 0 to 8
        invariant |lanes| == 8
        invariant forall k: nat :: k < l ==> lanes[k] == before[k] + term(c * 8 + k)
        invariant forall k: nat :: l <= k < 8 ==> lanes[k] == before[k]
      {
        lanes := lanes[l := lanes[l] + term(c * 8 + l)];
      }
      forall l: nat | l < 8 ensures lanes[l] == Sum(c + 1, (k: nat) => term(k * 8 + l)) {
        SumCong(c, (k: nat) => term(k * 8 + l), (k: nat) => term(k * 8 + l));
      }
    }
    s := 0.0;
    for l := 0 to 8
      invariant s == Sum(l, (k: nat) => At(lanes, k))
    {
      s := s + lanes[l];
    }
    LanesAreTotal(chunks, term, lanes);
  }

  lemma LanesAreTotal(chunks: nat, term: nat -> real, lanes: seq<real>)
    requires |lanes| == 8
    requires forall l: nat :: l < 8 ==> lanes[l] == Sum(chunks, (k: nat) => term(k * 8 + l))
    ensures Sum(8, (l: nat) => At(lanes, l)) == Sum(chunks * 8, term)
  {
    hide Sum;
    var f := (c: nat, l: nat) => term(c * 8 + l);
    var rows := (c: nat) => Sum(8, (l: nat) => f(c, l));
    var cols := (l: nat) => At(lanes, l);
    forall l: nat | l < 8 ensures cols(l) == Sum(chunks, (c: nat) => f(c, l)) {
      SumCong(chunks, (k: nat) => term(k * 8 + l), (c: nat) => f(c, l));
    }
    SumSwap(chunks, 8, f, rows, cols);
    forall c: nat | c < chunks ensures rows(c) == Sum(8, (l: nat) => term(c * 8 + l)) {
      SumCong(8, (l: nat) => f(c, l), (l: nat) => term(c * 8 + l));
    }
    SumBlocks(chunks, 8, term, rows);
    SumCong(8, cols, (l: nat) => At(lanes, l));
  }

  // ---- Q4_K ---------------------------------------------------------------------------------------

  lemma SumAffine(n: nat, d: real, m: real, qa: nat -> real, a: nat -> real, e: nat -> real)
    requires forall l: nat :: l < n ==> e(l) == Mul(d, qa(l)) - Mul(m, a(l))
    ensures Sum(n, e) == Mul(d, Sum(n, qa)) - Mul(m, Sum(n, a))
  {
    hide Sum;
    var f := (l: nat) => d * qa(l);
    var g := (l: nat) => -m * a(l);
    SumAdd(n, f, g, e);
    SumScale(n, d, qa, f);
    SumScale(n, -m, a, g);
  }

  lemma Spread(d: real, q: real, m: real, a: real)
    ensures Mul(Mul(d, q) - m, a) == Mul(d, Mul(q, a)) - Mul(m, a)
  {
  }

  /** Hoisting the block minimum: 32 elements cost one product with the sum of their activations. */
  lemma HoistMinimum(elem: Elem, blk: nat, sub: nat, x: seq<real>, xoff: nat, d: real, m: real,
                     q: nat -> real, qa: nat -> real, a: nat -> real)
    requires forall l: nat :: l < 32 ==> elem(blk, sub * 32 + l) == Mul(d, q(l)) - m
    requires forall l: nat :: l < 32 ==> qa(l) == Mul(q(l), a(l))
    requires forall l: nat :: l < 32 ==> a(l) == At(x, xoff + l)
    ensures UnitDot(elem, blk, sub, x, xoff) == Mul(d, Sum(32, qa)) - Mul(m, Sum(32, a))
  {
    var e := (l: nat) => UnitTerm(elem, blk, sub, x, xoff, l);
    forall l: nat | l < 32 ensures e(l) == Mul(d, qa(l)) - Mul(m, a(l)) {
      assert elem(blk, sub * 32 + l) == Mul(d, q(l)) - m;
      Spread(d, q(l), m, a(l));
    }
    SumAffine(32, d, m, qa, a, e);
    UnitDotIs(elem, blk, sub, x, xoff, e);
  }

  lemma Index32(sub: nat, l: nat)
    requires l < 32
    ensures (sub * 32 + l) / 32 == sub && (sub * 32 + l) % 32 == l
  {
  }

  lemma Q4kElems(dec: Decode, w: seq<byte>, blk: nat, sub: nat, q: nat -> real)
    requires forall l: nat :: l < 32 ==> q(l) == Q4kQuant(w, blk, sub, l) as real
    ensures forall l: nat :: l < 32 ==>
      Elems(dec, Q4K, w)(blk, sub * 32 + l) == Mul(KScale(dec, w, blk, sub), q(l)) - KMin(dec, w, blk, sub)
  {
    forall l: nat | l < 32
      ensures Elems(dec, Q4K, w)(blk, sub * 32 + l) == Mul(KScale(dec, w, blk, sub), q(l)) - KMin(dec, w, blk, sub)
    {
      Index32(sub, l);
    }
  }

  /** The 32 activations from `off`, summed. */
  ghost function RunSum(x: seq<real>, off: nat): real {
    Sum(32, (l: nat) => At(x, off + l))
  }

  /** `xsum` holds x summed in runs of 32. */
  ghost predicate IsGroupSums(x: seq<real>, xsum: seq<real>) {
    |x| / 32 <= |xsum| && forall c: nat :: c < |x| / 32 ==> xsum[c] == RunSum(x, c * 32)
  }

  lemma GroupSumIs(x: seq<real>, c: nat)
    requires c < |x| / 32
    ensures 32 * c + 32 <= |x| && GroupSum(x, c) == RunSum(x, c * 32)
  {
    var f := (l: nat) => At(x, c * 32 + l);
    forall i | 0 <= i < 32 ensures f(i) == x[32 * c + i] {
      assert c * 32 + i == 32 * c + i;
    }
    SumRangeIsSum(x, 32 * c, 32 * c + 32, f);
  }

  lemma GroupSumsAre(x: seq<real>)
    ensures IsGroupSums(x, GroupSums(x))
  {
    var xs := GroupSums(x);
    assert |x| / 32 <= CeilDiv(|x|, 32);
    forall c: nat | c < |x| / 32 ensures xs[c] == RunSum(x, c * 32) {
      assert xs[c] == GroupSum(x, c);
      GroupSumIs(x, c);
    }
  }

  lemma FusedUnitIs(elem: Elem, blk: nat, sub: nat, d: real, m: real, q: nat -> real, qa: nat -> real,
                    x: seq<real>, xoff: nat)
    requires forall l: nat :: l < 32 ==> elem(blk, sub * 32 + l) == Mul(d, q(l)) - m
    requires forall l: nat :: l < 32 ==> qa(l) == Mul(q(l), At(x, xoff + l))
    ensures UnitDot(elem, blk, sub, x, xoff) == Mul(d, Sum(32, qa)) - Mul(m, RunSum(x, xoff))
  {
    hide Sum, UnitDot, Mul;
    var a := (l: nat) => At(x, xoff + l);
    HoistMinimum(elem, blk, sub, x, xoff, d, m, q, qa, a);
    SumCong(32, a, (l: nat) => At(x, xoff + l));
  }

  /** A sub-block with one scale and one minimum: the fused quant sum against the prepared activation sum. */
  method FusedUnit(ghost elem: Elem, ghost blk: nat, ghost sub: nat, d: real, m: real, q: nat -> real,
                   x: seq<real>, xoff: nat, xs: real) returns (p: real)
    requires forall l: nat :: l < 32 ==> elem(blk, sub * 32 + l) == Mul(d, q(l)) - m
    requires xs == RunSum(x, xoff)
    ensures p == UnitDot(elem, blk, sub, x, xoff)
  {
    hide *;
    var qa := (l: nat) => Mul(q(l), At(x, xoff + l));
    var s := LaneSum(4, qa);
    FusedUnitIs(elem, blk, sub, d, m, q, qa, x, xoff);
    p := Mul(d, s) - Mul(m, xs);
  }

  method Q4kUnit(dec: Decode, w: seq<byte>, blk: nat, sub: nat, x: seq<real>, xoff: nat, xs: real) returns (p: real)
    requires xs == RunSum(x, xoff)
    ensures p == UnitDot(Elems(dec, Q4K, w), blk, sub, x, xoff)
  {
    hide RunSum, UnitDot;
    var q := (l: nat) => Q4kQuant(w, blk, sub, l) as real;
    Q4kElems(dec, w, blk, sub, q);
    p := FusedUnit(Elems(dec, Q4K, w), blk, sub, KScale(dec, w, blk, sub), KMin(dec, w, blk, sub), q, x, xoff, xs);
  }

  /** `dot_q4k`: nb super-blocks of the row at byte `row`. */
  method DotQ4k(dec: Decode, w: seq<byte>, row: nat, x: seq<real>, xsum: seq<real>, nb: nat) returns (acc: real)
    requires nb * 256 <= |x| && IsGroupSums(x, xsum)
    ensures acc == RowDot(Elems(dec, Q4K, w), Q4K, row, x, 0, nb * 256)
  {
    hide RunSum, UnitDot, UnitOf, RowDot, Elems;
    ghost var elem := Elems(dec, Q4K, w);
    acc := 0.0;
    for b := 0 to nb
      invariant acc == UnitsDot(elem, Q4K, row, x, 0, b * 8)
    {
      var blk := row + b * 144;
      for j := 0 to 4
        invariant acc == UnitsDot(elem, Q4K, row, x, 0, b * 8 + 2 * j)
      {
        var c := b * 8 + 2 * j;
        assert c + 1 < |x| / 32;
        var p1 := Q4kUnit(dec, w, blk, 2 * j, x, c * 32, xsum[c]);
        UnitInBlock(elem, Q4K, row, x, b, 2 * j);
        acc := acc + p1;
        var p2 := Q4kUnit(dec, w, blk, 2 * j + 1, x, (c + 1) * 32, xsum[c + 1]);
        UnitInBlock(elem, Q4K, row, x, b, 2 * j + 1);
        acc := acc + p2;
      }
    }
    UnitsDotIsRowDot(elem, Q4K, row, x, 0, nb * 8);
  }

  // ---- Q6_K ---------------------------------------------------------------------------------------

  /** The fused sum of one 16-element half of a Q6_K unit. */
  ghost function HalfSum(w: seq<byte>, blk: nat, n: nat, k: nat, half: nat, x: seq<real>, xoff: nat): real {
    Sum(16, (l: nat) => Mul(Q6kQuant(w, blk, n, k, half * 16 + l) as real, At(x, xoff + half * 16 + l)))
  }

  /** That sum under its own scale. */
  ghost function HalfTerm(w: seq<byte>, blk: nat, n: nat, k: nat, half: nat, x: seq<real>, xoff: nat): real {
    Mul(Q6kScale(w, blk, n, k, half) as real, HalfSum(w, blk, n, k, half, x, xoff))
  }

  lemma SumMul(n: nat, c: real, f: nat -> real, h: nat -> real)
    requires forall i: nat :: i < n ==> h(i) == Mul(c, f(i))
    ensures Sum(n, h) == Mul(c, Sum(n, f))
  {
    SumScale(n, c, f, h);
  }

  lemma Regroup(d: real, s: real, q: real, a: real)
    ensures Mul(Mul(Mul(d, s), q), a) == Mul(Mul(d, s), Mul(q, a))
  {
  }

  lemma Distribute(d: real, s0: real, h0: real, s1: real, h1: real)
    ensures Mul(Mul(d, s0), h0) + Mul(Mul(d, s1), h1) == Mul(d, Mul(s0, h0) + Mul(s1, h1))
  {
  }

  /** A unit of two halves, each with its own scale under one block scale. */
  lemma TwoHalves(elem: Elem, blk: nat, sub: nat, x: seq<real>, xoff: nat, d: real, s0: real, s1: real,
                  q: nat -> real, h0: nat -> real, h1: nat -> real)
    requires forall l: nat :: l < 16 ==> elem(blk, sub * 32 + l) == Mul(Mul(d, s0), q(l))
    requires forall l: nat :: 16 <= l < 32 ==> elem(blk, sub * 32 + l) == Mul(Mul(d, s1), q(l))
    requires forall l: nat :: l < 16 ==> h0(l) == Mul(q(l), At(x, xoff + l))
    requires forall l: nat :: l < 16 ==> h1(l) == Mul(q(16 + l), At(x, xoff + 16 + l))
    ensures UnitDot(elem, blk, sub, x, xoff) == Mul(d, Mul(s0, Sum(16, h0)) + Mul(s1, Sum(16, h1)))
  {
    hide Mul, Sum;
    var e := (l: nat) => UnitTerm(elem, blk, sub, x, xoff, l);
    var lo := (l: nat) => e(l);
    var hi := (l: nat) => e(16 + l);
    UnitDotIs(elem, blk, sub, x, xoff, e);
    SumSplit(16, 16, e);
    SumCong(16, lo, e);
    SumCong(16, hi, (l: nat) => e(16 + l));
    forall l: nat | l < 16 ensures lo(l) == Mul(Mul(d, s0), h0(l)) && hi(l) == Mul(Mul(d, s1), h1(l)) {
      Regroup(d, s0, q(l), At(x, xoff + l));
      assert elem(blk, sub * 32 + (16 + l)) == Mul(Mul(d, s1), q(16 + l));
      assert xoff + (16 + l) == xoff + 16 + l;
      Regroup(d, s1, q(16 + l), At(x, xoff + 16 + l));
    }
    SumMul(16, Mul(d, s0), h0, lo);
    SumMul(16, Mul(d, s1), h1, hi);
    Distribute(d, s0, Sum(16, h0), s1, Sum(16, h1));
  }

  lemma Q6kIndex(n: nat, k: nat, l: nat)
    requires n < 2 && k < 4 && l < 32
    ensures var i := (4 * n + k) * 32 + l; i / 128 == n && i % 128 / 32 == k && i % 32 == l
  {
  }

  lemma Q6kElems(dec: Decode, w: seq<byte>, blk: nat, n: nat, k: nat, q: nat -> real)
    requires n < 2 && k < 4
    requires forall l: nat :: l < 32 ==> q(l) == Q6kQuant(w, blk, n, k, l) as real
    ensures forall l: nat :: l < 32 ==>
      Elems(dec, Q6K, w)(blk, (4 * n + k) * 32 + l) == Mul(Mul(dec.half(U16(w, blk + 208)), Q6kScale(w, blk, n, k, l / 16) as real), q(l))
  {
    hide Mul, Q6kQuant, Q6kScale, U16;
    forall l: nat | l < 32
      ensures Elems(dec, Q6K, w)(blk, (4 * n + k) * 32 + l)
           == Mul(Mul(dec.half(U16(w, blk + 208)), Q6kScale(w, blk, n, k, l / 16) as real), q(l))
    {
      Q6kIndex(n, k, l);
    }
  }

  lemma HalfSumIs(w: seq<byte>, blk: nat, n: nat, k: nat, half: nat, x: seq<real>, xoff: nat, h: nat -> real)
    requires forall l: nat :: l < 16 ==> h(l) == Mul(Q6kQuant(w, blk, n, k, half * 16 + l) as real, At(x, xoff + half * 16 + l))
    ensures HalfSum(w, blk, n, k, half, x, xoff) == Sum(16, h)
  {
    hide Sum, Mul, Q6kQuant;
    SumCong(16, h, (l: nat) => Mul(Q6kQuant(w, blk, n, k, half * 16 + l) as real, At(x, xoff + half * 16 + l)));
  }

  /** A Q6_K unit is the block scale times its two half terms. */
  lemma Q6kUnit(dec: Decode, w: seq<byte>, blk: nat, n: nat, k: nat, x: seq<real>, xoff: nat)
    requires n < 2 && k < 4
    ensures UnitDot(Elems(dec, Q6K, w), blk, 4 * n + k, x, xoff)
         == Mul(dec.half(U16(w, blk + 208)), HalfTerm(w, blk, n, k, 0, x, xoff) + HalfTerm(w, blk, n, k, 1, x, xoff))
  {
    hide Mul, Sum, Q6kQuant, Q6kScale, U16, UnitDot, Elems, HalfSum, At;
    var q := (l: nat) => Q6kQuant(w, blk, n, k, l) as real;
    var h0 := (l: nat) => Mul(q(l), At(x, xoff + l));
    var h1 := (l: nat) => Mul(q(16 + l), At(x, xoff + 16 + l));
    Q6kElems(dec, w, blk, n, k, q);
    TwoHalves(Elems(dec, Q6K, w), blk, 4 * n + k, x, xoff, dec.half(U16(w, blk + 208)),
              Q6kScale(w, blk, n, k, 0) as real, Q6kScale(w, blk, n, k, 1) as real, q, h0, h1);
    HalfSumIs(w, blk, n, k, 0, x, xoff, h0);
    HalfSumIs(w, blk, n, k, 1, x, xoff, h1);
  }

  /** One of the four accumulators of a half strip, under its scale. */
  method Q6kHalf(w: seq<byte>, blk: nat, n: nat, k: nat, half: nat, x: seq<real>, xoff: nat) returns (p: real)
    ensures p == HalfTerm(w, blk, n, k, half, x, xoff)
  {
    hide Sum, Mul;
    var term := (l: nat) => Mul(Q6kQuant(w, blk, n, k, half * 16 + l) as real, At(x, xoff + half * 16 + l));
    var s := LaneSum(2, term);
    p := Mul(Q6kScale(w, blk, n, k, half) as real, s);
  }

  /** The four terms of half strip m, counted through both passes of a block. */
  ghost function Strip(w: seq<byte>, blk: nat, m: nat, x: seq<real>, xoff: nat): real {
    var n, half := m / 2, m % 2;
    HalfTerm(w, blk, n, 0, half, x, xoff + n * 128) + HalfTerm(w, blk, n, 1, half, x, xoff + n * 128 + 32)
    + HalfTerm(w, blk, n, 2, half, x, xoff + n * 128 + 64) + HalfTerm(w, blk, n, 3, half, x, xoff + n * 128 + 96)
  }

  ghost function Strips(w: seq<byte>, blk: nat, m: nat, x: seq<real>, xoff: nat): real {
    if m == 0 then 0.0 else Strips(w, blk, m - 1, x, xoff) + Strip(w, blk, m - 1, x, xoff)
  }

  lemma EightTerms(d: real, a: real, b: real, c: real, e: real, f: real, g: real, h: real, i: real)
    ensures Mul(d, a) + Mul(d, b) + Mul(d, c) + Mul(d, e) + Mul(d, f) + Mul(d, g) + Mul(d, h) + Mul(d, i)
         == Mul(d, a + b + c + e + f + g + h + i)
  {
  }

  /** The strip-by-strip total of a block, under the block scale, is its eight units. */
  lemma StripsAreUnits(dec: Decode, w: seq<byte>, row: nat, x: seq<real>, b: nat)
    ensures UnitsDot(Elems(dec, Q6K, w), Q6K, row, x, 0, b * 8 + 8)
         == UnitsDot(Elems(dec, Q6K, w), Q6K, row, x, 0, b * 8)
          + Mul(dec.half(U16(w, row + b * 210 + 208)), Strips(w, row + b * 210, 4, x, b * 256))
  {
    hide Mul, HalfTerm, UnitDot, UnitsDot, Elems, U16;
    var blk, o := row + b * 210, b * 256;
    BlockOfUnits(Elems(dec, Q6K, w), Q6K, row, x, b);
    Q6kUnit(dec, w, blk, 0, 0, x, o);
    Q6kUnit(dec, w, blk, 0, 1, x, o + 32);
    Q6kUnit(dec, w, blk, 0, 2, x, o + 64);
    Q6kUnit(dec, w, blk, 0, 3, x, o + 96);
    Q6kUnit(dec, w, blk, 1, 0, x, o + 128);
    Q6kUnit(dec, w, blk, 1, 1, x, o + 160);
    Q6kUnit(dec, w, blk, 1, 2, x, o + 192);
    Q6kUnit(dec, w, blk, 1, 3, x, o + 224);
    StripsSpelledOut(w, blk, x, o);
    EightTerms(dec.half(U16(w, blk + 208)),
      HalfTerm(w, blk, 0, 0, 0, x, o) + HalfTerm(w, blk, 0, 0, 1, x, o),
      HalfTerm(w, blk, 0, 1, 0, x, o + 32) + HalfTerm(w, blk, 0, 1, 1, x, o + 32),
      HalfTerm(w, blk, 0, 2, 0, x, o + 64) + HalfTerm(w, blk, 0, 2, 1, x, o + 64),
      HalfTerm(w, blk, 0, 3, 0, x, o + 96) + HalfTerm(w, blk, 0, 3, 1, x, o + 96),
      HalfTerm(w, blk, 1, 0, 0, x, o + 128) + HalfTerm(w, blk, 1, 0, 1, x, o + 128),
      HalfTerm(w, blk, 1, 1, 0, x, o + 160) + HalfTerm(w, blk, 1, 1, 1, x, o + 160),
      HalfTerm(w, blk, 1, 2, 0, x, o + 192) + HalfTerm(w, blk, 1, 2, 1, x, o + 192),
      HalfTerm(w, blk, 1, 3, 0, x, o + 224) + HalfTerm(w, blk, 1, 3, 1, x, o + 224));
  }

  lemma StripsSpelledOut(w: seq<byte>, blk: nat, x: seq<real>, o: nat)
    ensures Strips(w, blk, 4, x, o)
      == HalfTerm(w, blk, 0, 0, 0, x, o) + HalfTerm(w, blk, 0, 0, 1, x, o)
       + (HalfTerm(w, blk, 0, 1, 0, x, o + 32) + HalfTerm(w, blk, 0, 1, 1, x, o + 32))
       + (HalfTerm(w, blk, 0, 2, 0, x, o + 64) + HalfTerm(w, blk, 0, 2, 1, x, o + 64))
       + (HalfTerm(w, blk, 0, 3, 0, x, o + 96) + HalfTerm(w, blk, 0, 3, 1, x, o + 96))
       + (HalfTerm(w, blk, 1, 0, 0, x, o + 128) + HalfTerm(w, blk, 1, 0, 1, x, o + 128))
       + (HalfTerm(w, blk, 1, 1, 0, x, o + 160) + HalfTerm(w, blk, 1, 1, 1, x, o + 160))
       + (HalfTerm(w, blk, 1, 2, 0, x, o + 192) + HalfTerm(w, blk, 1, 2, 1, x, o + 192))
       + (HalfTerm(w, blk, 1, 3, 0, x, o + 224) + HalfTerm(w, blk, 1, 3, 1, x, o + 224))
  {
    hide HalfTerm;
    assert Strips(w, blk, 2, x, o) == Strips(w, blk, 1, x, o) + Strip(w, blk, 1, x, o);
    assert Strips(w, blk, 4, x, o) == Strips(w, blk, 3, x, o) + Strip(w, blk, 3, x, o);
  }

  /** `dot_q6k`: nb super-blocks of the row at byte `row`. */
  method DotQ6k(dec: Decode, w: seq<byte>, row: nat, x: seq<real>, nb: nat) returns (acc: real)
    ensures acc == RowDot(Elems(dec, Q6K, w), Q6K, row, x, 0, nb * 256)
  {
    hide UnitDot, UnitOf, RowDot, Elems, HalfTerm, Mul;
    acc := 0.0;
    for b := 0 to nb
      invariant acc == UnitsDot(Elems(dec, Q6K, w), Q6K, row, x, 0, b * 8)
    {
      var blk := row + b * 210;
      var d := dec.half(U16(w, blk + 208));
      var tot := 0.0;
      for n := 0 to 2
        invariant tot == Strips(w, blk, 2 * n, x, b * 256)
      {
        var y := b * 256 + n * 128;
        for half := 0 to 2
          invariant tot == Strips(w, blk, 2 * n + half, x, b * 256)
        {
          var p0 := Q6kHalf(w, blk, n, 0, half, x, y);
          var p1 := Q6kHalf(w, blk, n, 1, half, x, y + 32);
          var p2 := Q6kHalf(w, blk, n, 2, half, x, y + 64);
          var p3 := Q6kHalf(w, blk, n, 3, half, x, y + 96);
          tot := tot + p0;
          tot := tot + p1;
          tot := tot + p2;
          tot := tot + p3;
        }
      }
      StripsAreUnits(dec, w, row, x, b);
      acc := acc + Mul(d, tot);
    }
    UnitsDotIsRowDot(Elems(dec, Q6K, w), Q6K, row, x, 0, nb * 8);
  }

  // ---- MXFP4 --------------------------------------------------------------------------------------

  /** One half of an MXFP4 block: the low or the high nibbles against their 16 activations. */
  ghost function CodeSum(w: seq<byte>, blk: nat, high: bool, x: seq<real>, xoff: nat, n: nat): real {
    if n == 0 then 0.0
    else
      CodeSum(w, blk, high, x, xoff, n - 1) + Mul(E2m1(Nibble(B(w, blk + 1 + (n - 1)), high)) as real, At(x, xoff + (n - 1)))
  }

  lemma {:induction false} CodeSumIs(w: seq<byte>, blk: nat, high: bool, x: seq<real>, xoff: nat, n: nat, d: real, e: nat -> real)
    requires forall l: nat :: l < n ==>
      e(l) == Mul(Mul(E2m1(Nibble(B(w, blk + 1 + l), high)) as real, d), At(x, xoff + l))
    ensures Sum(n, e) == Mul(d, CodeSum(w, blk, high, x, xoff, n))
  {
    hide E2m1, Nibble, B, At;
    if n > 0 {
      CodeSumIs(w, blk, high, x, xoff, n - 1, d, e);
      CodeStep(d, E2m1(Nibble(B(w, blk + 1 + (n - 1)), high)) as real, At(x, xoff + (n - 1)),
               CodeSum(w, blk, high, x, xoff, n - 1));
    } else {
      assert Mul(d, 0.0) == 0.0;
    }
  }

  lemma CodeStep(d: real, q: real, a: real, rest: real)
    ensures Mul(d, rest) + Mul(Mul(q, d), a) == Mul(d, rest + Mul(q, a))
  {
  }

  lemma Mxfp4Unit(dec: Decode, w: seq<byte>, blk: nat, x: seq<real>, xoff: nat)
    ensures UnitDot(Elems(dec, Mxfp4, w), blk, 0, x, xoff)
         == Mul(dec.e8m0(B(w, blk)),
                CodeSum(w, blk, false, x, xoff, 16) + CodeSum(w, blk, true, x, xoff + 16, 16))
  {
    hide CodeSum, Sum, E2m1, Nibble, B, At, UnitDot;
    var d := dec.e8m0(B(w, blk));
    var elem := Elems(dec, Mxfp4, w);
    var e := (l: nat) => UnitTerm(elem, blk, 0, x, xoff, l);
    var lo := (l: nat) => e(l);
    var hi := (l: nat) => e(16 + l);
    UnitDotIs(elem, blk, 0, x, xoff, e);
    SumSplit(16, 16, e);
    SumCong(16, lo, e);
    SumCong(16, hi, (l: nat) => e(16 + l));
    forall l: nat | l < 16
      ensures lo(l) == Mul(Mul(E2m1(Nibble(B(w, blk + 1 + l), false)) as real, d), At(x, xoff + l))
      ensures hi(l) == Mul(Mul(E2m1(Nibble(B(w, blk + 1 + l), true)) as real, d), At(x, xoff + 16 + l))
    {
      assert (16 + l) % 16 == l && l % 16 == l;
      assert xoff + (16 + l) == xoff + 16 + l;
    }
    CodeSumIs(w, blk, false, x, xoff, 16, d, lo);
    CodeSumIs(w, blk, true, x, xoff + 16, 16, d, hi);
    assert Mul(d, CodeSum(w, blk, false, x, xoff, 16)) + Mul(d, CodeSum(w, blk, true, x, xoff + 16, 16))
      == Mul(d, CodeSum(w, blk, false, x, xoff, 16) + CodeSum(w, blk, true, x, xoff + 16, 16));
  }

  /** `dot_mxfp4`: nb blocks of the row at byte `row`. */
  method DotMxfp4(dec: Decode, w: seq<byte>, row: nat, x: seq<real>, nb: nat) returns (acc: real)
    ensures acc == RowDot(Elems(dec, Mxfp4, w), Mxfp4, row, x, 0, nb * 32)
  {
    hide UnitDot, RowDot, Elems, Mul, E2m1, Nibble, B, At;
    acc := 0.0;
    for b := 0 to nb
      invariant acc == UnitsDot(Elems(dec, Mxfp4, w), Mxfp4, row, x, 0, b)
    {
      var blk := row + b * 17;
      var d := dec.e8m0(B(w, blk));
      var lo, hi := 0.0, 0.0;
      for l := 0 to 16
        invariant lo == CodeSum(w, blk, false, x, b * 32, l)
        invariant hi == CodeSum(w, blk, true, x, b * 32 + 16, l)
      {
        var code := B(w, blk + 1 + l);
        lo := lo + Mul(E2m1(Nibble(code, false)) as real, At(x, b * 32 + l));
        hi := hi + Mul(E2m1(Nibble(code, true)) as real, At(x, b * 32 + 16 + l));
      }
      Mxfp4Unit(dec, w, blk, x, b * 32);
      acc := acc + Mul(d, lo + hi);
    }
    UnitsDotIsRowDot(Elems(dec, Mxfp4, w), Mxfp4, row, x, 0, nb);
  }
}
