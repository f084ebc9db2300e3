/**
 The block formats written out the other way: a block's scales, minima and quants packed into bytes as ggml
 packs them. Reading a packed block gives back what went in, which says what every field of a format is.
 */
module QuantLayout {
  import opened Bytes
  import opened Quant

  // ---- fields ------------------------------------------------------------------------------------

  /** A signed byte in two's complement. */
  function Signed(v: int): byte
    requires -128 <= v < 128
  {
    if v < 0 then v + 256 else v
  }

  predicate Below(s: seq<nat>, n: nat, top: nat) {
    |s| == n && forall i :: 0 <= i < n ==> s[i] < top
  }

  predicate Between(s: seq<int>, n: nat, bottom: int, top: int) {
    |s| == n && forall i :: 0 <= i < n ==> bottom <= s[i] < top
  }

  lemma HasByte(w: seq<byte>, at: nat, b: seq<byte>, i: nat)
    requires Has(w, at, b) && i < |b|
    ensures B(w, at + i) == b[i]
  {
    assert w[at..at + |b|][i] == b[i];
  }

  lemma HasHalf(w: seq<byte>, at: nat, h: nat)
    requires h < 0x1_0000 && Has(w, at, Written(h, 2))
    ensures U16(w, at) == h
  {
    Bytes.ReadBack(w, at, h, 2);
    assert Le(w, at, 2) == w[at] + 256 * Le(w, at + 1, 1);
  }

  lemma HasWord(w: seq<byte>, at: nat, v: nat)
    requires v < 0x1_0000_0000 && Has(w, at, Written(v, 4))
    ensures U32(w, at) == v
  {
    Bytes.ReadBack(w, at, v, 4);
    assert Le(w, at, 4) == w[at] + 256 * Le(w, at + 1, 3);
    assert Le(w, at + 1, 3) == w[at + 1] + 256 * Le(w, at + 2, 2);
    assert Le(w, at + 2, 2) == w[at + 2] + 256 * Le(w, at + 3, 1);
  }

  // ---- the twelve bytes of Q4_K and Q5_K ---------------------------------------------------------

  /**
   Eight scales and eight minima of six bits each in twelve bytes: the first four of each lie in the low bits
   of bytes 0-3 and 4-7, whose top two bits take the high bits of the last four; their low nibbles share
   bytes 8-11.
   */
  function PackScales(sc: seq<nat>, mn: seq<nat>): (b: seq<byte>)
    requires Below(sc, 8, 64) && Below(mn, 8, 64)
    ensures |b| == 12
  {
    seq(12, i requires 0 <= i < 12 =>
      if i < 4 then sc[i] + 64 * (sc[i + 4] / 16)
      else if i < 8 then mn[i - 4] + 64 * (mn[i] / 16)
      else sc[i - 4] % 16 + 16 * (mn[i - 4] % 16))
  }

  /** Every scale and every minimum is read back. */
  lemma ScalesReadBack(w: seq<byte>, at: nat, sc: seq<nat>, mn: seq<nat>, j: nat)
    requires Below(sc, 8, 64) && Below(mn, 8, 64) && j < 8 && Has(w, at, PackScales(sc, mn))
    ensures ScaleMin(w, at, j) == (sc[j], mn[j])
  {
    var p := PackScales(sc, mn);
    HasByte(w, at, p, j);
    HasByte(w, at, p, j + 4);
    if j < 4 {
      SixAndTwo(sc[j], sc[j + 4] / 16);
      SixAndTwo(mn[j], mn[j + 4] / 16);
    } else {
      HasByte(w, at, p, j - 4);
      SixAndTwo(sc[j - 4], sc[j] / 16);
      SixAndTwo(mn[j - 4], mn[j] / 16);
      TwoNibbles(sc[j] % 16, mn[j] % 16);
    }
  }

  lemma SixAndTwo(low: nat, high: nat)
    requires low < 64 && high < 4
    ensures low + 64 * high < 256 && (low + 64 * high) % 64 == low && (low + 64 * high) / 64 == high
  {
  }

  lemma TwoNibbles(low: nat, high: nat)
    requires low < 16 && high < 16
    ensures low + 16 * high < 256 && (low + 16 * high) % 16 == low && (low + 16 * high) / 16 == high
  {
  }

  /** 256 nibbles in 128 bytes: each run of 32 bytes takes one run of 32 in its low half and the next in its high. */
  function PackNibbles(q: seq<nat>): (b: seq<byte>)
    requires Below(q, 256, 16)
    ensures |b| == 128
  {
    seq(128, i requires 0 <= i < 128 => q[i / 32 * 64 + i % 32] + 16 * q[i / 32 * 64 + 32 + i % 32])
  }

  lemma NibbleReadBack(w: seq<byte>, at: nat, q: seq<nat>, i: nat)
    requires Below(q, 256, 16) && i < 256 && Has(w, at, PackNibbles(q))
    ensures Nibble(B(w, at + i / 32 / 2 * 32 + i % 32), i / 32 % 2 == 1) == q[i]
  {
    var c := i / 32 / 2 * 32 + i % 32;
    assert c / 32 == i / 32 / 2 && c % 32 == i % 32;
    HasByte(w, at, PackNibbles(q), c);
    TwoNibbles(q[c / 32 * 64 + c % 32], q[c / 32 * 64 + 32 + c % 32]);
  }

  // ---- whole blocks ------------------------------------------------------------------------------

  /** What a block stands for, by format. */
  datatype Block =
    | BlockQ4K(d: nat, dmin: nat, sc: seq<nat>, mn: seq<nat>, q: seq<nat>)
    | BlockQ5K(d: nat, dmin: nat, sc: seq<nat>, mn: seq<nat>, q: seq<nat>)
    | BlockQ6K(d: nat, scales: seq<int>, v: seq<int>)
    | BlockQ80(d: nat, v: seq<int>)
    | BlockMxfp4(e: byte, codes: seq<Code>)

  /** An E2M1 number: a sign, two bits of exponent and one of mantissa. */
  datatype Code = Code(negative: bool, exp: nat, mant: nat)
  {
    predicate Valid() { exp < 4 && mant < 2 }

    function Bits(): (c: nat)
      requires Valid()
      ensures c < 16
    {
      (if negative then 8 else 0) + 2 * exp + mant
    }

    /** The number: subnormal without an exponent, else 1.m times 2^(exp - 1). */
    function Value(): real
      requires Valid()
    {
      var magnitude :=
        if exp == 0 then mant as real / 2.0
        else (1.0 + mant as real / 2.0) * (if exp == 1 then 1.0 else if exp == 2 then 2.0 else 4.0);
      if negative then -magnitude else magnitude
    }
  }

  /** The table holds the E2M1 numbers doubled. */
  lemma TableIsDoubled(c: Code)
    requires c.Valid()
    ensures E2m1(c.Bits()) as real == 2.0 * c.Value()
  {
  }

  predicate Valid(b: Block) {
    match b
    case BlockQ4K(d, dmin, sc, mn, q) =>
      d < 0x1_0000 && dmin < 0x1_0000 && Below(sc, 8, 64) && Below(mn, 8, 64) && Below(q, 256, 16)
    case BlockQ5K(d, dmin, sc, mn, q) =>
      d < 0x1_0000 && dmin < 0x1_0000 && Below(sc, 8, 64) && Below(mn, 8, 64) && Below(q, 256, 32)
    case BlockQ6K(d, scales, v) => d < 0x1_0000 && Between(scales, 16, -128, 128) && Between(v, 256, -32, 32)
    case BlockQ80(d, v) => d < 0x1_0000 && Between(v, 32, -128, 128)
    case BlockMxfp4(_, codes) => |codes| == 32 && forall i :: 0 <= i < 32 ==> codes[i].Valid()
  }

  function TypeFor(b: Block): QuantType {
    match b
    case BlockQ4K(_, _, _, _, _) => Q4K
    case BlockQ5K(_, _, _, _, _) => Q5K
    case BlockQ6K(_, _, _) => Q6K
    case BlockQ80(_, _) => Q80
    case BlockMxfp4(_, _) => Mxfp4
  }

  /** Elements of a block. */
  function Size(b: Block): nat { if b.BlockQ80? || b.BlockMxfp4? then 32 else 256 }

  function LowNibbles(q: seq<nat>): (s: seq<nat>)
    ensures |s| == |q| && forall i :: 0 <= i < |q| ==> s[i] == q[i] % 16 < 16
  {
    seq(|q|, i requires 0 <= i < |q| => q[i] % 16)
  }

  /** The number with these bits, lowest first. */
  function FromBits(bits: seq<nat>): nat {
    if bits == [] then 0 else bits[0] + 2 * FromBits(bits[1..])
  }

  lemma {:induction false} BitsFit(bits: seq<nat>)
    requires |bits| <= 8 && forall k :: 0 <= k < |bits| ==> bits[k] < 2
    ensures FromBits(bits) < [1, 2, 4, 8, 16, 32, 64, 128, 256][|bits|]
  {
    if bits != [] {
      BitsFit(bits[1..]);
    }
  }

  /** The fifth bits of the l-th elements of the eight runs of 32. */
  function FifthBits(q: seq<nat>, l: nat): (bits: seq<nat>)
    requires Below(q, 256, 32) && l < 32
    ensures |bits| == 8 && forall k :: 0 <= k < 8 ==> bits[k] == q[32 * k + l] / 16 < 2
  {
    seq(8, k requires 0 <= k < 8 => q[32 * k + l] / 16)
  }

  function FifthByte(q: seq<nat>, l: nat): byte
    requires Below(q, 256, 32) && l < 32
  {
    BitsFit(FifthBits(q, l));
    FromBits(FifthBits(q, l))
  }

  /** The fifth bits of Q5_K: bit k of byte l belongs to element l of run k. */
  function PackHighBits(q: seq<nat>): (b: seq<byte>)
    requires Below(q, 256, 32)
    ensures |b| == 32
  {
    seq(32, l requires 0 <= l < 32 => FifthByte(q, l))
  }

  /** The low nibbles of Q6_K: byte 64n + c has pass n's element c below and its element 64 + c above. */
  function PackLowSix(v: seq<int>): (b: seq<byte>)
    requires Between(v, 256, -32, 32)
    ensures |b| == 128
  {
    seq(128, i requires 0 <= i < 128 =>
      (v[i / 64 * 128 + i % 64] + 32) % 16 + 16 * ((v[i / 64 * 128 + 64 + i % 64] + 32) % 16))
  }

  /** The high pairs of Q6_K: byte 32n + l has those of pass n's elements l, 32 + l, 64 + l and 96 + l. */
  function PackHighSix(v: seq<int>): (b: seq<byte>)
    requires Between(v, 256, -32, 32)
    ensures |b| == 64
  {
    seq(64, i requires 0 <= i < 64 =>
      (v[i / 32 * 128 + i % 32] + 32) / 16 + 4 * ((v[i / 32 * 128 + 32 + i % 32] + 32) / 16)
      + 16 * ((v[i / 32 * 128 + 64 + i % 32] + 32) / 16) + 64 * ((v[i / 32 * 128 + 96 + i % 32] + 32) / 16))
  }

  function PackSigned(v: seq<int>): (b: seq<byte>)
    requires forall i :: 0 <= i < |v| ==> -128 <= v[i] < 128
    ensures |b| == |v|
  {
    seq(|v|, i requires 0 <= i < |v| => Signed(v[i]))
  }

  /** The codes of MXFP4: byte i has element i below and element 16 + i above. */
  function PackCodes(codes: seq<Code>): (b: seq<byte>)
    requires |codes| == 32 && forall i :: 0 <= i < 32 ==> codes[i].Valid()
    ensures |b| == 16
  {
    seq(16, i requires 0 <= i < 16 => codes[i].Bits() + 16 * codes[16 + i].Bits())
  }

  function Pack(b: Block): seq<byte>
    requires Valid(b)
  {
    match b
    case BlockQ4K(d, dmin, sc, mn, q) => Written(d, 2) + (Written(dmin, 2) + (PackScales(sc, mn) + PackNibbles(q)))
    case BlockQ5K(d, dmin, sc, mn, q) =>
      Written(d, 2) + (Written(dmin, 2) + (PackScales(sc, mn) + (PackHighBits(q) + PackNibbles(LowNibbles(q)))))
    case BlockQ6K(d, scales, v) => PackLowSix(v) + (PackHighSix(v) + (PackSigned(scales) + Written(d, 2)))
    case BlockQ80(d, v) => Written(d, 2) + PackSigned(v)
    case BlockMxfp4(e, codes) => [e] + PackCodes(codes)
  }

  /** Element i: scale times quant, less the minimum where there is one. */
  function ValueOf(dec: Decode, b: Block, i: nat): real
    requires Valid(b) && i < Size(b)
  {
    match b
    case BlockQ4K(d, dmin, sc, mn, q) =>
      dec.half(d) * (sc[i / 32] as real) * (q[i] as real) - dec.half(dmin) * (mn[i / 32] as real)
    case BlockQ5K(d, dmin, sc, mn, q) =>
      dec.half(d) * (sc[i / 32] as real) * (q[i] as real) - dec.half(dmin) * (mn[i / 32] as real)
    case BlockQ6K(d, scales, v) => dec.half(d) * (scales[i / 16] as real) * (v[i] as real)
    case BlockQ80(d, v) => dec.half(d) * (v[i] as real)
    case BlockMxfp4(e, codes) => 2.0 * dec.e8m0(e) * codes[i].Value()
  }

  // ---- reading a packed block --------------------------------------------------------------------

  lemma PartsOfQ4K(w: seq<byte>, at: nat, b: Block)
    requires Valid(b) && b.BlockQ4K? && Has(w, at, Pack(b))
    ensures U16(w, at) == b.d && U16(w, at + 2) == b.dmin && Has(w, at + 4, PackScales(b.sc, b.mn))
    ensures Has(w, at + 16, PackNibbles(b.q))
  {
    hide PackScales, PackNibbles, U16, Written, Has;
    HasBoth(w, at, Written(b.d, 2), Written(b.dmin, 2) + (PackScales(b.sc, b.mn) + PackNibbles(b.q)));
    HasBoth(w, at + 2, Written(b.dmin, 2), PackScales(b.sc, b.mn) + PackNibbles(b.q));
    HasBoth(w, at + 4, PackScales(b.sc, b.mn), PackNibbles(b.q));
    HasHalf(w, at, b.d);
    HasHalf(w, at + 2, b.dmin);
  }

  lemma ReadQ4K(dec: Decode, w: seq<byte>, at: nat, b: Block, i: nat)
    requires Valid(b) && b.BlockQ4K? && Has(w, at, Pack(b)) && i < 256
    ensures Q4kElem(dec, w, at, i) == ValueOf(dec, b, i)
  {
    hide Pack, ScaleMin, PackScales, PackNibbles, Nibble, U16, B, Has;
    PartsOfQ4K(w, at, b);
    WhereInQ5K(i);
    ScalesReadBack(w, at + 4, b.sc, b.mn, i / 32);
    NibbleReadBack(w, at + 16, b.q, i);
  }

  lemma HighBitReadBack(w: seq<byte>, at: nat, q: seq<nat>, k: nat, l: nat)
    requires Below(q, 256, 32) && k < 8 && l < 32 && Has(w, at, PackHighBits(q))
    ensures Bit(B(w, at + l), k) == q[32 * k + l] / 16
  {
    HasByte(w, at, PackHighBits(q), l);
    hide FromBits, Bit, B;
    BitOfBits(FifthBits(q, l), k);
  }

  /** Halving k times and taking the remainder finds bit k. */
  lemma BitOfBits(bits: seq<nat>, k: nat)
    requires |bits| == 8 && k < 8 && forall i :: 0 <= i < 8 ==> bits[i] < 2
    ensures FromBits(bits) < 256 && Bit(FromBits(bits), k) == bits[k]
  {
    BitsFit(bits);
    hide Bit;
    DropBits(bits, k);
    var s := FromBits(bits);
    Tail(bits, k);
    hide FromBits;
    BitIs(s, k);
  }

  lemma Tail(bits: seq<nat>, k: nat)
    requires k < |bits| && bits[k] < 2
    ensures FromBits(bits[k..]) % 2 == bits[k]
  {
    assert bits[k..][0] == bits[k];
  }

  /** `s >> k`. */
  function Shifted(s: nat, k: nat): nat { if k == 0 then s else Shifted(s, k - 1) / 2 }

  lemma {:induction false} DropBits(bits: seq<nat>, k: nat)
    requires k < |bits| && forall i :: 0 <= i < |bits| ==> bits[i] < 2
    ensures Shifted(FromBits(bits), k) == FromBits(bits[k..])
  {
    if k == 0 {
      assert bits[0..] == bits;
    } else {
      DropBits(bits, k - 1);
      assert bits[k - 1..][1..] == bits[k..];
    }
  }

  lemma BitIs(s: byte, k: nat)
    requires k < 8
    ensures Bit(s, k) == Shifted(s, k) % 2
  {
    assert Shifted(s, 1) == Shifted(s, 0) / 2;
    assert Shifted(s, 2) == Shifted(s, 1) / 2 == s / 4;
    assert Shifted(s, 3) == Shifted(s, 2) / 2 == s / 8;
    assert Shifted(s, 4) == Shifted(s, 3) / 2 == s / 16;
    assert Shifted(s, 5) == Shifted(s, 4) / 2 == s / 32;
    assert Shifted(s, 6) == Shifted(s, 5) / 2 == s / 64;
    assert Shifted(s, 7) == Shifted(s, 6) / 2 == s / 128;
  }

  lemma PartsOfQ5K(w: seq<byte>, at: nat, b: Block)
    requires Valid(b) && b.BlockQ5K? && Has(w, at, Pack(b))
    ensures U16(w, at) == b.d && U16(w, at + 2) == b.dmin && Has(w, at + 4, PackScales(b.sc, b.mn))
    ensures Has(w, at + 16, PackHighBits(b.q)) && Has(w, at + 48, PackNibbles(LowNibbles(b.q)))
  {
    hide PackScales, PackNibbles, PackHighBits, LowNibbles, U16, Written, Has;
    var low := LowNibbles(b.q);
    var bits := PackHighBits(b.q) + PackNibbles(low);
    HasBoth(w, at, Written(b.d, 2), Written(b.dmin, 2) + (PackScales(b.sc, b.mn) + bits));
    HasBoth(w, at + 2, Written(b.dmin, 2), PackScales(b.sc, b.mn) + bits);
    HasBoth(w, at + 4, PackScales(b.sc, b.mn), bits);
    HasBoth(w, at + 16, PackHighBits(b.q), PackNibbles(low));
    HasHalf(w, at, b.d);
    HasHalf(w, at + 2, b.dmin);
  }

  lemma WhereInQ5K(i: nat)
    requires i < 256
    ensures i / 32 < 8 && i % 32 < 32 && 2 * (i / 32 / 2) + i / 32 % 2 == i / 32 && 32 * (i / 32) + i % 32 == i
  {
  }

  /** Low nibble and high bit put together. */
  lemma FiveBits(w: seq<byte>, at: nat, q: seq<nat>, i: nat)
    requires Below(q, 256, 32) && i < 256
    requires Has(w, at + 16, PackHighBits(q)) && Has(w, at + 48, PackNibbles(LowNibbles(q)))
    ensures Q5kQuant(w, at, i / 32, i % 32) == q[i]
  {
    hide PackNibbles, PackHighBits, Nibble, Bit, B, Has;
    WhereInQ5K(i);
    NibbleReadBack(w, at + 48, LowNibbles(q), i);
    HighBitReadBack(w, at + 16, q, i / 32, i % 32);
    assert q[i] == q[i] % 16 + 16 * (q[i] / 16);
  }

  lemma ReadQ5K(dec: Decode, w: seq<byte>, at: nat, b: Block, i: nat)
    requires Valid(b) && b.BlockQ5K? && Has(w, at, Pack(b)) && i < 256
    ensures Q5kElem(dec, w, at, i) == ValueOf(dec, b, i)
  {
    hide Pack, ScaleMin, PackScales, PackNibbles, PackHighBits, LowNibbles, Q5kQuant, U16, Has;
    PartsOfQ5K(w, at, b);
    WhereInQ5K(i);
    ScalesReadBack(w, at + 4, b.sc, b.mn, i / 32);
    FiveBits(w, at, b.q, i);
  }

  lemma PartsOfQ6K(w: seq<byte>, at: nat, b: Block)
    requires Valid(b) && b.BlockQ6K? && Has(w, at, Pack(b))
    ensures Has(w, at, PackLowSix(b.v)) && Has(w, at + 128, PackHighSix(b.v)) && Has(w, at + 192, PackSigned(b.scales))
    ensures U16(w, at + 208) == b.d
  {
    hide PackLowSix, PackHighSix, PackSigned, U16, Written, Has;
    HasBoth(w, at, PackLowSix(b.v), PackHighSix(b.v) + (PackSigned(b.scales) + Written(b.d, 2)));
    HasBoth(w, at + 128, PackHighSix(b.v), PackSigned(b.scales) + Written(b.d, 2));
    HasBoth(w, at + 192, PackSigned(b.scales), Written(b.d, 2));
    HasHalf(w, at + 208, b.d);
  }

  lemma WhereInQ6K(i: nat)
    requires i < 256
    ensures var n, k, l := i / 128, i % 128 / 32, i % 32;
      n < 2 && k < 4 && l < 32 && 128 * n + 32 * k + l == i && n * 8 + 2 * k + l / 16 == i / 16
  {
  }

  lemma ReadQ6K(dec: Decode, w: seq<byte>, at: nat, b: Block, i: nat)
    requires Valid(b) && b.BlockQ6K? && Has(w, at, Pack(b)) && i < 256
    ensures Q6kElem(dec, w, at, i) == ValueOf(dec, b, i)
  {
    hide Pack, PackLowSix, PackHighSix, PackSigned, Q6kQuant, U16, B, Has, SByte;
    PartsOfQ6K(w, at, b);
    WhereInQ6K(i);
    var n, k, l := i / 128, i % 128 / 32, i % 32;
    SixReadBack(w, at, b.v, n, k, l);
    SignedReadBack(w, at + 192, b.scales, i / 16);
  }

  lemma SignedReadBack(w: seq<byte>, at: nat, v: seq<int>, i: nat)
    requires (forall j :: 0 <= j < |v| ==> -128 <= v[j] < 128) && i < |v| && Has(w, at, PackSigned(v))
    ensures SByte(B(w, at + i)) == v[i]
  {
    HasByte(w, at, PackSigned(v), i);
  }

  lemma SixReadBack(w: seq<byte>, at: nat, v: seq<int>, n: nat, k: nat, l: nat)
    requires Between(v, 256, -32, 32) && n < 2 && k < 4 && l < 32
    requires Has(w, at, PackLowSix(v)) && Has(w, at + 128, PackHighSix(v))
    ensures Q6kQuant(w, at, n, k, l) == v[128 * n + 32 * k + l]
  {
    var c, p := n * 64 + k % 2 * 32 + l, n * 32 + l;
    LowByte(v, n, k, l);
    HasByte(w, at, PackLowSix(v), c);
    HasByte(w, at + 128, PackHighSix(v), p);
    HighByte(v, n, l, k);
    hide PackLowSix, PackHighSix, B;
    var u := v[128 * n + 32 * k + l] + 32;
    assert u == u % 16 + 16 * (u / 16);
  }

  lemma LowByte(v: seq<int>, n: nat, k: nat, l: nat)
    requires Between(v, 256, -32, 32) && n < 2 && k < 4 && l < 32
    ensures Nibble(PackLowSix(v)[n * 64 + k % 2 * 32 + l], k >= 2) == (v[128 * n + 32 * k + l] + 32) % 16
  {
    var c := n * 64 + k % 2 * 32 + l;
    assert c / 64 == n && c % 64 == k % 2 * 32 + l;
    TwoNibbles((v[c / 64 * 128 + c % 64] + 32) % 16, (v[c / 64 * 128 + 64 + c % 64] + 32) % 16);
  }

  lemma HighByte(v: seq<int>, n: nat, l: nat, k: nat)
    requires Between(v, 256, -32, 32) && n < 2 && k < 4 && l < 32
    ensures Pair(PackHighSix(v)[n * 32 + l], k) == (v[128 * n + 32 * k + l] + 32) / 16
  {
    var p := n * 32 + l;
    assert p / 32 == n && p % 32 == l;
    FourPairs((v[128 * n + l] + 32) / 16, (v[128 * n + 32 + l] + 32) / 16, (v[128 * n + 64 + l] + 32) / 16,
              (v[128 * n + 96 + l] + 32) / 16);
  }

  lemma FourPairs(a: nat, b: nat, c: nat, d: nat)
    requires a < 4 && b < 4 && c < 4 && d < 4
    ensures var s := a + 4 * b + 16 * c + 64 * d;
      s < 256 && Pair(s, 0) == a && Pair(s, 1) == b && Pair(s, 2) == c && Pair(s, 3) == d
  {
  }

  lemma ReadQ80(dec: Decode, w: seq<byte>, at: nat, b: Block, i: nat)
    requires Valid(b) && b.BlockQ80? && Has(w, at, Pack(b)) && i < 32
    ensures Q80Elem(dec, w, at, i) == ValueOf(dec, b, i)
  {
    hide PackSigned, U16, B, Written, Has;
    HasBoth(w, at, Written(b.d, 2), PackSigned(b.v));
    HasHalf(w, at, b.d);
    SignedReadBack(w, at + 2, b.v, i);
  }

  lemma PartsOfMxfp4(w: seq<byte>, at: nat, b: Block)
    requires Valid(b) && b.BlockMxfp4? && Has(w, at, Pack(b))
    ensures B(w, at) == b.e && Has(w, at + 1, PackCodes(b.codes))
  {
    hide Has, PackCodes;
    HasBoth(w, at, [b.e], PackCodes(b.codes));
    HasByte(w, at, [b.e], 0);
  }

  lemma ReadMxfp4(dec: Decode, w: seq<byte>, at: nat, b: Block, i: nat)
    requires Valid(b) && b.BlockMxfp4? && Has(w, at, Pack(b)) && i < 32
    ensures Mxfp4Elem(dec, w, at, i) == ValueOf(dec, b, i)
  {
    hide Pack, E2m1, B, Has, PackCodes, Code.Bits, Code.Value, Nibble;
    PartsOfMxfp4(w, at, b);
    HasByte(w, at + 1, PackCodes(b.codes), i % 16);
    CodeReadBack(b.codes, i);
    TableIsDoubled(b.codes[i]);
  }

  lemma CodeReadBack(codes: seq<Code>, i: nat)
    requires |codes| == 32 && (forall j :: 0 <= j < 32 ==> codes[j].Valid()) && i < 32
    ensures Nibble(PackCodes(codes)[i % 16], i >= 16) == codes[i].Bits()
  {
    hide Code.Bits;
    TwoNibbles(codes[i % 16].Bits(), codes[16 + i % 16].Bits());
  }

  /** Element i of a packed block, in any format, is what was packed. */
  lemma BlockReadBack(dec: Decode, w: seq<byte>, at: nat, b: Block, i: nat)
    requires Valid(b) && Has(w, at, Pack(b)) && i < Size(b)
    ensures ElemAt(dec, TypeFor(b), w, at, i) == ValueOf(dec, b, i)
  {
    hide Q4kElem, Q5kElem, Q6kElem, Q80Elem, Mxfp4Elem, Pack, Valid, ValueOf, Has;
    match b
    case BlockQ4K(_, _, _, _, _) => ReadQ4K(dec, w, at, b, i);
    case BlockQ5K(_, _, _, _, _) => ReadQ5K(dec, w, at, b, i);
    case BlockQ6K(_, _, _) => ReadQ6K(dec, w, at, b, i);
    case BlockQ80(_, _) => ReadQ80(dec, w, at, b, i);
    case BlockMxfp4(_, _) => ReadMxfp4(dec, w, at, b, i);
  }
}
