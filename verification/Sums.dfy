/** Finite sums of reals: the exact arithmetic every numeric module reasons in. */
module Sums {

  /** A product under a name, so that the verifier sees at once that equal factors give equal products. */
  function Mul(a: real, b: real): real { a * b }

  /**
   f(0) + f(1) + ... + f(n-1). The second part of the measure only keeps the verifier from
   unfolding a sum all the way down when its bound is a literal.
   */
  ghost function Sum(n: nat, f: nat -> real): real
    decreases n, f(0)
  {
    if n == 0 then 0.0 else Sum(n - 1, f) + f(n - 1)
  }

  lemma {:induction false} SumCong(n: nat, f: nat -> real, g: nat -> real)
    requires forall i :: 0 <= i < n ==> f(i) == g(i)
    ensures Sum(n, f) == Sum(n, g)
  {
    if n > 0 {
      SumCong(n - 1, f, g);
    }
  }

  lemma {:induction false} SumZero(n: nat, f: nat -> real)
    requires forall i :: 0 <= i < n ==> f(i) == 0.0
    ensures Sum(n, f) == 0.0
  {
    if n > 0 {
      SumZero(n - 1, f);
    }
  }

  lemma {:induction false} SumAdd(n: nat, f: nat -> real, g: nat -> real, h: nat -> real)
    requires forall i :: 0 <= i < n ==> h(i) == f(i) + g(i)
    ensures Sum(n, h) == Sum(n, f) + Sum(n, g)
  {
    if n > 0 {
      SumAdd(n - 1, f, g, h);
    }
  }

  lemma {:induction false} SumScale(n: nat, c: real, f: nat -> real, h: nat -> real)
    requires forall i :: 0 <= i < n ==> h(i) == c * f(i)
    ensures Sum(n, h) == c * Sum(n, f)
  {
    if n > 0 {
      SumScale(n - 1, c, f, h);
    }
  }

  lemma {:induction false} SumSplit(n: nat, m: nat, f: nat -> real)
    ensures Sum(n + m, f) == Sum(n, f) + Sum(m, (i: nat) => f(n + i))
  {
    var g := (i: nat) => f(n + i);
    if m > 0 {
      SumSplit(n, m - 1, f);
      SumCong(m - 1, (i: nat) => f(n + i), g);
      assert n + m - 1 == n + (m - 1);
      assert Sum(n + m, f) == Sum(n + m - 1, f) + f(n + m - 1);
    }
  }

  /** A sum over a*b terms is a sum of a blocks of b terms. */
  lemma {:induction false} SumBlocks(a: nat, b: nat, f: nat -> real, g: nat -> real)
    requires forall i :: 0 <= i < a ==> g(i) == Sum(b, (j: nat) => f(i * b + j))
    ensures Sum(a * b, f) == Sum(a, g)
  {
    if a > 0 {
      SumBlocks(a - 1, b, f, g);
      var n := (a - 1) * b;
      assert a * b == n + b;
      SumSplit(n, b, f);
      SumCong(b, (j: nat) => f(n + j), (j: nat) => f((a - 1) * b + j));
    } else {
      assert a * b == 0;
    }
  }

  /** Two nested sums commute. */
  lemma {:induction false} SumSwap(a: nat, b: nat, f: (nat, nat) -> real, rows: nat -> real, cols: nat -> real)
    requires forall i :: 0 <= i < a ==> rows(i) == Sum(b, (j: nat) => f(i, j))
    requires forall j :: 0 <= j < b ==> cols(j) == Sum(a, (i: nat) => f(i, j))
    ensures Sum(a, rows) == Sum(b, cols)
  {
    if a == 0 {
      SumZero(b, cols);
    } else {
      var cols' := (j: nat) => Sum(a - 1, (i: nat) => f(i, j));
      SumSwap(a - 1, b, f, rows, cols');
      forall j | 0 <= j < b ensures cols(j) == cols'(j) + f(a - 1, j) {
        SumCong(a - 1, (i: nat) => f(i, j), (i: nat) => f(i, j));
      }
      SumAdd(b, cols', (j: nat) => f(a - 1, j), cols);
    }
  }

  /** The sum of a contiguous run of a buffer. */
  ghost function SumRange(s: seq<real>, lo: nat, hi: nat): real
    requires lo <= hi <= |s|
    decreases hi - lo
  {
    if lo == hi then 0.0 else SumRange(s, lo, hi - 1) + s[hi - 1]
  }

  lemma {:induction false} SumRangeCong(s: seq<real>, t: seq<real>, lo: nat, hi: nat, off: nat)
    requires lo <= hi <= |s| && off + hi <= |t|
    requires forall i :: lo <= i < hi ==> s[i] == t[off + i]
    ensures SumRange(s, lo, hi) == SumRange(t, off + lo, off + hi)
    decreases hi - lo
  {
    if lo < hi {
      SumRangeCong(s, t, lo, hi - 1, off);
      assert s[hi - 1] == t[off + (hi - 1)];
    }
  }

  lemma {:induction false} SumRangeIsSum(s: seq<real>, lo: nat, hi: nat, f: nat -> real)
    requires lo <= hi <= |s|
    requires forall i :: 0 <= i < hi - lo ==> f(i) == s[lo + i]
    ensures SumRange(s, lo, hi) == Sum(hi - lo, f)
    decreases hi - lo
  {
    if lo < hi {
      SumRangeIsSum(s, lo, hi - 1, f);
      assert f(hi - 1 - lo) == s[lo + (hi - 1 - lo)];
    }
  }

  function Min(a: nat, b: nat): nat { if a < b then a else b }

  function Max(a: nat, b: nat): nat { if a < b then b else a }

  /** ceil(a / b). */
  function CeilDiv(a: nat, b: nat): (q: nat)
    requires b > 0
    ensures q * b >= a
    ensures a > 0 ==> q > 0 && (q - 1) * b < a
    ensures a == 0 ==> q == 0
  {
    var q := (a + b - 1) / b;
    assert a + b - 1 == b * q + (a + b - 1) % b;
    assert q * b == b * q;
    assert (q - 1) * b == q * b - b;
    if a == 0 then (assert (b - 1) / b == 0; 0) else (assert q > 0; q)
  }

  /** `group_sums`: x summed in runs of 32, the last run possibly short. */
  ghost function GroupSum(x: seq<real>, c: nat): real
    requires 32 * c <= |x|
  {
    SumRange(x, 32 * c, Min(32 * c + 32, |x|))
  }

  ghost function GroupSums(x: seq<real>): (xs: seq<real>)
    ensures |xs| == CeilDiv(|x|, 32)
  {
    seq(CeilDiv(|x|, 32), c requires 0 <= c < CeilDiv(|x|, 32) => GroupSum(x, c))
  }
}
