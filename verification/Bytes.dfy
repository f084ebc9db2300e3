/** Bytes and little-endian numbers. */
module Bytes {
  type byte = b: nat | b < 256

  /** The n-byte little-endian number at `at`. */
  function Le(b: seq<byte>, at: nat, n: nat): nat
    requires at + n <= |b|
    decreases n
  {
    if n == 0 then 0 else b[at] + 256 * Le(b, at + 1, n - 1)
  }

  function Pow256(n: nat): (p: nat)
    ensures p > 0
  {
    if n == 0 then 1 else 256 * Pow256(n - 1)
  }

  /** The buffer with the n-byte little-endian number at `at` replaced. */
  function PutLe(b: seq<byte>, at: nat, n: nat, v: nat): (r: seq<byte>)
    requires at + n <= |b|
    ensures |r| == |b|
    ensures forall k :: 0 <= k < |b| && !(at <= k < at + n) ==> r[k] == b[k]
    decreases n
  {
    if n == 0 then b else PutLe(b[at := v % 256], at + 1, n - 1, v / 256)
  }

  lemma {:induction false} LeSame(a: seq<byte>, b: seq<byte>, at: nat, n: nat)
    requires at + n <= |a| && at + n <= |b| && forall k :: at <= k < at + n ==> a[k] == b[k]
    ensures Le(a, at, n) == Le(b, at, n)
    decreases n
  {
    if n > 0 {
      LeSame(a, b, at + 1, n - 1);
    }
  }

  lemma {:induction false} LeOfPut(b: seq<byte>, at: nat, n: nat, v: nat)
    requires at + n <= |b| && v < Pow256(n)
    ensures Le(PutLe(b, at, n, v), at, n) == v
    decreases n
  {
    if n > 0 {
      var c := b[at := v % 256];
      Quotient(v, Pow256(n - 1));
      LeOfPut(c, at + 1, n - 1, v / 256);
      assert PutLe(b, at, n, v)[at] == c[at];
    }
  }

  lemma Quotient(v: nat, p: nat)
    requires v < 256 * p
    ensures v / 256 < p && v == v % 256 + 256 * (v / 256)
  {
  }

  // ---- numbers written out -----------------------------------------------------------------------

  /** The n bytes of v, lowest first. */
  function Written(v: nat, n: nat): (b: seq<byte>)
    ensures |b| == n
  {
    if n == 0 then [] else [v % 256] + Written(v / 256, n - 1)
  }

  /** The bytes of w from `at` on start with b. */
  predicate Has(w: seq<byte>, at: nat, b: seq<byte>) {
    at + |b| <= |w| && w[at..at + |b|] == b
  }

  lemma HasBoth(w: seq<byte>, at: nat, a: seq<byte>, b: seq<byte>)
    requires Has(w, at, a + b)
    ensures Has(w, at, a) && Has(w, at + |a|, b)
  {
    var s := w[at..at + |a + b|];
    assert s[..|a|] == a && s[|a|..] == b;
    assert w[at..at + |a|] == s[..|a|];
    assert w[at + |a|..at + |a| + |b|] == s[|a|..];
  }

  /** A number that was written is read back. */
  lemma {:induction false} ReadBack(w: seq<byte>, at: nat, v: nat, n: nat)
    requires v < Pow256(n) && Has(w, at, Written(v, n))
    ensures at + n <= |w| && Le(w, at, n) == v
    decreases n
  {
    if n > 0 {
      Quotient(v, Pow256(n - 1));
      HasBoth(w, at, [v % 256], Written(v / 256, n - 1));
      ReadBack(w, at + 1, v / 256, n - 1);
      assert w[at..at + 1][0] == v % 256;
    }
  }
}
