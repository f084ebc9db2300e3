/** exp, of which only positivity and exp(a + b) = exp(a) exp(b) matter. */
module Exponential {
  import opened Sums

  ghost predicate IsExp(f: real -> real) {
    && (forall a :: f(a) > 0.0)
    && (forall a, b :: f(a + b) == Mul(f(a), f(b)))
  }

  type ExpFn = f: real -> real | IsExp(f) ghost witness (_ => 1.0)

  function Exp(f: ExpFn, a: real): (r: real)
    ensures r > 0.0
  {
    assert IsExp(f);
    f(a)
  }

  lemma ExpAdd(f: ExpFn, a: real, b: real)
    ensures Exp(f, a + b) == Mul(Exp(f, a), Exp(f, b))
  {
    assert IsExp(f);
  }

  lemma ExpZero(f: ExpFn)
    ensures Exp(f, 0.0) == 1.0
  {
    ExpAdd(f, 0.0, 0.0);
    Cancel(Exp(f, 0.0));
  }

  lemma Cancel(x: real)
    requires x > 0.0 && x == Mul(x, x)
    ensures x == 1.0
  {
    assert x * (x - 1.0) == 0.0;
  }

  /** Taking a maximum out of an exponent and putting it back. */
  lemma ExpShift(f: ExpFn, a: real, m: real)
    ensures Mul(Exp(f, a - m), Exp(f, m)) == Exp(f, a)
  {
    ExpAdd(f, a - m, m);
    assert (a - m) + m == a;
  }
}
