/** The router's weights under its three gatings, in exact arithmetic. */
module Router {
  import opened FiniteSets
  import opened Sums
  import opened Exponential
  import opened Lanes
  import opened Softmax
  import opened TopK

  /** The floor under the sum of selected shares, 2^-14: the smallest normal half. */
  const CLAMP: real := 1.0 / 16384.0

  /** The logits of the selected experts. */
  ghost function Chosen(l: seq<real>, sel: seq<nat>): (r: seq<real>)
    requires Inside(l, sel)
    ensures |r| == |sel| && forall i :: 0 <= i < |sel| ==> r[i] == l[sel[i]]
  {
    seq(|sel|, i requires 0 <= i < |sel| => l[sel[i]])
  }

  ghost predicate Inside(l: seq<real>, sel: seq<nat>) {
    forall i :: 0 <= i < |sel| ==> sel[i] < |l|
  }

  /** The softmax shares, among the logits `of`, of the logits `xs`. */
  ghost function Shares(exp: ExpFn, of: seq<real>, xs: seq<real>): (r: seq<real>)
    requires of != []
    ensures |r| == |xs|
    ensures forall i :: 0 <= i < |xs| ==>
      (MassPositive(exp, of); r[i] == Exp(exp, xs[i]) / Total(Exps(exp, of)))
  {
    MassPositive(exp, of);
    seq(|xs|, i requires 0 <= i < |xs| => Exp(exp, xs[i]) / Total(Exps(exp, of)))
  }

  lemma MassPositive(exp: ExpFn, s: seq<real>)
    requires s != []
    ensures Total(Exps(exp, s)) > 0.0
  {
    TotalAtLeast(Exps(exp, s), 0, |s|);
  }

  function ClampUp(x: real): real { if x > CLAMP then x else CLAMP }

  /** Dividing shares by their clamped sum. */
  ghost function Renormalised(w: seq<real>): (r: seq<real>)
    ensures |r| == |w| && forall i :: 0 <= i < |w| ==> r[i] == w[i] / ClampUp(Total(w))
  {
    seq(|w|, i requires 0 <= i < |w| => w[i] / ClampUp(Total(w)))
  }

  /**
   The weights of the selected experts: their shares among all experts (0), those renormalised (1), or their
   shares among themselves (2).
   */
  ghost function Weights(exp: ExpFn, l: seq<real>, sel: seq<nat>, gating: nat): seq<real>
    requires Inside(l, sel) && sel != []
  {
    var chosen := Chosen(l, sel);
    assert sel[0] < |l|;
    if gating == 2 then Shares(exp, chosen, chosen)
    else if gating == 1 then Renormalised(Shares(exp, l, chosen))
    else Shares(exp, l, chosen)
  }

  // ---- sums of shares ----------------------------------------------------------------------------

  lemma SharesTotal(exp: ExpFn, of: seq<real>, xs: seq<real>)
    requires of != []
    ensures Total(Exps(exp, of)) > 0.0
    ensures Total(Shares(exp, of, xs)) == Total(Exps(exp, xs)) / Total(Exps(exp, of))
  {
    hide Exp;
    MassPositive(exp, of);
    var d := Total(Exps(exp, of));
    forall i | 0 <= i < |xs| ensures Shares(exp, of, xs)[i] == Mul(Exps(exp, xs)[i], 1.0 / d) {
      Divide(Exp(exp, xs[i]), d);
    }
    TotalScale(Exps(exp, xs), Shares(exp, of, xs), 1.0 / d, |xs|);
    Divide(Total(Exps(exp, xs)), d);
  }

  lemma Divide(a: real, d: real)
    requires d != 0.0
    ensures a / d == Mul(a, 1.0 / d)
  {
  }

  lemma DivideTwice(a: real, d: real, e: real)
    requires d > 0.0 && e > 0.0
    ensures e / d > 0.0 && (a / d) / (e / d) == a / e
  {
    var q := a / e;
    assert q * (e / d) == a / d;
  }

  /** A positive number over a larger divisor is smaller. */
  lemma SmallerQuotient(a: real, c: real, d: real)
    requires a > 0.0 && 0.0 < c < d
    ensures a / d < a / c
  {
    assert a / d * d == a == a / c * c;
    if a / d >= a / c {
      Products(a / d, a / c, c, d);
    }
  }

  lemma Products(x: real, y: real, c: real, d: real)
    requires x >= y > 0.0 && 0.0 < c < d
    ensures x * d > y * c
  {
    assert x * d >= y * d;
    assert y * d > y * c;
  }

  /**
   Renormalising over all experts gives the softmax over the selected ones exactly when the clamp has nothing
   to do; whenever it has, every weight comes out too small.
   */
  lemma GatingsAgree(exp: ExpFn, l: seq<real>, sel: seq<nat>)
    requires Inside(l, sel) && sel != [] && l != []
    ensures Weights(exp, l, sel, 1) == Weights(exp, l, sel, 2) <==> Total(Shares(exp, l, Chosen(l, sel))) >= CLAMP
    ensures Total(Shares(exp, l, Chosen(l, sel))) < CLAMP ==>
      forall i :: 0 <= i < |sel| ==> Weights(exp, l, sel, 1)[i] < Weights(exp, l, sel, 2)[i]
  {
    hide Exp, Exps, Shares, Renormalised, Total;
    var xs := Chosen(l, sel);
    var all, own := Shares(exp, l, xs), Shares(exp, xs, xs);
    var d, e := Total(Exps(exp, l)), Total(Exps(exp, xs));
    SharesTotal(exp, l, xs);
    MassPositive(exp, xs);
    forall i | 0 <= i < |sel|
      ensures Total(all) >= CLAMP ==> Renormalised(all)[i] == own[i]
      ensures Total(all) < CLAMP ==> Renormalised(all)[i] < own[i]
    {
      var a := Exp(exp, xs[i]);
      DivideTwice(a, d, e);
      SharePositive(a, d);
      if Total(all) < CLAMP {
        SmallerQuotient(a / d, e / d, CLAMP);
      }
    }
    if Total(all) >= CLAMP {
      assert Renormalised(all) == own;
    } else {
      assert Renormalised(all)[0] < own[0];
    }
  }

  lemma SharePositive(a: real, d: real)
    requires a > 0.0 && d > 0.0
    ensures a / d > 0.0
  {
  }

  /** The softmax over the selected experts sums to one. */
  lemma OwnSharesSumToOne(exp: ExpFn, l: seq<real>, sel: seq<nat>)
    requires Inside(l, sel) && sel != []
    ensures Total(Weights(exp, l, sel, 2)) == 1.0
  {
    hide Exp, Exps, Total;
    var xs := Chosen(l, sel);
    SharesTotal(exp, xs, xs);
    SelfQuotient(Total(Exps(exp, xs)));
  }

  lemma SelfQuotient(a: real)
    requires a > 0.0
    ensures a / a == 1.0
  {
  }

  // ---- distinct experts share at most everything -------------------------------------------------

  /** The sum of the entries below n whose index is in t. */
  ghost function SumIn(s: seq<real>, t: set<nat>, n: nat): real
    requires n <= |s|
  {
    if n == 0 then 0.0 else SumIn(s, t, n - 1) + if n - 1 in t then s[n - 1] else 0.0
  }

  lemma {:induction false} SumInAdd(s: seq<real>, t: set<nat>, x: nat, n: nat)
    requires n <= |s| && x !in t
    ensures SumIn(s, t + {x}, n) == SumIn(s, t, n) + if x < n then s[x] else 0.0
  {
    if n > 0 {
      SumInAdd(s, t, x, n - 1);
    }
  }

  lemma {:induction false} SumInAtMost(s: seq<real>, t: set<nat>, n: nat)
    requires n <= |s| && forall i :: 0 <= i < n ==> s[i] >= 0.0
    ensures 0.0 <= SumIn(s, t, n) <= SumRange(s, 0, n)
  {
    if n > 0 {
      SumInAtMost(s, t, n - 1);
    }
  }

  lemma {:induction false} SumInChosen(s: seq<real>, sel: seq<nat>, c: seq<real>, n: nat)
    requires NoDuplicates(sel) && Inside(s, sel) && n <= |sel| == |c|
    requires forall i :: 0 <= i < |sel| ==> c[i] == s[sel[i]]
    ensures SumRange(c, 0, n) == SumIn(s, SetOf(sel[..n]), |s|)
  {
    if n == 0 {
      SumInAdd(s, {}, 0, 0);
      SumInEmpty(s, |s|);
    } else {
      SumInChosen(s, sel, c, n - 1);
      assert sel[..n][..n - 1] == sel[..n - 1];
      assert sel[n - 1] !in sel[..n - 1];
      SumInAdd(s, SetOf(sel[..n - 1]), sel[n - 1], |s|);
    }
  }

  lemma {:induction false} SumInEmpty(s: seq<real>, n: nat)
    requires n <= |s|
    ensures SumIn(s, {}, n) == 0.0
  {
    if n > 0 {
      SumInEmpty(s, n - 1);
    }
  }

  /** Distinct experts' shares among all experts sum to at most one. */
  lemma SharesAtMostOne(exp: ExpFn, l: seq<real>, sel: seq<nat>)
    requires Inside(l, sel) && NoDuplicates(sel) && sel != [] && l != []
    ensures 0.0 < Total(Weights(exp, l, sel, 0)) <= 1.0
  {
    hide Exp;
    var xs := Chosen(l, sel);
    var es, cs := Exps(exp, l), Exps(exp, xs);
    SumInChosen(es, sel, cs, |sel|);
    assert sel[..|sel|] == sel;
    SumInAtMost(es, SetOf(sel), |l|);
    SharesTotal(exp, l, xs);
    MassPositive(exp, xs);
    SmallShare(Total(cs), Total(es));
  }

  lemma SmallShare(a: real, d: real)
    requires 0.0 < a <= d
    ensures 0.0 < a / d <= 1.0
  {
  }

  /** With the clamp at work the renormalised weights sum to less than one; otherwise to exactly one. */
  lemma RenormalisedTotal(exp: ExpFn, l: seq<real>, sel: seq<nat>)
    requires Inside(l, sel) && sel != [] && l != []
    ensures Total(Shares(exp, l, Chosen(l, sel))) >= CLAMP ==> Total(Weights(exp, l, sel, 1)) == 1.0
    ensures Total(Shares(exp, l, Chosen(l, sel))) < CLAMP ==> Total(Weights(exp, l, sel, 1)) < 1.0
  {
    var w := Shares(exp, l, Chosen(l, sel));
    GatingsAgree(exp, l, sel);
    OwnSharesSumToOne(exp, l, sel);
    ClampedTotal(w);
  }

  lemma ClampedTotal(w: seq<real>)
    ensures Total(w) < CLAMP ==> Total(Renormalised(w)) < 1.0
  {
    hide Total;
    if Total(w) < CLAMP {
      forall i | 0 <= i < |w| ensures Renormalised(w)[i] == Mul(w[i], 1.0 / CLAMP) {
        Divide(w[i], CLAMP);
      }
      assert Total(Renormalised(w)) == Mul(Total(w), 1.0 / CLAMP) by {
        WholeScale(w, Renormalised(w), 1.0 / CLAMP);
      }
    }
  }

  lemma WholeScale(s: seq<real>, t: seq<real>, c: real)
    requires |s| == |t| && forall i :: 0 <= i < |s| ==> t[i] == Mul(s[i], c)
    ensures Total(t) == Mul(Total(s), c)
  {
    TotalScale(s, t, c, |s|);
  }

  // ---- when the clamp is idle --------------------------------------------------------------------

  /** exp does not exceed one at or below zero. */
  ghost predicate AtMostOneBelowZero(exp: ExpFn) {
    forall a :: a <= 0.0 ==> Exp(exp, a) <= 1.0
  }

  lemma {:induction false} TotalAtMost(s: seq<real>, c: real, n: nat)
    requires n <= |s| && forall i :: 0 <= i < n ==> s[i] <= c
    ensures SumRange(s, 0, n) <= Mul(n as real, c)
  {
    if n > 0 {
      TotalAtMost(s, c, n - 1);
      assert Mul(n as real, c) == Mul((n - 1) as real, c) + c;
    }
  }

  /** The selection starts with the largest logit. */
  lemma LargestFirst(l: seq<real>, sel: seq<nat>)
    requires sel != [] && |sel| <= |l| && sel == Ranking(l, |l|)[..|sel|]
    ensures sel[0] < |l| && forall j :: 0 <= j < |l| ==> l[j] <= l[sel[0]]
  {
    var order := Ranking(l, |l|);
    forall j | 0 <= j < |l| ensures l[j] <= l[order[0]] {
      var p := PlaceOf(l, order, j);
      assert p == 0 || Better(l, order[0], order[p]);
    }
  }

  /** With the largest logit selected, the selected shares come to at least one in n. */
  lemma LargestShare(exp: ExpFn, l: seq<real>, sel: seq<nat>)
    requires AtMostOneBelowZero(exp) && Inside(l, sel) && sel != [] && l != []
    requires forall j :: 0 <= j < |l| ==> l[j] <= l[sel[0]]
    ensures Total(Shares(exp, l, Chosen(l, sel))) >= 1.0 / (|l| as real)
  {
    var xs := Chosen(l, sel);
    var top := l[sel[0]];
    hide Chosen;
    forall j | 0 <= j < |l| ensures Exps(exp, l)[j] <= Exp(exp, top) {
      ExpShift(exp, l[j], top);
      AtMostFactor(Exp(exp, l[j] - top), Exp(exp, top));
    }
    hide AtMostOneBelowZero;
    TotalAtMost(Exps(exp, l), Exp(exp, top), |l|);
    TotalAtLeast(Exps(exp, xs), 0, |xs|);
    SharesTotal(exp, l, xs);
    OneIn(Total(Exps(exp, xs)), Exp(exp, top), Total(Exps(exp, l)), |l| as real);
  }

  lemma AtMostFactor(a: real, b: real)
    requires a <= 1.0 && b > 0.0
    ensures Mul(a, b) <= b
  {
  }

  lemma OneIn(a: real, top: real, d: real, n: real)
    requires a >= top > 0.0 && 0.0 < d <= Mul(n, top) && n > 0.0
    ensures a / d >= 1.0 / n
  {
    assert d <= n * a by {
      assert n * top <= n * a;
    }
    assert (a / d) * d == a;
    if a / d < 1.0 / n {
      Products(1.0 / n, a / d, a / d, 1.0 / n);
    }
  }

  /** For up to 16384 experts the clamp never acts on a real selection, so gatings 1 and 2 are one function. */
  lemma ClampNeverActs(exp: ExpFn, l: seq<real>, sel: seq<nat>)
    requires AtMostOneBelowZero(exp) && sel != [] && |sel| <= |l| <= 16384 && sel == Ranking(l, |l|)[..|sel|]
    ensures Inside(l, sel)
    ensures Weights(exp, l, sel, 1) == Weights(exp, l, sel, 2)
  {
    LargestFirst(l, sel);
    LargestShare(exp, l, sel);
    OverN(|l| as real);
    GatingsAgree(exp, l, sel);
  }

  lemma OverN(n: real)
    requires 0.0 < n <= 16384.0
    ensures 1.0 / n >= CLAMP
  {
  }

  /** Among equal logits the router picks expert 0. */
  lemma FirstOfEquals(l: seq<real>)
    requires l != [] && forall j :: 0 <= j < |l| ==> l[j] == 0.0
    ensures [0] == Ranking(l, |l|)[..1]
  {
    var sel: seq<nat> := [0];
    assert sel[..0] == [];
    assert IsBest(l, [], 0);
    PicksFollowRanking(l, sel, Ranking(l, |l|));
  }

  /** One expert more is enough for the two to differ: all logits equal, one expert selected. */
  lemma ClampCanAct(exp: ExpFn, l: seq<real>)
    requires |l| == 16385 && forall j :: 0 <= j < |l| ==> l[j] == 0.0
    ensures [0] == Ranking(l, |l|)[..1]
    ensures Weights(exp, l, [0], 1) != Weights(exp, l, [0], 2)
  {
    FirstOfEquals(l);
    EqualLogitsTotal(exp, l);
    hide *;
    GatingsAgree(exp, l, [0]);
  }

  /** The share of one among 16385 equal experts is below the clamp. */
  lemma EqualLogitsTotal(exp: ExpFn, l: seq<real>)
    requires |l| == 16385 && forall j :: 0 <= j < |l| ==> l[j] == 0.0
    ensures Inside(l, [0]) && Total(Shares(exp, l, Chosen(l, [0]))) < CLAMP
  {
    var xs := Chosen(l, [0]);
    ExpZero(exp);
    hide Chosen;
    assert xs == [0.0];
    SharesTotal(exp, l, xs);
    hide Shares;
    AllOnes(Exps(exp, l), |l|);
    AllOnes(Exps(exp, xs), 1);
  }

  lemma {:induction false} AllOnes(s: seq<real>, n: nat)
    requires n <= |s| && forall i :: 0 <= i < n ==> s[i] == 1.0
    ensures SumRange(s, 0, n) == n as real
  {
    if n > 0 {
      AllOnes(s, n - 1);
    }
  }

  // ---- gating 0 and the others apart ---------------------------------------------------------------

  /** Under gating 0 a weight does not depend on who else is selected. */
  lemma WeightStandsAlone(exp: ExpFn, l: seq<real>, sel: seq<nat>, i: nat)
    requires Inside(l, sel) && i < |sel|
    ensures |Weights(exp, l, sel, 0)| == |sel| && |Weights(exp, l, [sel[i]], 0)| == 1
    ensures Weights(exp, l, sel, 0)[i] == Weights(exp, l, [sel[i]], 0)[0]
  {
    hide Exps;
    assert Chosen(l, [sel[i]])[0] == Chosen(l, sel)[i];
  }

  /** Under every gating weights are to each other as the exponentials of their logits. */
  lemma WeightsInRatio(exp: ExpFn, l: seq<real>, sel: seq<nat>, gating: nat, i: nat, j: nat)
    requires Inside(l, sel) && i < |sel| && j < |sel|
    ensures |Weights(exp, l, sel, gating)| == |sel|
    ensures Mul(Weights(exp, l, sel, gating)[i], Exp(exp, l[sel[j]])) == Mul(Weights(exp, l, sel, gating)[j], Exp(exp, l[sel[i]]))
  {
    hide Exp, Exps, Total;
    var xs := Chosen(l, sel);
    var a, b := Exp(exp, xs[i]), Exp(exp, xs[j]);
    assert sel[0] < |l|;
    MassPositive(exp, l);
    MassPositive(exp, xs);
    if gating == 2 {
      SameRatio(a, b, Total(Exps(exp, xs)));
    } else {
      var d := Total(Exps(exp, l));
      SameRatio(a, b, d);
      if gating == 1 {
        RatioDivided(a / d, b / d, a, b, ClampUp(Total(Shares(exp, l, xs))));
      }
    }
  }

  lemma SameRatio(a: real, b: real, d: real)
    requires d > 0.0
    ensures Mul(a / d, b) == Mul(b / d, a)
  {
    Divide(a, d);
    Divide(b, d);
  }

  lemma RatioDivided(p: real, q: real, a: real, b: real, c: real)
    requires c > 0.0 && Mul(p, b) == Mul(q, a)
    ensures Mul(p / c, b) == Mul(q / c, a)
  {
    Divide(p, c);
    Divide(q, c);
    var r := 1.0 / c;
    assert (p * r) * b == (p * b) * r && (q * r) * a == (q * a) * r;
  }

  /** Adding up a permutation. */
  lemma {:induction false} TotalPermuted(a: seq<real>, sel: seq<nat>, b: seq<real>)
    requires |a| == |sel| == |b| && NoDuplicates(sel) && (forall i :: 0 <= i < |sel| ==> sel[i] < |a|)
    requires forall i :: 0 <= i < |sel| ==> b[i] == a[sel[i]]
    ensures Total(b) == Total(a)
  {
    var n := |sel|;
    if n > 0 {
      Pigeonhole(sel);
      assert n - 1 in sel;
      var k :| 0 <= k < n && sel[k] == n - 1;
      var sel', b' := sel[..k] + sel[k + 1..], b[..k] + b[k + 1..];
      TotalPermuted(a[..n - 1], sel', b');
      TotalWithout(b, k);
      TotalPrefix(a, n - 1);
    }
  }

  lemma TotalPrefix(a: seq<real>, n: nat)
    requires |a| == n + 1
    ensures Total(a) == Total(a[..n]) + a[n]
  {
    TotalCong(a, a[..n], n);
  }

  lemma {:induction false} TotalCong(a: seq<real>, b: seq<real>, n: nat)
    requires n <= |a| && n <= |b| && forall i :: 0 <= i < n ==> a[i] == b[i]
    ensures SumRange(a, 0, n) == SumRange(b, 0, n)
  {
    if n > 0 {
      TotalCong(a, b, n - 1);
    }
  }

  lemma {:induction false} TotalWithout(b: seq<real>, k: nat)
    requires k < |b|
    ensures Total(b) == Total(b[..k] + b[k + 1..]) + b[k]
    decreases |b|
  {
    var n := |b| - 1;
    TotalPrefix(b, n);
    if k < n {
      var rest := b[..k] + b[k + 1..];
      TotalWithout(b[..n], k);
      TotalPrefix(rest, n - 1);
      assert rest[..n - 1] == b[..n][..k] + b[..n][k + 1..];
    } else {
      assert b[..k] + b[k + 1..] == b[..n];
    }
  }

  /** Under gating 0 the weights of all experts, each selected once in any order, add up to exactly one. */
  lemma AllWeightsSumToOne(exp: ExpFn, l: seq<real>, sel: seq<nat>)
    requires l != [] && Inside(l, sel) && |sel| == |l| && NoDuplicates(sel)
    ensures Total(Weights(exp, l, sel, 0)) == 1.0
  {
    hide Exp, Exps, Total;
    var xs := Chosen(l, sel);
    SharesTotal(exp, l, xs);
    TotalPermuted(Exps(exp, l), sel, Exps(exp, xs));
    MassPositive(exp, l);
  }

  // ---- moearc_topk_router ------------------------------------------------------------------------

  ghost function Shifted(exp: ExpFn, s: seq<real>, m: real): (r: seq<real>)
    ensures |r| == |s| && forall i :: 0 <= i < |s| ==> r[i] == Exp(exp, s[i] - m)
  {
    seq(|s|, i requires 0 <= i < |s| => Exp(exp, s[i] - m))
  }

  /** Subtracting any number from every logit leaves the shares alone. */
  lemma ShiftedShares(exp: ExpFn, of: seq<real>, m: real, x: real)
    requires of != []
    ensures Total(Shifted(exp, of, m)) > 0.0
    ensures Exp(exp, x - m) / Total(Shifted(exp, of, m)) == Shares(exp, of, [x])[0]
  {
    var sh, es, e := Shifted(exp, of, m), Exps(exp, of), Exp(exp, m);
    MassPositive(exp, of);
    forall i | 0 <= i < |of| ensures es[i] == Mul(sh[i], e) {
      ExpShift(exp, of[i], m);
    }
    WholeScale(sh, es, e);
    TotalAtLeast(sh, 0, |sh|);
    ExpShift(exp, x, m);
    hide Exp, Total;
    Cancelled(Exp(exp, x - m), Total(sh), e);
  }

  lemma Cancelled(a: real, d: real, e: real)
    requires d > 0.0 && e > 0.0
    ensures Mul(d, e) != 0.0 && a / d == Mul(a, e) / Mul(d, e)
  {
    assert (a / d) * (d * e) == a * e;
  }

  /** The largest logit, or -FLT_MAX: a strided maximum per lane, then one over the group. */
  method LargestLogit(l: seq<real>, w: nat) returns (mx: real)
    requires 0 < w
    ensures forall j :: 0 <= j < |l| ==> l[j] <= mx
    ensures mx == LOWEST || mx in l
  {
    mx := LOWEST;
    for lane := 0 to w
      invariant forall j :: 0 <= j < |l| && j % w < lane ==> l[j] <= mx
      invariant mx == LOWEST || mx in l
    {
      var j := lane;
      LaneBegins(lane, w);
      while j < |l|
        invariant j % w == lane
        invariant forall i :: 0 <= i < |l| && (i % w < lane || (i % w == lane && i < j)) ==> l[i] <= mx
        invariant mx == LOWEST || mx in l
        decreases |l| - j
      {
        if l[j] > mx {
          mx := l[j];
        }
        LaneNext(j, w);
        j := j + w;
      }
    }
  }

  /** A sum of shifted exponentials, in order. */
  method ShiftedSum(exp: ExpFn, s: seq<real>, m: real) returns (sum: real)
    ensures sum == Total(Shifted(exp, s, m))
  {
    hide Exp;
    ghost var terms := Shifted(exp, s, m);
    sum := 0.0;
    for j := 0 to |s|
      invariant sum == SumRange(terms, 0, j)
    {
      sum := sum + Exp(exp, s[j] - m);
    }
  }

  /** The shares of some logits among those with the shifted sum `denom`, and what they come to. */
  method ShareEach(exp: ExpFn, ghost of: seq<real>, xs: seq<real>, m: real, denom: real)
    returns (weights: seq<real>, wsum: real)
    requires of != [] && denom == Total(Shifted(exp, of, m))
    ensures weights == Shares(exp, of, xs) && wsum == Total(weights)
  {
    hide Exp, Shares, Total;
    ghost var all := Shares(exp, of, xs);
    wsum := 0.0;
    weights := [];
    for r := 0 to |xs|
      invariant |weights| == r && forall i :: 0 <= i < r ==> weights[i] == all[i]
      invariant wsum == SumRange(all, 0, r)
    {
      ShareOf(exp, of, xs, m, r);
      var w := Exp(exp, xs[r] - m) / denom;
      weights := weights + [w];
      wsum := wsum + w;
    }
    WholeTotal(all);
    assert weights == all;
  }

  method DivideEach(w: seq<real>, clamped: real) returns (weights: seq<real>)
    requires clamped == ClampUp(Total(w))
    ensures weights == Renormalised(w)
  {
    hide Total;
    weights := [];
    for r := 0 to |w|
      invariant |weights| == r && forall i :: 0 <= i < r ==> weights[i] == Renormalised(w)[i]
    {
      weights := weights + [w[r] / clamped];
    }
  }

  /** The logits of a selection, and the largest of them. */
  method Gather(l: seq<real>, sel: seq<nat>) returns (xs: seq<real>, smax: real)
    requires Inside(l, sel)
    ensures xs == Chosen(l, sel)
  {
    xs, smax := [], LOWEST;
    for r := 0 to |sel|
      invariant |xs| == r && forall i :: 0 <= i < r ==> xs[i] == l[sel[i]]
    {
      xs := xs + [l[sel[r]]];
      smax := if smax < l[sel[r]] then l[sel[r]] else smax;
    }
  }

  /** The weights one lane writes for a selection, `mx` being subtracted from the logits of gatings 0 and 1. */
  method LaneWeights(exp: ExpFn, l: seq<real>, sel: seq<nat>, mx: real, gating: nat) returns (weights: seq<real>)
    requires Inside(l, sel) && sel != [] && gating <= 2
    ensures weights == Weights(exp, l, sel, gating)
  {
    hide Total, Shares, Renormalised, Chosen;
    assert sel[0] < |l|;
    var xs, smax := Gather(l, sel);
    var wsum: real;
    if gating == 2 {
      var d2 := ShiftedSum(exp, xs, smax);
      weights, wsum := ShareEach(exp, xs, xs, smax, d2);
      return;
    }
    var denom := ShiftedSum(exp, l, mx);
    weights, wsum := ShareEach(exp, l, xs, mx, denom);
    if gating == 1 {
      weights := DivideEach(weights, ClampUp(wsum));
    }
  }

  datatype RouterStatus = Routed | Refused

  /** `MAX_TOPK`. */
  const MAX_TOPK: nat := 32

  /** One token: selection and weights, written to its k places. */
  method RouteToken(idx: array<nat>, weights: array<real>, at: nat, exp: ExpFn, l: seq<real>, k: nat, gating: nat)
    requires 0 < k <= |l| <= NO_CANDIDATE && gating <= 2 && (forall j :: 0 <= j < |l| ==> l[j] >= LOWEST)
    requires at + k <= idx.Length == weights.Length
    modifies idx, weights
    ensures idx[at..at + k] == Ranking(l, |l|)[..k] && Inside(l, idx[at..at + k])
    ensures weights[at..at + k] == Weights(exp, l, idx[at..at + k], gating)
    ensures idx[..at] == old(idx[..at]) && idx[at + k..] == old(idx[at + k..])
    ensures weights[..at] == old(weights[..at]) && weights[at + k..] == old(weights[at + k..])
  {
    hide IsRanking, Ranking, Weights;
    var mx := LargestLogit(l, WG);
    var sel := Select(l, k, WG);
    RankingInside(l, sel);
    var w := LaneWeights(exp, l, sel, mx, gating);
    WeightsLength(exp, l, sel, gating);
    for r := 0 to k
      invariant idx[at..at + r] == sel[..r] && weights[at..at + r] == w[..r]
      invariant idx[..at] == old(idx[..at]) && idx[at + k..] == old(idx[at + k..])
      invariant weights[..at] == old(weights[..at]) && weights[at + k..] == old(weights[at + k..])
    {
      idx[at + r], weights[at + r] := sel[r], w[r];
      assert idx[at..at + r + 1] == idx[at..at + r] + [sel[r]];
      assert weights[at..at + r + 1] == weights[at..at + r] + [w[r]];
    }
    assert sel[..k] == sel && w[..k] == w;
  }

  lemma RankingInside(l: seq<real>, sel: seq<nat>)
    requires |sel| <= |l| && sel == Ranking(l, |l|)[..|sel|]
    ensures Inside(l, sel) && NoDuplicates(sel)
  {
    forall i, j | 0 <= i < j < |sel| ensures sel[i] != sel[j] {
      assert Better(l, Ranking(l, |l|)[i], Ranking(l, |l|)[j]);
    }
  }

  lemma WeightsLength(exp: ExpFn, l: seq<real>, sel: seq<nat>, gating: nat)
    requires Inside(l, sel) && sel != []
    ensures |Weights(exp, l, sel, gating)| == |sel|
  {
  }

  /** What the launch leaves for one token. */
  ghost predicate Routes(exp: ExpFn, l: seq<real>, k: nat, gating: nat, idx: seq<nat>, weights: seq<real>) {
    && 0 < k <= |l| && idx == Ranking(l, |l|)[..k] && Inside(l, idx)
    && weights == Weights(exp, l, idx, gating)
  }

  ghost predicate RoutedAt(idx: seq<nat>, weights: seq<real>, exp: ExpFn, l: seq<real>, k: nat, gating: nat, at: nat) {
    && at + k <= |idx| == |weights|
    && Routes(exp, l, k, gating, idx[at..at + k], weights[at..at + k])
  }

  lemma RoutedNow(idx: seq<nat>, weights: seq<real>, exp: ExpFn, l: seq<real>, k: nat, gating: nat, at: nat)
    requires 0 < k <= |l| && at + k <= |idx| == |weights|
    requires idx[at..at + k] == Ranking(l, |l|)[..k] && Inside(l, idx[at..at + k])
    requires weights[at..at + k] == Weights(exp, l, idx[at..at + k], gating)
    ensures RoutedAt(idx, weights, exp, l, k, gating, at)
  {
  }

  /** Writing further on leaves a routed token alone. */
  lemma EarlierKept(i0: seq<nat>, w0: seq<real>, i1: seq<nat>, w1: seq<real>, exp: ExpFn, l: seq<real>, k: nat,
                    gating: nat, at: nat, from: nat)
    requires RoutedAt(i0, w0, exp, l, k, gating, at) && at + k <= from <= |i0| && |i1| == |i0| && |w1| == |w0|
    requires i1[..from] == i0[..from] && w1[..from] == w0[..from]
    ensures RoutedAt(i1, w1, exp, l, k, gating, at)
  {
    hide Routes;
    assert i1[at..at + k] == i1[..from][at..at + k] == i0[at..at + k];
    assert w1[at..at + k] == w1[..from][at..at + k] == w0[at..at + k];
  }

  /** `moearc_topk_router` over a batch of tokens. */
  method TopkRouter(idx: array<nat>, weights: array<real>, exp: ExpFn, logits: seq<seq<real>>, nExpert: nat, k: nat,
                    gating: nat)
    returns (rc: RouterStatus)
    requires idx.Length == weights.Length == |logits| * k && nExpert <= NO_CANDIDATE
    requires forall t :: 0 <= t < |logits| ==> |logits[t]| == nExpert
    requires forall t, j :: 0 <= t < |logits| && 0 <= j < nExpert ==> logits[t][j] >= LOWEST
    modifies idx, weights
    ensures rc.Refused? <==> k == 0 || k > MAX_TOPK || k > nExpert || gating > 2
    ensures rc.Refused? ==> idx[..] == old(idx[..]) && weights[..] == old(weights[..])
    ensures rc.Routed? ==> RoutedBelow(idx[..], weights[..], exp, logits, k, gating, |logits|)
  {
    if k == 0 || k > MAX_TOPK || k > nExpert {
      return Refused;
    }
    if gating > 2 {
      return Refused;
    }
    for t := 0 to |logits|
      invariant RoutedBelow(idx[..], weights[..], exp, logits, k, gating, t)
    {
      hide *;
      NextToken(idx, weights, exp, logits, nExpert, k, gating, t);
    }
    return Routed;
  }

  ghost predicate RoutedBelow(idx: seq<nat>, weights: seq<real>, exp: ExpFn, logits: seq<seq<real>>, k: nat,
                              gating: nat, n: nat)
    requires n <= |logits|
  {
    forall t :: 0 <= t < n ==> RoutedAt(idx, weights, exp, logits[t], k, gating, Tasks.Flat(k, t, 0))
  }

  lemma BelowKept(i0: seq<nat>, w0: seq<real>, i1: seq<nat>, w1: seq<real>, exp: ExpFn, logits: seq<seq<real>>, k: nat,
                  gating: nat, n: nat)
    requires n < |logits| && RoutedBelow(i0, w0, exp, logits, k, gating, n)
    requires |i0| == |i1| == |w0| == |w1| == |logits| * k
    requires var at := Tasks.Flat(k, n, 0); at <= |i0| && i1[..at] == i0[..at] && w1[..at] == w0[..at]
    requires RoutedAt(i1, w1, exp, logits[n], k, gating, Tasks.Flat(k, n, 0))
    ensures RoutedBelow(i1, w1, exp, logits, k, gating, n + 1)
  {
    hide RoutedAt, Tasks.Flat;
    Tasks.Spans(|logits|, k, n);
    forall t | 0 <= t < n ensures RoutedAt(i1, w1, exp, logits[t], k, gating, Tasks.Flat(k, t, 0)) {
      EarlierKept(i0, w0, i1, w1, exp, logits[t], k, gating, Tasks.Flat(k, t, 0), Tasks.Flat(k, n, 0));
    }
  }

  method NextToken(idx: array<nat>, weights: array<real>, exp: ExpFn, logits: seq<seq<real>>, nExpert: nat, k: nat,
                   gating: nat, t: nat)
    requires idx.Length == weights.Length == |logits| * k && t < |logits| && gating <= 2
    requires 0 < k <= nExpert <= NO_CANDIDATE
    requires forall u :: 0 <= u < |logits| ==> |logits[u]| == nExpert
    requires forall u, j :: 0 <= u < |logits| && 0 <= j < nExpert ==> logits[u][j] >= LOWEST
    requires RoutedBelow(idx[..], weights[..], exp, logits, k, gating, t)
    modifies idx, weights
    ensures RoutedBelow(idx[..], weights[..], exp, logits, k, gating, t + 1)
  {
    hide *;
    ghost var i0, w0 := idx[..], weights[..];
    Tasks.Spans(|logits|, k, t);
    var at := Tasks.Flat(k, t, 0);
    RouteToken(idx, weights, at, exp, logits[t], k, gating);
    RoutedNow(idx[..], weights[..], exp, logits[t], k, gating, at);
    assert idx[..][..at] == i0[..at] && weights[..][..at] == w0[..at];
    BelowKept(i0, w0, idx[..], weights[..], exp, logits, k, gating, t);
  }

  lemma WholeTotal(s: seq<real>)
    ensures Total(s) == SumRange(s, 0, |s|)
  {
  }

  lemma ShareOf(exp: ExpFn, of: seq<real>, xs: seq<real>, m: real, r: nat)
    requires of != [] && r < |xs|
    ensures Total(Shifted(exp, of, m)) > 0.0
    ensures Exp(exp, xs[r] - m) / Total(Shifted(exp, of, m)) == Shares(exp, of, xs)[r]
  {
    ShiftedShares(exp, of, m, xs[r]);
  }
}
