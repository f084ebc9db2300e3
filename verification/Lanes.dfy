/** A work-group of lanes striding over a row, and what a reduction over the group gives. */
module Lanes {
  import opened Sums
  import Tasks

  /** The width of the row-per-group kernels (`WG`). */
  const WG: nat := 32

  /** -FLT_MAX, the starting value of every running maximum. */
  const LOWEST: real := -340282346638528859811704183484516925440.0

  ghost function Total(s: seq<real>): real {
    SumRange(s, 0, |s|)
  }

  /** The sum of the entries below n that fall to one of w lanes. */
  ghost function Strided(s: seq<real>, lane: nat, w: nat, n: nat): real
    requires n <= |s| && 0 < w
  {
    if n == 0 then 0.0
    else Strided(s, lane, w, n - 1) + if (n - 1) % w == lane then s[n - 1] else 0.0
  }

  lemma NextOfLane(i: nat, m: nat, w: nat)
    requires 0 < w && i < m < i + w
    ensures m % w != i % w
  {
    var q, r := i / w, i % w;
    assert i == w * q + r;
    if r + (m - i) < w {
      Tasks.DivMod(m, w, q, r + (m - i));
    } else {
      assert m == (q + 1) * w + (r + (m - i) - w);
      Tasks.DivMod(m, w, q + 1, r + (m - i) - w);
    }
  }

  lemma LaneStep(i: nat, w: nat)
    requires 0 < w
    ensures (i + w) % w == i % w
  {
    assert i == w * (i / w) + i % w;
    assert i + w == (i / w + 1) * w + i % w;
    Tasks.DivMod(i + w, w, i / w + 1, i % w);
  }

  /** Where a lane's stride starts, and where it goes next. */
  lemma LaneBegins(lane: nat, w: nat)
    requires lane < w
    ensures lane % w == lane && forall y :: 0 <= y < lane ==> y % w != lane
  {
    Tasks.DivMod(lane, w, 0, lane);
    forall y | 0 <= y < lane ensures y % w != lane {
      Tasks.DivMod(y, w, 0, y);
    }
  }

  lemma LaneNext(j: nat, w: nat)
    requires 0 < w
    ensures (j + w) % w == j % w && forall y :: j < y < j + w ==> y % w != j % w
  {
    LaneStep(j, w);
    forall y | j < y < j + w ensures y % w != j % w {
      NextOfLane(j, y, w);
    }
  }

  /** From one entry of a lane to the next, or to the end, the lane adds just that entry. */
  lemma {:induction false} StridedStep(s: seq<real>, w: nat, i: nat, m: nat)
    requires 0 < w && i < m <= i + w && m <= |s|
    ensures Strided(s, i % w, w, m) == Strided(s, i % w, w, i) + s[i]
    decreases m
  {
    if m > i + 1 {
      StridedStep(s, w, i, m - 1);
      NextOfLane(i, m - 1, w);
    }
  }

  lemma {:induction false} StridedNothing(s: seq<real>, lane: nat, w: nat, n: nat)
    requires 0 < w && n <= lane < w && n <= |s|
    ensures Strided(s, lane, w, n) == 0.0
  {
    if n > 0 {
      StridedNothing(s, lane, w, n - 1);
      Tasks.DivMod(n - 1, w, 0, n - 1);
    }
  }

  lemma {:induction false} OnePoint(w: nat, k: nat, c: real, f: nat -> real)
    requires forall l :: 0 <= l < w ==> f(l) == if l == k then c else 0.0
    ensures Sum(w, f) == if k < w then c else 0.0
  {
    if w > 0 {
      OnePoint(w - 1, k, c, f);
    }
  }

  /** The lanes share a row out completely: their sums add up to the row's. */
  lemma {:induction false} LanesCover(s: seq<real>, w: nat, n: nat, f: nat -> real)
    requires 0 < w && n <= |s| && forall l :: 0 <= l < w ==> f(l) == Strided(s, l, w, n)
    ensures Sum(w, f) == SumRange(s, 0, n)
  {
    if n == 0 {
      SumZero(w, f);
    } else {
      var g := (l: nat) => Strided(s, l, w, n - 1);
      var h := (l: nat) => if l == (n - 1) % w then s[n - 1] else 0.0;
      LanesCover(s, w, n - 1, g);
      OnePoint(w, (n - 1) % w, s[n - 1], h);
      SumAdd(w, g, h, f);
    }
  }

  /** `reduce_over_group` with plus. */
  method ReduceSum(lanes: seq<real>) returns (r: real)
    ensures r == Total(lanes)
  {
    r := 0.0;
    for k := 0 to |lanes|
      invariant r == SumRange(lanes, 0, k)
    {
      r := r + lanes[k];
    }
  }

  /** Adding up the lanes' sums is adding up the row. */
  lemma LanesTotal(s: seq<real>, lanes: seq<real>, w: nat)
    requires 0 < w == |lanes| && forall l :: 0 <= l < w ==> lanes[l] == Strided(s, l, w, |s|)
    ensures Total(lanes) == SumRange(s, 0, |s|) == Total(s)
  {
    var f := (l: nat) => Strided(s, l, w, |s|);
    SumRangeIsSum(lanes, 0, w, f);
    LanesCover(s, w, |s|, f);
  }
}
