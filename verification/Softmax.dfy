/** Max-subtracted, masked softmax of a row by a group of lanes, in exact arithmetic. */
module Softmax {
  import opened Wrappers
  import opened Sums
  import opened Exponential
  import opened Lanes

  /** A logit or a mask entry: a number, or minus infinity, whose exp is zero. */
  datatype Logit = NegInf | Fin(r: real)

  /** The smallest normal f32, 2^-126. */
  const FLT_MIN: real := 1.0 / 85070591730234615865843651857942052864.0

  /** `x[i] * scale + mask[i]`. */
  function Value(x: seq<real>, mask: Option<seq<Logit>>, scale: real, i: nat): Logit
    requires i < |x| && (mask.Some? ==> |mask.value| == |x|)
  {
    if mask.None? then Fin(Mul(x[i], scale))
    else if mask.value[i].NegInf? then NegInf
    else Fin(Mul(x[i], scale) + mask.value[i].r)
  }

  ghost function Values(x: seq<real>, mask: Option<seq<Logit>>, scale: real): (r: seq<Logit>)
    requires mask.Some? ==> |mask.value| == |x|
    ensures |r| == |x| && forall i :: 0 <= i < |x| ==> r[i] == Value(x, mask, scale, i)
  {
    seq(|x|, i requires 0 <= i < |x| => Value(x, mask, scale, i))
  }

  /** exp of a logit, less a maximum. */
  function Term(exp: ExpFn, v: Logit, mx: real): real {
    if v.NegInf? then 0.0 else Exp(exp, v.r - mx)
  }

  ghost function Terms(exp: ExpFn, vals: seq<Logit>, mx: real): (r: seq<real>)
    ensures |r| == |vals| && forall i :: 0 <= i < |vals| ==> r[i] == Term(exp, vals[i], mx)
  {
    seq(|vals|, i requires 0 <= i < |vals| => Term(exp, vals[i], mx))
  }

  /** The two-pass definition: each entry's share of the sum of exponentials. */
  ghost predicate IsSoftmax(exp: ExpFn, vals: seq<Logit>, row: seq<real>) {
    && |row| == |vals|
    && Total(Terms(exp, vals, 0.0)) > 0.0
    && (forall i :: 0 <= i < |row| ==> row[i] == Term(exp, vals[i], 0.0) / Total(Terms(exp, vals, 0.0)))
  }

  /** A logit no smaller than any f32. */
  ghost predicate InRange(v: Logit) { v.Fin? && v.r >= LOWEST }

  ghost predicate Bounds(vals: seq<Logit>, mx: real) {
    forall i :: 0 <= i < |vals| && vals[i].Fin? ==> vals[i].r <= mx
  }

  ghost predicate Attained(vals: seq<Logit>, mx: real) {
    mx == LOWEST || exists i :: 0 <= i < |vals| && vals[i] == Fin(mx)
  }

  ghost function Exps(exp: ExpFn, s: seq<real>): (r: seq<real>)
    ensures |r| == |s| && forall i :: 0 <= i < |s| ==> r[i] == Exp(exp, s[i])
  {
    seq(|s|, i requires 0 <= i < |s| => Exp(exp, s[i]))
  }

  /** A mask entry multiplies the term of its logit, by its exponential or by zero, whatever the scale. */
  lemma MaskMultiplies(exp: ExpFn, x: seq<real>, mask: seq<Logit>, scale: real, i: nat)
    requires i < |x| == |mask|
    ensures Term(exp, Value(x, Some(mask), scale, i), 0.0)
      == Mul(Term(exp, Value(x, None, scale, i), 0.0), Term(exp, mask[i], 0.0))
  {
    if mask[i].Fin? {
      ExpAdd(exp, Mul(x[i], scale), mask[i].r);
    }
  }

  /** The scale is of the row: scaling the row first and not then is the same. */
  lemma ScaleIsOfRow(x: seq<real>, y: seq<real>, mask: Option<seq<Logit>>, scale: real, i: nat)
    requires i < |x| == |y| && y[i] == x[i] * scale && (mask.Some? ==> |mask.value| == |x|)
    ensures Value(x, mask, scale, i) == Value(y, mask, 1.0, i)
  {
  }

  // ---- sums of terms -----------------------------------------------------------------------------

  lemma {:induction false} TotalScale(s: seq<real>, t: seq<real>, c: real, n: nat)
    requires n <= |s| == |t| && forall i :: 0 <= i < n ==> t[i] == Mul(s[i], c)
    ensures SumRange(t, 0, n) == Mul(SumRange(s, 0, n), c)
  {
    if n > 0 {
      TotalScale(s, t, c, n - 1);
    }
  }

  lemma {:induction false} TotalAtLeast(s: seq<real>, k: nat, n: nat)
    requires n <= |s| && forall i :: 0 <= i < n ==> s[i] >= 0.0
    ensures SumRange(s, 0, n) >= if k < n then s[k] else 0.0
  {
    if n > 0 {
      TotalAtLeast(s, k, n - 1);
    }
  }

  lemma {:induction false} TotalZero(s: seq<real>, n: nat)
    requires n <= |s| && forall i :: 0 <= i < n ==> s[i] == 0.0
    ensures SumRange(s, 0, n) == 0.0
  {
    if n > 0 {
      TotalZero(s, n - 1);
    }
  }

  /** Terms less a maximum are the plain terms over a common factor. */
  lemma TermsShift(exp: ExpFn, vals: seq<Logit>, mx: real)
    ensures forall i :: 0 <= i < |vals| ==> Mul(Term(exp, vals[i], mx), Exp(exp, mx)) == Term(exp, vals[i], 0.0)
    ensures Mul(Total(Terms(exp, vals, mx)), Exp(exp, mx)) == Total(Terms(exp, vals, 0.0))
  {
    forall i | 0 <= i < |vals| ensures Mul(Term(exp, vals[i], mx), Exp(exp, mx)) == Term(exp, vals[i], 0.0) {
      if vals[i].Fin? {
        ExpShift(exp, vals[i].r, mx);
        assert vals[i].r - 0.0 == vals[i].r;
      }
    }
    TotalScale(Terms(exp, vals, mx), Terms(exp, vals, 0.0), Exp(exp, mx), |vals|);
  }

  /** With a logit in range the maximum is attained, its term is one, and the clamp does nothing. */
  lemma ClampIdle(exp: ExpFn, vals: seq<Logit>, mx: real)
    requires Bounds(vals, mx) && Attained(vals, mx) && mx >= LOWEST
    requires exists i :: 0 <= i < |vals| && InRange(vals[i])
    ensures Total(Terms(exp, vals, mx)) >= 1.0 > FLT_MIN
  {
    var k :| 0 <= k < |vals| && vals[k] == Fin(mx) by {
      var i :| 0 <= i < |vals| && InRange(vals[i]);
      if mx == LOWEST {
        assert vals[i] == Fin(mx);
      }
    }
    ExpZero(exp);
    TotalAtLeast(Terms(exp, vals, mx), k, |vals|);
  }

  lemma QuotientShift(t: real, s: real, e: real, inv: real)
    requires s > 0.0 && e > 0.0 && Mul(inv, s) == 1.0
    ensures Mul(s, e) > 0.0
    ensures Mul(t, inv) == Mul(t, e) / Mul(s, e)
  {
    var q := Mul(t, inv);
    assert q * (s * e) == t * e * (inv * s);
  }

  lemma RowIsSoftmax(exp: ExpFn, vals: seq<Logit>, mx: real, row: seq<real>, inv: real)
    requires |row| == |vals| && Total(Terms(exp, vals, mx)) > 0.0
    requires Mul(inv, Total(Terms(exp, vals, mx))) == 1.0
    requires forall i :: 0 <= i < |vals| ==> row[i] == Mul(Term(exp, vals[i], mx), inv)
    ensures IsSoftmax(exp, vals, row)
  {
    hide Total, Term, Mul;
    TermsShift(exp, vals, mx);
    var s := Total(Terms(exp, vals, mx));
    QuotientShift(0.0, s, Exp(exp, mx), inv);
    forall i | 0 <= i < |row| ensures row[i] == Term(exp, vals[i], 0.0) / Total(Terms(exp, vals, 0.0)) {
      QuotientShift(Term(exp, vals[i], mx), s, Exp(exp, mx), inv);
    }
  }

  /** The shares of a row add up to one. */
  lemma SharesSumToOne(exp: ExpFn, vals: seq<Logit>, row: seq<real>)
    requires IsSoftmax(exp, vals, row)
    ensures Total(row) == 1.0
  {
    var s := Total(Terms(exp, vals, 0.0));
    forall i | 0 <= i < |row| ensures row[i] == Mul(Terms(exp, vals, 0.0)[i], 1.0 / s) {
      assert Term(exp, vals[i], 0.0) / s == Term(exp, vals[i], 0.0) * (1.0 / s);
    }
    TotalScale(Terms(exp, vals, 0.0), row, 1.0 / s, |row|);
    assert s * (1.0 / s) == 1.0;
  }

  // ---- moearc_softmax ----------------------------------------------------------------------------

  /** One lane's maximum. */
  method LaneMax(x: seq<real>, mask: Option<seq<Logit>>, scale: real, lane: nat) returns (mx: real)
    requires lane < WG && (mask.Some? ==> |mask.value| == |x|)
    ensures mx >= LOWEST && Attained(Values(x, mask, scale), mx)
    ensures forall i :: 0 <= i < |x| && i % WG == lane && Value(x, mask, scale, i).Fin? ==> Value(x, mask, scale, i).r <= mx
  {
    hide Value, Values, Attained;
    ghost var vals := Values(x, mask, scale);
    mx := LOWEST;
    var i := lane;
    LaneBegins(lane, WG);
    AttainedAt(vals, mx);
    while i < |x|
      invariant i % WG == lane && mx >= LOWEST && Attained(vals, mx)
      invariant forall j :: 0 <= j < i && j < |x| && j % WG == lane && vals[j].Fin? ==> vals[j].r <= mx
      decreases |x| - i
    {
      var v := Value(x, mask, scale, i);
      if v.Fin? && v.r > mx {
        mx := v.r;
        assert vals[i] == Fin(mx);
        AttainedAt(vals, mx);
      }
      LaneNext(i, WG);
      i := i + WG;
    }
  }

  lemma AttainedAt(vals: seq<Logit>, mx: real)
    ensures mx == LOWEST || Fin(mx) in vals ==> Attained(vals, mx)
  {
  }

  /** The group's maximum. */
  method GroupMax(x: seq<real>, mask: Option<seq<Logit>>, scale: real) returns (mx: real)
    requires mask.Some? ==> |mask.value| == |x|
    ensures mx >= LOWEST && Attained(Values(x, mask, scale), mx) && Bounds(Values(x, mask, scale), mx)
  {
    mx := LOWEST;
    ghost var vals := Values(x, mask, scale);
    for lane := 0 to WG
      invariant mx >= LOWEST && Attained(vals, mx)
      invariant forall i :: 0 <= i < |x| && i % WG < lane && vals[i].Fin? ==> vals[i].r <= mx
    {
      var one := LaneMax(x, mask, scale, lane);
      if one > mx {
        mx := one;
      }
    }
  }

  /** One lane's share of the sum of exponentials. */
  method LaneExpSum(exp: ExpFn, x: seq<real>, mask: Option<seq<Logit>>, scale: real, mx: real, lane: nat)
    returns (sum: real)
    requires lane < WG && (mask.Some? ==> |mask.value| == |x|)
    ensures sum == Strided(Terms(exp, Values(x, mask, scale), mx), lane, WG, |x|)
  {
    ghost var terms := Terms(exp, Values(x, mask, scale), mx);
    sum := 0.0;
    var i := lane;
    StridedNothing(terms, lane, WG, Min(lane, |x|));
    while i < |x|
      invariant i % WG == lane
      invariant sum == Strided(terms, lane, WG, Min(i, |x|))
      decreases |x| - i
    {
      StridedStep(terms, WG, i, Min(i + WG, |x|));
      LaneStep(i, WG);
      sum := sum + Term(exp, Value(x, mask, scale, i), mx);
      i := i + WG;
    }
  }

  method GroupExpSum(exp: ExpFn, x: seq<real>, mask: Option<seq<Logit>>, scale: real, mx: real) returns (sum: real)
    requires mask.Some? ==> |mask.value| == |x|
    ensures sum == Total(Terms(exp, Values(x, mask, scale), mx))
  {
    ghost var terms := Terms(exp, Values(x, mask, scale), mx);
    var lanes: seq<real> := [];
    while |lanes| < WG
      invariant |lanes| <= WG
      invariant forall l :: 0 <= l < |lanes| ==> lanes[l] == Strided(terms, l, WG, |x|)
    {
      var one := LaneExpSum(exp, x, mask, scale, mx, |lanes|);
      lanes := lanes + [one];
    }
    sum := ReduceSum(lanes);
    LanesTotal(terms, lanes, WG);
  }

  /** The kernel's row in full: terms less the largest logit (or -FLT_MAX), over their sum clamped from below. */
  ghost predicate IsClamped(exp: ExpFn, vals: seq<Logit>, row: seq<real>) {
    exists mx: real :: ClampedBy(exp, vals, row, mx)
  }

  ghost predicate ClampedBy(exp: ExpFn, vals: seq<Logit>, row: seq<real>, mx: real) {
    && Bounds(vals, mx) && Attained(vals, mx) && mx >= LOWEST && |row| == |vals|
    && (forall i :: 0 <= i < |vals| ==> row[i] == Mul(Term(exp, vals[i], mx), Inverse(Total(Terms(exp, vals, mx)))))
  }

  function Inverse(sum: real): real { 1.0 / (if sum > FLT_MIN then sum else FLT_MIN) }

  /**
   What a row of logits becomes: the clamped quotient, which is its softmax as soon as one logit is in range;
   a masked entry is zero, also in a row that is masked throughout.
   */
  ghost predicate IsRow(exp: ExpFn, vals: seq<Logit>, row: seq<real>) {
    && IsClamped(exp, vals, row) && |row| == |vals|
    && ((exists i :: 0 <= i < |vals| && InRange(vals[i])) ==> IsSoftmax(exp, vals, row))
    && (forall i :: 0 <= i < |vals| && vals[i].NegInf? ==> row[i] == 0.0)
  }

  /** One row of the kernel, written to `out` from `at` on. */
  method SoftmaxRow(out: array<real>, at: nat, exp: ExpFn, x: seq<real>, mask: Option<seq<Logit>>, scale: real)
    requires mask.Some? ==> |mask.value| == |x|
    requires at + |x| <= out.Length
    modifies out
    ensures IsRow(exp, Values(x, mask, scale), out[at..at + |x|])
    ensures forall a :: 0 <= a < out.Length && !(at <= a < at + |x|) ==> out[a] == old(out[a])
  {
    hide Term, Terms, Total, Value, Values, Mul, Inverse, IsRow, Bounds, Attained, InRange;
    ghost var vals := Values(x, mask, scale);
    var mx := GroupMax(x, mask, scale);
    var sum := GroupExpSum(exp, x, mask, scale, mx);
    var inv := Inverse(sum);
    for lane := 0 to WG
      invariant forall i :: 0 <= i < |x| && i % WG < lane ==> out[at + i] == Mul(Term(exp, vals[i], mx), inv)
      invariant forall a :: 0 <= a < out.Length && !(at <= a < at + |x|) ==> out[a] == old(out[a])
    {
      var i := lane;
      while i < |x|
        invariant i % WG == lane
        invariant forall j :: 0 <= j < |x| && j % WG < lane ==> out[at + j] == Mul(Term(exp, vals[j], mx), inv)
        invariant forall j :: 0 <= j < i && j < |x| && j % WG == lane ==> out[at + j] == Mul(Term(exp, vals[j], mx), inv)
        invariant forall a :: 0 <= a < out.Length && !(at <= a < at + |x|) ==> out[a] == old(out[a])
        decreases |x| - i
      {
        out[at + i] := Mul(Term(exp, Value(x, mask, scale, i), mx), inv);
        LaneNext(i, WG);
        i := i + WG;
      }
    }
    RowCases(exp, vals, mx, out[at..at + |x|]);
  }

  lemma RowCases(exp: ExpFn, vals: seq<Logit>, mx: real, row: seq<real>)
    requires ClampedBy(exp, vals, row, mx)
    ensures IsRow(exp, vals, row)
  {
    var sum := Total(Terms(exp, vals, mx));
    var inv := Inverse(sum);
    if exists i :: 0 <= i < |vals| && InRange(vals[i]) {
      ClampIdle(exp, vals, mx);
      assert inv * sum == 1.0;
      hide Terms, Total, Inverse;
      RowIsSoftmax(exp, vals, mx, row, inv);
    }
  }

  // ---- all rows ----------------------------------------------------------------------------------

  /** The mask of one row. */
  function MaskOf(masks: Option<seq<seq<Logit>>>, row: nat): Option<seq<Logit>>
    requires masks.Some? ==> row < |masks.value|
  {
    if masks.Some? then Some(masks.value[row]) else None
  }

  ghost predicate Rectangular(xs: seq<seq<real>>, masks: Option<seq<seq<Logit>>>, nCols: nat) {
    && (forall r :: 0 <= r < |xs| ==> |xs[r]| == nCols)
    && (masks.Some? ==> |masks.value| == |xs| && forall r :: 0 <= r < |xs| ==> |masks.value[r]| == nCols)
  }

  /** Row r of the output is done. */
  ghost predicate RowDone(out: seq<real>, exp: ExpFn, xs: seq<seq<real>>, masks: Option<seq<seq<Logit>>>, nCols: nat,
                          scale: real, r: nat)
    requires Rectangular(xs, masks, nCols) && r < |xs|
  {
    var at := Tasks.Flat(nCols, r, 0);
    at + nCols <= |out| && IsRow(exp, Values(xs[r], MaskOf(masks, r), scale), out[at..at + nCols])
  }

  /** The first n rows of the output are done. */
  ghost predicate RowsDone(out: seq<real>, exp: ExpFn, xs: seq<seq<real>>, masks: Option<seq<seq<Logit>>>, nCols: nat,
                           scale: real, n: nat)
    requires Rectangular(xs, masks, nCols) && n <= |xs|
  {
    forall r :: 0 <= r < n ==> RowDone(out, exp, xs, masks, nCols, scale, r)
  }

  lemma RowKept(now: seq<real>, was: seq<real>, exp: ExpFn, xs: seq<seq<real>>, masks: Option<seq<seq<Logit>>>,
                nCols: nat, scale: real, r: nat, at: nat)
    requires Rectangular(xs, masks, nCols) && r < |xs| && |now| == |was|
    requires RowDone(was, exp, xs, masks, nCols, scale, r)
    requires Tasks.Flat(nCols, r, 0) + nCols <= at
    requires forall a :: 0 <= a < |now| && a < at ==> now[a] == was[a]
    ensures RowDone(now, exp, xs, masks, nCols, scale, r)
  {
    hide IsRow, Values, Tasks.Flat;
    var from := Tasks.Flat(nCols, r, 0);
    assert now[from..from + nCols] == was[from..from + nCols];
  }

  lemma NextRow(now: seq<real>, was: seq<real>, exp: ExpFn, xs: seq<seq<real>>, masks: Option<seq<seq<Logit>>>,
                nCols: nat, scale: real, n: nat)
    requires Rectangular(xs, masks, nCols) && n < |xs| && |now| == |was|
    requires RowsDone(was, exp, xs, masks, nCols, scale, n) && RowDone(now, exp, xs, masks, nCols, scale, n)
    requires forall a :: 0 <= a < |now| && a < Tasks.Flat(nCols, n, 0) ==> now[a] == was[a]
    ensures RowsDone(now, exp, xs, masks, nCols, scale, n + 1)
  {
    hide RowDone, Tasks.Flat, Rectangular;
    Tasks.Spans(n + 1, nCols, n);
    forall r | 0 <= r < n ensures RowDone(now, exp, xs, masks, nCols, scale, r) {
      RowKept(now, was, exp, xs, masks, nCols, scale, r, Tasks.Flat(nCols, n, 0));
    }
  }

  datatype SoftmaxStatus = Normalised | NoColumns

  /** The work-group of row r, the rows before it being done. */
  method WorkGroup(out: array<real>, exp: ExpFn, xs: seq<seq<real>>, masks: Option<seq<seq<Logit>>>, nCols: nat,
                   scale: real, r: nat)
    requires Rectangular(xs, masks, nCols) && r < |xs| && Tasks.Flat(nCols, r, 0) + nCols <= out.Length
    requires RowsDone(out[..], exp, xs, masks, nCols, scale, r)
    modifies out
    ensures RowsDone(out[..], exp, xs, masks, nCols, scale, r + 1)
  {
    hide IsRow, Values, Tasks.Flat, RowsDone, RowDone;
    ghost var was := out[..];
    var at := Tasks.Flat(nCols, r, 0);
    SoftmaxRow(out, at, exp, xs[r], MaskOf(masks, r), scale);
    RowIsDone(out[..], exp, xs, masks, nCols, scale, r, out[at..at + nCols]);
    NextRow(out[..], was, exp, xs, masks, nCols, scale, r);
  }

  /** `moearc_softmax`, row by row. */
  method SoftmaxRows(out: array<real>, exp: ExpFn, xs: seq<seq<real>>, masks: Option<seq<seq<Logit>>>, nCols: nat,
                     scale: real)
    returns (rc: SoftmaxStatus)
    requires Rectangular(xs, masks, nCols) && out.Length == |xs| * nCols
    modifies out
    ensures rc == if nCols == 0 then NoColumns else Normalised
    ensures rc.Normalised? ==> RowsDone(out[..], exp, xs, masks, nCols, scale, |xs|)
    ensures rc.NoColumns? ==> out[..] == old(out[..])
  {
    if nCols == 0 {
      return NoColumns;
    }
    hide RowDone, Rectangular, Tasks.Flat;
    for r := 0 to |xs|
      invariant RowsDone(out[..], exp, xs, masks, nCols, scale, r)
    {
      hide RowsDone;
      Tasks.Spans(|xs|, nCols, r);
      WorkGroup(out, exp, xs, masks, nCols, scale, r);
    }
    return Normalised;
  }

  lemma RowIsDone(out: seq<real>, exp: ExpFn, xs: seq<seq<real>>, masks: Option<seq<seq<Logit>>>, nCols: nat, scale: real,
                  r: nat, row: seq<real>)
    requires Rectangular(xs, masks, nCols) && r < |xs| && Tasks.Flat(nCols, r, 0) + nCols <= |out|
    requires row == out[Tasks.Flat(nCols, r, 0)..Tasks.Flat(nCols, r, 0) + nCols]
    requires IsRow(exp, Values(xs[r], MaskOf(masks, r), scale), row)
    ensures RowDone(out, exp, xs, masks, nCols, scale, r)
  {
    hide IsRow, Values, Tasks.Flat;
  }
}
