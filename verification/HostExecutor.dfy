/** The threaded executor against the sequential expert: protocol and arithmetic put together. */
module HostExecutor {
  import opened Sums
  import opened HostKernels
  import opened HostExperts
  import P = HostProtocol
  import T = HostTheorems

  /** The pool's geometry is the model's. */
  predicate Fits(g: P.Geometry, m: Model) {
    g.Valid() && m.Valid() && g.nFf == m.gate.nRows && g.nEmbd == m.down.nRows
  }

  /**
   Job j runs these experts on x: its phase-A rows are what `SwigluRows` writes, and its phase-B rows
   are what `MatvecRows` writes whenever it is handed an activation with its own group sums.
   */
  ghost predicate Routes(m: Model, j: P.Job, experts: seq<Expert>, x: seq<real>) {
    && |experts| == j.nExperts && |x| == m.gate.nCols
    && (forall e: nat, r: nat :: e < |experts| && r < m.gate.nRows ==> j.rowA(e, r) == ActRow(m, experts[e], x, r))
    && (forall e: nat, r: nat, act, xs :: e < |experts| && |act| == m.down.nCols && IsGroupSums(act, xs) ==>
          j.rowB(e, r, act, xs) == DownRow(m, experts[e], act, r))
  }

  /** Every list of experts has a job that routes it. */
  lemma JobFor(m: Model, experts: seq<Expert>, x: seq<real>, weights: seq<real>) returns (j: P.Job)
    requires |x| == m.gate.nCols
    ensures Routes(m, j, experts, x) && j.weights == weights
  {
    hide ActRow, DownRow, IsGroupSums;
    j := P.Job(|experts|,
               (e: nat, r: nat) => if e < |experts| then ActRow(m, experts[e], x, r) else 0.0,
               (e: nat, r: nat, act, xs) => if e < |experts| then DownRow(m, experts[e], act, r) else 0.0,
               weights);
  }

  /** A row computed by the two phases of the pool is that row of the expert computed alone. */
  lemma PoolRowIsExpertRow(g: P.Geometry, m: Model, j: P.Job, experts: seq<Expert>, x: seq<real>, e: nat, r: nat)
    requires Fits(g, m) && Routes(m, j, experts, x) && e < |experts| && r < g.nEmbd
    ensures P.OutRow(g, j, e, r) == ExpertFfn(m, experts[e], x)[r]
  {
    hide ActRow, DownRow, IsGroupSums, GroupSums;
    assert P.ActOf(g, j, e) == Act(m, experts[e], x);
    GroupSumsAre(Act(m, experts[e], x));
  }

  /** Entry d of the router-order weighted sum of what the first n experts compute. */
  ghost function Blend(m: Model, experts: seq<Expert>, weights: seq<real>, x: seq<real>, d: nat, n: nat): real
    requires n <= |experts| == |weights| && d < m.down.nRows
  {
    if n == 0 then 0.0
    else Blend(m, experts, weights, x, d, n - 1) + weights[n - 1] * ExpertFfn(m, experts[n - 1], x)[d]
  }

  lemma {:induction false} WeightedSumIsBlend(g: P.Geometry, m: Model, j: P.Job, experts: seq<Expert>, x: seq<real>, d: nat, n: nat)
    requires Fits(g, m) && Routes(m, j, experts, x) && d < g.nEmbd
    requires n <= |experts| == |j.weights|
    ensures P.WeightedSum(g, j, d, n) == Blend(m, experts, j.weights, x, d, n)
  {
    hide Routes, ExpertFfn;
    if n > 0 {
      WeightedSumIsBlend(g, m, j, experts, x, d, n - 1);
      PoolRowIsExpertRow(g, m, j, experts, x, n - 1, d);
    }
  }

  /**
   For any number of threads and any interleaving, the i-th result `sync` hands back is, entry by
   entry, the weighted sum of `expert_ffn_ext` over the experts of the i-th job, with every weight
   dequantised on its own.
   */
  lemma PoolMatchesSequential(g: P.Geometry, j0: P.Job, schedule: seq<P.Action>, m: Model,
                              i: nat, experts: seq<Expert>, x: seq<real>)
    requires Fits(g, m) && i < |P.Reach(g, j0, schedule).returned|
    requires i < |P.Reach(g, j0, schedule).log| && Routes(m, P.Reach(g, j0, schedule).log[i], experts, x)
    ensures var s := P.Reach(g, j0, schedule);
      && |s.log[i].weights| == |experts|
      && |s.returned[i]| == g.nEmbd
      && forall d: nat :: d < g.nEmbd ==> s.returned[i][d] == Blend(m, experts, s.log[i].weights, x, d, |experts|)
  {
    T.ScheduleIndependence(g, j0, schedule);
    var s := P.Reach(g, j0, schedule);
    var j := s.log[i];
    assert |experts| == j.nExperts;
    hide Routes, P.WeightedSum, Blend;
    forall d: nat | d < g.nEmbd ensures s.returned[i][d] == Blend(m, experts, j.weights, x, d, |experts|) {
      WeightedSumIsBlend(g, m, j, experts, x, d, |experts|);
    }
  }
}
