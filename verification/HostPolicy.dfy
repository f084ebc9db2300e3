/** The split of a block's experts between host and device: a performance knob that changes no result. */
module HostPolicy {
  import opened HostExperts
  import opened HostExecutor
  import opened DeviceDispatch
  import opened DeviceExperts
  import opened FiniteSets
  import Tasks
  import P = HostProtocol

  /** `HostPolicy`. */
  datatype Policy = Off | Fraction(f: real) | Over(n: nat)

  function Ceiling(r: real): int { -((-r).Floor) }

  /** `host_count`. */
  function HostCount(p: Policy, misses: nat): (n: nat)
    ensures n <= misses
  {
    match p
    case Off => 0
    case Fraction(f) =>
      var n := Ceiling(misses as real * MinR(MaxR(f, 0.0), 1.0));
      if n < 0 then 0 else if n > misses then misses else n
    case Over(n) => if misses > n then misses - n else 0
  }

  /**
   What each policy sends to the host: nothing; the least whole number of misses that is no less than the
   fraction, all for 1 and more and none for 0 and less; or all but the first n.
   */
  lemma HostCountMeans(p: Policy, misses: nat)
    ensures p.Off? ==> HostCount(p, misses) == 0
    ensures p.Over? ==> misses == HostCount(p, misses) + if p.n < misses then p.n else misses
    ensures p.Fraction? && p.f <= 0.0 ==> HostCount(p, misses) == 0
    ensures p.Fraction? && p.f >= 1.0 ==> HostCount(p, misses) == misses
    ensures p.Fraction? && 0.0 <= p.f <= 1.0 ==>
      HostCount(p, misses) as real - 1.0 < misses as real * p.f <= HostCount(p, misses) as real
  {
    if p.Fraction? {
      var m := misses as real;
      var share := MinR(MaxR(p.f, 0.0), 1.0);
      assert share == if p.f <= 0.0 then 0.0 else if p.f >= 1.0 then 1.0 else p.f;
      FractionFits(m, share);
      CeilingIs(m * share, misses);
      if p.f <= 0.0 {
        CeilingIs(0.0, 0);
      }
    }
  }

  lemma CeilingIs(r: real, n: nat)
    requires 0.0 <= r <= n as real
    ensures 0 <= Ceiling(r) <= n && Ceiling(r) as real - 1.0 < r <= Ceiling(r) as real
  {
  }

  lemma FractionFits(m: real, f: real)
    requires m >= 0.0 && 0.0 <= f <= 1.0
    ensures 0.0 <= m * f <= m && (f == 0.0 ==> m * f == 0.0) && (f == 1.0 ==> m * f == m)
  {
    assert m * (1.0 - f) >= 0.0;
  }

  function Misses(wanted: seq<nat>, resident: set<nat>): (n: nat)
    ensures n <= |wanted|
  {
    if wanted == [] then 0
    else Misses(wanted[..|wanted| - 1], resident) + if wanted[|wanted| - 1] in resident then 0 else 1
  }

  /** The items on one side of a mask, in order. */
  function Kept<T>(s: seq<T>, mask: seq<bool>, side: bool): (k: seq<T>)
    requires |mask| == |s|
  {
    if s == [] then []
    else
      var n := |s| - 1;
      Kept(s[..n], mask[..n], side) + if mask[n] == side then [s[n]] else []
  }

  lemma {:induction false} KeptTogether<T, U>(s: seq<T>, t: seq<U>, mask: seq<bool>, side: bool)
    requires |mask| == |s| == |t|
    ensures |Kept(s, mask, side)| == |Kept(t, mask, side)|
  {
    if s != [] {
      var n := |s| - 1;
      KeptTogether(s[..n], t[..n], mask[..n], side);
    }
  }

  /** The first misses, as many as the budget, go to the host. */
  ghost predicate Budgeted(mask: seq<bool>, wanted: seq<nat>, resident: set<nat>, budget: nat) {
    && |mask| == |wanted|
    && forall i :: 0 <= i < |mask| ==> mask[i] == (wanted[i] !in resident && Misses(wanted[..i], resident) < budget)
  }

  /** Experts and weights are divided by the mask. */
  ghost predicate Divided(wanted: seq<nat>, weights: seq<real>, mask: seq<bool>, cpu: seq<nat>, cpuWeights: seq<real>,
                          gpu: seq<nat>, gpuWeights: seq<real>) {
    && |mask| == |wanted| == |weights|
    && cpu == Kept<nat>(wanted, mask, true) && cpuWeights == Kept(weights, mask, true)
    && gpu == Kept<nat>(wanted, mask, false) && gpuWeights == Kept(weights, mask, false)
  }

  /** The loop that divides the experts a block wants; the cache is asked and not told. */
  method Split(p: Policy, wanted: seq<nat>, weights: seq<real>, resident: set<nat>)
    returns (cpu: seq<nat>, cpuWeights: seq<real>, gpu: seq<nat>, gpuWeights: seq<real>, ghost mask: seq<bool>)
    requires |weights| == |wanted|
    ensures Budgeted(mask, wanted, resident, HostCount(p, Misses(wanted, resident)))
    ensures Divided(wanted, weights, mask, cpu, cpuWeights, gpu, gpuWeights)
  {
    hide *;
    cpu, cpuWeights, gpu, gpuWeights, mask := [], [], [], [], [];
    var whole := HostCount(p, Misses(wanted, resident));
    var budget := whole;
    NothingDivided(wanted, weights, resident, whole);
    for i := 0 to |wanted|
      invariant |mask| == i && Divided(wanted[..i], weights[..i], mask, cpu, cpuWeights, gpu, gpuWeights)
      invariant Budgeted(mask, wanted[..i], resident, whole)
      invariant budget == BudgetLeft(wanted[..i], resident, whole)
    {
      var host := budget > 0 && wanted[i] !in resident;
      NextBudgeted(mask, wanted, resident, whole, i, host);
      NextDivided(wanted, weights, mask, cpu, cpuWeights, gpu, gpuWeights, i, host);
      mask := mask + [host];
      if host {
        cpu, cpuWeights := cpu + [wanted[i]], cpuWeights + [weights[i]];
        budget := budget - 1;
      } else {
        gpu, gpuWeights := gpu + [wanted[i]], gpuWeights + [weights[i]];
      }
    }
    assert wanted[..|wanted|] == wanted && weights[..|wanted|] == weights;
  }

  lemma NothingDivided(wanted: seq<nat>, weights: seq<real>, resident: set<nat>, whole: nat)
    ensures wanted[..0] == [] && weights[..0] == [] && Divided([], [], [], [], [], [], [])
    ensures Budgeted([], [], resident, whole) && BudgetLeft([], resident, whole) == whole
  {
  }

  lemma NextDivided(wanted: seq<nat>, weights: seq<real>, mask: seq<bool>, cpu: seq<nat>, cpuWeights: seq<real>,
                    gpu: seq<nat>, gpuWeights: seq<real>, i: nat, host: bool)
    requires i < |wanted| == |weights| && |mask| == i
    requires Divided(wanted[..i], weights[..i], mask, cpu, cpuWeights, gpu, gpuWeights)
    ensures host ==> Divided(wanted[..i + 1], weights[..i + 1], mask + [host], cpu + [wanted[i]],
                             cpuWeights + [weights[i]], gpu, gpuWeights)
    ensures !host ==> Divided(wanted[..i + 1], weights[..i + 1], mask + [host], cpu, cpuWeights, gpu + [wanted[i]],
                              gpuWeights + [weights[i]])
  {
    hide Kept;
    NextKept<nat>(wanted, mask, i, host);
    NextKept(weights, mask, i, host);
  }

  function BudgetLeft(wanted: seq<nat>, resident: set<nat>, whole: nat): nat {
    if Misses(wanted, resident) < whole then whole - Misses(wanted, resident) else 0
  }

  lemma NextKept<T>(s: seq<T>, mask: seq<bool>, i: nat, host: bool)
    requires i < |s| && |mask| == i
    ensures Kept(s[..i + 1], mask + [host], true) == Kept(s[..i], mask, true) + if host then [s[i]] else []
    ensures Kept(s[..i + 1], mask + [host], false) == Kept(s[..i], mask, false) + if host then [] else [s[i]]
  {
    assert s[..i + 1][..i] == s[..i] && (mask + [host])[..i] == mask;
    KeptLast(s[..i + 1], mask + [host], i);
  }

  lemma NextBudgeted(mask: seq<bool>, wanted: seq<nat>, resident: set<nat>, budget: nat, i: nat, host: bool)
    requires i < |wanted| && Budgeted(mask, wanted[..i], resident, budget)
    requires host == (wanted[i] !in resident && BudgetLeft(wanted[..i], resident, budget) > 0)
    ensures Budgeted(mask + [host], wanted[..i + 1], resident, budget)
    ensures BudgetLeft(wanted[..i + 1], resident, budget)
      == BudgetLeft(wanted[..i], resident, budget) - if host then 1 else 0
  {
    hide Misses;
    forall k | 0 <= k <= i ensures wanted[..i + 1][..k] == wanted[..k] {
    }
    forall k | 0 <= k < i ensures wanted[..i][..k] == wanted[..k] {
    }
    OneMore(wanted, resident, i);
  }

  lemma OneMore(wanted: seq<nat>, resident: set<nat>, i: nat)
    requires i < |wanted|
    ensures Misses(wanted[..i + 1], resident) == Misses(wanted[..i], resident) + if wanted[i] in resident then 0 else 1
  {
    assert wanted[..i + 1][..i] == wanted[..i];
  }

  // ---- the split adds up -------------------------------------------------------------------------------------

  ghost function WholeBlend(m: Model, es: seq<Expert>, weights: seq<real>, x: seq<real>, d: nat): real
    requires |es| == |weights| && d < m.down.nRows
  {
    Blend(m, es, weights, x, d, |es|)
  }

  lemma {:induction false} BlendOfPrefix(m: Model, es: seq<Expert>, weights: seq<real>, x: seq<real>, d: nat, k: nat, n: nat)
    requires n <= k <= |es| == |weights| && d < m.down.nRows
    ensures Blend(m, es[..k], weights[..k], x, d, n) == Blend(m, es, weights, x, d, n)
  {
    hide ExpertFfn;
    if n > 0 {
      BlendOfPrefix(m, es, weights, x, d, k, n - 1);
    }
  }

  lemma BlendMore(m: Model, es: seq<Expert>, weights: seq<real>, x: seq<real>, d: nat, e: Expert, w: real)
    requires |es| == |weights| && d < m.down.nRows
    ensures WholeBlend(m, es + [e], weights + [w], x, d) == WholeBlend(m, es, weights, x, d) + w * ExpertFfn(m, e, x)[d]
  {
    hide ExpertFfn;
    BlendOfPrefix(m, es + [e], weights + [w], x, d, |es|, |es|);
    assert (es + [e])[..|es|] == es && (weights + [w])[..|es|] == weights;
  }

  lemma BlendJoins(m: Model, es: seq<Expert>, ws: seq<real>, x: seq<real>, d: nat, e: Expert, w: real, host: bool,
                   a: seq<Expert>, aw: seq<real>, b: seq<Expert>, bw: seq<real>)
    requires |es| == |ws| && |a| == |aw| && |b| == |bw| && d < m.down.nRows
    requires WholeBlend(m, es, ws, x, d) == WholeBlend(m, a, aw, x, d) + WholeBlend(m, b, bw, x, d)
    ensures WholeBlend(m, es + [e], ws + [w], x, d)
      == WholeBlend(m, a + (if host then [e] else []), aw + (if host then [w] else []), x, d)
       + WholeBlend(m, b + (if host then [] else [e]), bw + (if host then [] else [w]), x, d)
  {
    hide *;
    BlendMore(m, es, ws, x, d, e, w);
    if host {
      BlendMore(m, a, aw, x, d, e, w);
      assert b + [] == b && bw + [] == bw;
    } else {
      BlendMore(m, b, bw, x, d, e, w);
      assert a + [] == a && aw + [] == aw;
    }
  }

  /** However the experts are divided, the two weighted sums add up to the one over all of them. */
  lemma {:induction false} BlendSplits(m: Model, es: seq<Expert>, weights: seq<real>, mask: seq<bool>, x: seq<real>, d: nat,
                                       a: seq<Expert>, aw: seq<real>, b: seq<Expert>, bw: seq<real>)
    requires |es| == |weights| == |mask| && d < m.down.nRows
    requires a == Kept(es, mask, true) && aw == Kept(weights, mask, true)
    requires b == Kept(es, mask, false) && bw == Kept(weights, mask, false)
    ensures |a| == |aw| && |b| == |bw|
    ensures WholeBlend(m, es, weights, x, d) == WholeBlend(m, a, aw, x, d) + WholeBlend(m, b, bw, x, d)
  {
    if es != [] {
      var n := |es| - 1;
      var before, ws, was, host := es[..n], weights[..n], mask[..n], mask[n];
      var a0, aw0, b0, bw0 :=
        Kept(before, was, true), Kept(ws, was, true), Kept(before, was, false), Kept(ws, was, false);
      KeptLast(es, mask, n);
      KeptLast(weights, mask, n);
      assert es == before + [es[n]] && weights == ws + [weights[n]];
      hide *;
      BlendSplits(m, before, ws, was, x, d, a0, aw0, b0, bw0);
      BlendJoins(m, before, ws, x, d, es[n], weights[n], host, a0, aw0, b0, bw0);
    }
  }

  lemma KeptLast<T>(s: seq<T>, mask: seq<bool>, n: nat)
    requires |mask| == |s| == n + 1
    ensures Kept(s, mask, true) == Kept(s[..n], mask[..n], true) + if mask[n] then [s[n]] else []
    ensures Kept(s, mask, false) == Kept(s[..n], mask[..n], false) + if mask[n] then [] else [s[n]]
  {
  }

  lemma {:induction false} KeptChosen(all: seq<Expert>, ids: seq<nat>, mask: seq<bool>, side: bool, kept: seq<nat>)
    requires |mask| == |ids| && kept == Kept<nat>(ids, mask, side) && forall i :: 0 <= i < |ids| ==> ids[i] < |all|
    ensures forall i :: 0 <= i < |kept| ==> kept[i] < |all|
    ensures Kept(Chosen(all, ids), mask, side) == Chosen(all, kept)
  {
    if ids != [] {
      var n := |ids| - 1;
      var es, before := Chosen(all, ids), Kept<nat>(ids[..n], mask[..n], side);
      assert es[..n] == Chosen(all, ids[..n]) && es[n] == all[ids[n]];
      KeptLast<nat>(ids, mask, n);
      KeptLast(es, mask, n);
      hide Kept, Chosen;
      KeptChosen(all, ids[..n], mask[..n], side, before);
      if mask[n] == side {
        ChosenMore(all, before, ids[n]);
      }
    }
  }

  lemma ChosenMore(all: seq<Expert>, ids: seq<nat>, id: nat)
    requires id < |all| && forall i :: 0 <= i < |ids| ==> ids[i] < |all|
    ensures Chosen(all, ids + [id]) == Chosen(all, ids) + [all[id]]
  {
  }

  /** What an executor owes: the weighted sum over whatever experts it is handed (`PoolMatchesSequential`). */
  ghost predicate Blends(host: (seq<nat>, seq<real>) -> seq<real>, m: Model, all: seq<Expert>, x: seq<real>) {
    forall cpu: seq<nat>, ws: seq<real> ::
      (|cpu| == |ws| && forall k :: 0 <= k < |cpu| ==> cpu[k] < |all|) ==>
        && |host(cpu, ws)| == m.down.nRows
        && forall d :: 0 <= d < m.down.nRows ==> host(cpu, ws)[d] == WholeBlend(m, Chosen(all, cpu), ws, x, d)
  }

  lemma BlendsFor(host: (seq<nat>, seq<real>) -> seq<real>, m: Model, all: seq<Expert>, x: seq<real>, cpu: seq<nat>,
                  ws: seq<real>)
    requires Blends(host, m, all, x) && |cpu| == |ws| && forall k :: 0 <= k < |cpu| ==> cpu[k] < |all|
    ensures |host(cpu, ws)| == m.down.nRows
    ensures forall d :: 0 <= d < m.down.nRows ==> host(cpu, ws)[d] == WholeBlend(m, Chosen(all, cpu), ws, x, d)
  {
  }

  lemma {:induction false} KeptSize<T>(s: seq<T>, mask: seq<bool>, side: bool)
    requires |mask| == |s|
    ensures |Kept(s, mask, side)| <= |s|
  {
    if s != [] {
      KeptSize(s[..|s| - 1], mask[..|s| - 1], side);
    }
  }

  /** Both sides of a division name experts of the block, and their weighted sums add up. */
  lemma SplitFacts(m: Model, all: seq<Expert>, wanted: seq<nat>, weights: seq<real>, mask: seq<bool>, x: seq<real>,
                   cpu: seq<nat>, cpuWeights: seq<real>, gpu: seq<nat>, gpuWeights: seq<real>)
    requires Divided(wanted, weights, mask, cpu, cpuWeights, gpu, gpuWeights)
    requires forall i :: 0 <= i < |wanted| ==> wanted[i] < |all|
    ensures |cpu| == |cpuWeights| && |gpu| == |gpuWeights| && |gpu| <= |wanted| == |weights|
    ensures (forall i :: 0 <= i < |cpu| ==> cpu[i] < |all|) && (forall i :: 0 <= i < |gpu| ==> gpu[i] < |all|)
    ensures forall d :: 0 <= d < m.down.nRows ==>
      WholeBlend(m, Chosen(all, wanted), weights, x, d)
        == WholeBlend(m, Chosen(all, cpu), cpuWeights, x, d) + WholeBlend(m, Chosen(all, gpu), gpuWeights, x, d)
  {
    hide Kept, Chosen, WholeBlend;
    KeptTogether<nat, real>(wanted, weights, mask, true);
    KeptTogether<nat, real>(wanted, weights, mask, false);
    KeptSize<nat>(wanted, mask, false);
    KeptChosen(all, wanted, mask, true, cpu);
    KeptChosen(all, wanted, mask, false, gpu);
    forall d | 0 <= d < m.down.nRows
      ensures WholeBlend(m, Chosen(all, wanted), weights, x, d)
        == WholeBlend(m, Chosen(all, cpu), cpuWeights, x, d) + WholeBlend(m, Chosen(all, gpu), gpuWeights, x, d)
    {
      BlendSplits(m, Chosen(all, wanted), weights, mask, x, d, Chosen(all, cpu), cpuWeights, Chosen(all, gpu), gpuWeights);
    }
  }

  lemma Room(k: nat, most: nat, n: nat)
    requires k <= most
    ensures k * n <= most * n && 2 * k * n <= 2 * most * n
  {
    Tasks.MulLe(n, k, most);
  }

  /** `moearc_add` into its first operand, its work-items in any order. */
  method AddInto(out: array<real>, b: seq<real>, n: nat)
    requires n <= out.Length && n <= |b|
    modifies out
    ensures forall d :: 0 <= d < n ==> out[d] == old(out[d]) + b[d]
    ensures out[n..] == old(out[n..])
  {
    var todo: set<nat> := Below(n);
    while todo != {}
      invariant forall d :: d in todo ==> d < n
      invariant forall d :: 0 <= d < n ==> out[d] == old(out[d]) + if d in todo then 0.0 else b[d]
      invariant out[n..] == old(out[n..])
      decreases |todo|
    {
      var d :| d in todo;
      out[d] := out[d] + b[d];
      todo := todo - {d};
    }
  }

  lemma NothingOnHost(m: Model, all: seq<Expert>, x: seq<real>)
    ensures forall d :: 0 <= d < m.down.nRows ==> WholeBlend(m, Chosen(all, []), [], x, d) == 0.0
  {
  }

  /** The expert part of one block: divide, run the device's share, add the host's. No policy and no cache shows in `ffn`. */
  method Block(p: Policy, resident: set<nat>, m: Model, all: seq<Expert>, wanted: seq<nat>, banks: BiasBanks,
               x: seq<real>, weights: seq<real>, host: (seq<nat>, seq<real>) -> seq<real>,
               gu: array<real>, up: array<real>, act: array<real>, parts: array<real>, ffn: array<real>)
    requires Whole(m) && Clamps(m.act) && |x| == m.gate.nCols && |wanted| == |weights|
    requires |wanted| <= MAX_BATCHED_MATS && (forall i :: 0 <= i < |wanted| ==> wanted[i] < |all|)
    requires BanksOf(banks, m, all) && Blends(host, m, all, x)
    requires gu != up && act != gu && act != up && 2 * |wanted| * m.gate.nRows <= gu.Length
    requires |wanted| * m.gate.nRows <= up.Length && |wanted| * m.gate.nRows <= act.Length
    requires |wanted| * m.down.nRows <= parts.Length && m.down.nRows <= ffn.Length
    modifies gu, up, act, parts, ffn
    ensures forall d :: 0 <= d < m.down.nRows ==> ffn[d] == WholeBlend(m, Chosen(all, wanted), weights, x, d)
  {
    hide *;
    var cpu, cpuWeights, gpu, gpuWeights, mask := Split(p, wanted, weights, resident);
    SplitFacts(m, all, wanted, weights, mask, x, cpu, cpuWeights, gpu, gpuWeights);
    Room(|gpu|, |wanted|, m.gate.nRows);
    Room(|gpu|, |wanted|, m.down.nRows);
    DeviceFfn(m, all, gpu, banks, x, gpuWeights, gu, up, act, parts, ffn);
    DeviceShare(m, all, gpu, gpuWeights, x, ffn[..]);
    if cpu == [] {
      NothingOnHost(m, all, x);
    } else {
      BlendsFor(host, m, all, x, cpu, cpuWeights);
      AddInto(ffn, host(cpu, cpuWeights), m.down.nRows);
    }
  }

  lemma DeviceShare(m: Model, all: seq<Expert>, gpu: seq<nat>, weights: seq<real>, x: seq<real>, ffn: seq<real>)
    requires |gpu| == |weights| && m.down.nRows <= |ffn| && forall i :: 0 <= i < |gpu| ==> gpu[i] < |all|
    requires forall d :: 0 <= d < m.down.nRows ==> ffn[d] == Blend(m, Chosen(all, gpu), weights, x, d, |gpu|)
    ensures forall d :: 0 <= d < m.down.nRows ==> ffn[d] == WholeBlend(m, Chosen(all, gpu), weights, x, d)
  {
  }

  /**
   The result of a block does not depend on the split: what `sync` hands back for the host's share, under any
   schedule of the pool, and what the device computes for the rest add up to the weighted sum over every expert.
   */
  lemma PolicyIrrelevant(g: P.Geometry, j0: P.Job, schedule: seq<P.Action>, i: nat, m: Model, all: seq<Expert>,
                         wanted: seq<nat>, weights: seq<real>, mask: seq<bool>, x: seq<real>,
                         cpu: seq<nat>, cpuWeights: seq<real>, gpu: seq<nat>, gpuWeights: seq<real>, ffn: seq<real>)
    requires Fits(g, m) && forall k :: 0 <= k < |wanted| ==> wanted[k] < |all|
    requires Divided(wanted, weights, mask, cpu, cpuWeights, gpu, gpuWeights)
    requires (forall k :: 0 <= k < |cpu| ==> cpu[k] < |all|) && (forall k :: 0 <= k < |gpu| ==> gpu[k] < |all|)
    requires var s := P.Reach(g, j0, schedule);
      && i < |s.returned| && i < |s.log| && s.log[i].weights == cpuWeights
      && Routes(m, s.log[i], Chosen(all, cpu), x)
    requires |gpu| == |gpuWeights| && |ffn| == g.nEmbd
    requires forall d: nat :: d < g.nEmbd ==> ffn[d] == WholeBlend(m, Chosen(all, gpu), gpuWeights, x, d)
    ensures |P.Reach(g, j0, schedule).returned[i]| == g.nEmbd
    ensures forall d: nat :: d < g.nEmbd ==>
      ffn[d] + P.Reach(g, j0, schedule).returned[i][d] == WholeBlend(m, Chosen(all, wanted), weights, x, d)
  {
    hide P.Reach, P.Apply, Blend, Kept, Routes, Chosen, Divided;
    SplitFacts(m, all, wanted, weights, mask, x, cpu, cpuWeights, gpu, gpuWeights);
    PoolMatchesSequential(g, j0, schedule, m, i, Chosen(all, cpu), x);
  }
}
