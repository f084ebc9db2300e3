/**
 The experts a block leaves to the device: batched products, biases, activation and weighted combine,
 proved to add up to what the host computes for the same experts.
 */
module DeviceExperts {
  import opened Wrappers
  import opened Bytes
  import opened FiniteSets
  import opened Sums
  import opened Tasks
  import opened Exponential
  import opened Quant
  import opened HostExperts
  import opened HostExecutor
  import opened DeviceDispatch
  import DeviceMatvec

  // ---- matrices laid end to end in a buffer --------------------------------------------------------

  predicate Is(buf: seq<real>, k: nat, v: real) { k < |buf| && buf[k] == v }

  /** From vector `from` on, the buffer holds these vectors of n entries. */
  ghost predicate Holds(buf: seq<real>, from: nat, n: nat, rows: seq<seq<real>>) {
    && (forall i :: 0 <= i < |rows| ==> |rows[i]| == n)
    && (forall i, r :: 0 <= i < |rows| && 0 <= r < n ==> Is(buf, Flat(n, from + i, r), rows[i][r]))
  }

  lemma HoldsBoth(buf: seq<real>, n: nat, a: seq<seq<real>>, b: seq<seq<real>>)
    requires Holds(buf, 0, n, a + b)
    ensures Holds(buf, 0, n, a) && Holds(buf, |a|, n, b)
  {
    hide Flat, Is;
    assert forall i :: 0 <= i < |a| ==> (a + b)[i] == a[i];
    assert forall i :: 0 <= i < |b| ==> (a + b)[|a| + i] == b[i];
    forall i, r | 0 <= i < |a| && 0 <= r < n ensures Is(buf, Flat(n, 0 + i, r), a[i][r]) {
      assert Is(buf, Flat(n, 0 + i, r), (a + b)[i][r]);
    }
    forall i, r | 0 <= i < |b| && 0 <= r < n ensures Is(buf, Flat(n, |a| + i, r), b[i][r]) {
      assert Is(buf, Flat(n, 0 + (|a| + i), r), (a + b)[|a| + i][r]);
    }
  }

  /** Cell c of a run of vectors is entry c % n of vector c / n. */
  lemma CellOf(n: nat, k: nat, i: nat, r: nat)
    requires i < k && r < n
    ensures Flat(n, i, r) < k * n && Flat(n, i, r) / n == i && Flat(n, i, r) - Flat(n, i, 0) == r
  {
    FlatBound(k, n, i, r);
    DivMod(i * n + r, n, i, r);
  }

  // ---- moearc_add_bias_id ----------------------------------------------------------------------------

  function Plus(a: seq<real>, b: seq<real>): (c: seq<real>)
    ensures |c| == |a|
  {
    seq(|a|, r requires 0 <= r < |a| => a[r] + At(b, r))
  }

  /** Vector i with the bias its index names added. */
  function Biased(rows: seq<seq<real>>, biases: seq<seq<real>>, idx: seq<nat>): (s: seq<seq<real>>)
    requires |idx| == |rows| && forall i :: 0 <= i < |idx| ==> idx[i] < |biases|
    ensures |s| == |rows|
  {
    seq(|rows|, i requires 0 <= i < |rows| => Plus(rows[i], biases[idx[i]]))
  }

  /** The bias of cell c. */
  function BiasAt(bias: seq<real>, idx: seq<nat>, n: nat, c: nat): real {
    if n > 0 && c / n < |idx| then At(bias, Flat(n, idx[c / n], c % n)) else 0.0
  }

  /** `moearc_add_bias_id`, its work-items in any order. */
  method AddBiasId(out: array<real>, bias: seq<real>, idx: seq<nat>, n: nat, ghost rows: seq<seq<real>>,
                   ghost biases: seq<seq<real>>)
    requires |idx| * n <= out.Length && |rows| == |idx| && |idx| <= MAX_BATCHED_MATS
    requires Holds(out[..], 0, n, rows) && Holds(bias, 0, n, biases)
    requires forall i :: 0 <= i < |idx| ==> idx[i] < |biases|
    modifies out
    ensures Holds(out[..], 0, n, Biased(rows, biases, idx))
  {
    hide BiasAt, Holds;
    ghost var was := out[..];
    var todo: set<nat> := Below(|idx| * n);
    while todo != {}
      invariant forall c :: c in todo ==> c < |idx| * n
      invariant forall c :: 0 <= c < |idx| * n ==> out[c] == was[c] + if c in todo then 0.0 else BiasAt(bias, idx, n, c)
      decreases |todo|
    {
      var c :| c in todo;
      out[c] := out[c] + BiasAt(bias, idx, n, c);
      todo := todo - {c};
    }
    BiasAdded(out[..], was, bias, idx, n, rows, biases);
  }

  lemma BiasAdded(now: seq<real>, was: seq<real>, bias: seq<real>, idx: seq<nat>, n: nat, rows: seq<seq<real>>,
                  biases: seq<seq<real>>)
    requires |rows| == |idx| && |now| == |was| && |idx| * n <= |was|
    requires Holds(was, 0, n, rows) && Holds(bias, 0, n, biases)
    requires forall i :: 0 <= i < |idx| ==> idx[i] < |biases|
    requires forall c :: 0 <= c < |idx| * n ==> now[c] == was[c] + BiasAt(bias, idx, n, c)
    ensures Holds(now, 0, n, Biased(rows, biases, idx))
  {
    hide Flat, BiasAt;
    forall i, r | 0 <= i < |rows| && 0 <= r < n
      ensures Is(now, Flat(n, 0 + i, r), Biased(rows, biases, idx)[i][r])
    {
      CellOf(n, |idx|, i, r);
      assert Is(was, Flat(n, 0 + i, r), rows[i][r]);
      assert Is(bias, Flat(n, 0 + idx[i], r), biases[idx[i]][r]);
      BiasCell(bias, idx, n, i, r);
    }
  }

  lemma BiasCell(bias: seq<real>, idx: seq<nat>, n: nat, i: nat, r: nat)
    requires i < |idx| && r < n
    ensures BiasAt(bias, idx, n, Flat(n, i, r)) == At(bias, Flat(n, idx[i], r))
  {
    DivMod(i * n + r, n, i, r);
  }

  // ---- the activation kernels ------------------------------------------------------------------------

  /** `moearc_swiglu` and `swiglu_oai_one`: the up branch is clamped from below first. */
  function DeviceActivate(exp: ExpFn, act: Activation, gv: real, uv: real): real {
    match act
    case Swiglu => Mul(gv / (1.0 + Exp(exp, -gv)), uv)
    case SwigluOai(alpha, limit) =>
      var x := MinR(gv, limit);
      var y := MinR(MaxR(uv, -limit), limit);
      Mul(x / (1.0 + Exp(exp, Mul(alpha, -x))), y + 1.0)
  }

  /** A limit the host's clamp does not refuse. */
  predicate Clamps(act: Activation) { act.SwigluOai? ==> act.limit >= 0.0 }

  lemma ActivationsAgree(exp: ExpFn, act: Activation, gv: real, uv: real)
    requires Clamps(act)
    ensures DeviceActivate(exp, act, gv, uv) == Activate(exp, act, gv, uv)
  {
  }

  ghost function Activated(exp: ExpFn, act: Activation, g: seq<seq<real>>, u: seq<seq<real>>): (s: seq<seq<real>>)
    requires |g| == |u| && forall i :: 0 <= i < |g| ==> |g[i]| == |u[i]|
    ensures |s| == |g|
  {
    seq(|g|, i requires 0 <= i < |g| =>
      seq(|g[i]|, r requires 0 <= r < |g[i]| => DeviceActivate(exp, act, g[i][r], u[i][r])))
  }

  /** The four activation kernels: the up values start at `off`, in a buffer of their own or behind the gate values. */
  method ActivateAll(out: array<real>, exp: ExpFn, act: Activation, gate: seq<real>, up: seq<real>, from: nat, k: nat,
                     n: nat, ghost g: seq<seq<real>>, ghost u: seq<seq<real>>)
    requires |g| == |u| == k && (forall i :: 0 <= i < |g| ==> |g[i]| == |u[i]| == n) && k * n <= out.Length
    requires Holds(gate, 0, n, g) && Holds(up, from, n, u)
    modifies out
    ensures Holds(out[..], 0, n, Activated(exp, act, g, u))
  {
    hide Holds, DeviceActivate;
    var todo: set<nat> := Below(k * n);
    while todo != {}
      invariant forall c :: c in todo ==> c < k * n
      invariant forall c :: 0 <= c < k * n && c !in todo ==>
        out[c] == DeviceActivate(exp, act, At(gate, c), At(up, Flat(n, from, c)))
      decreases |todo|
    {
      var c :| c in todo;
      out[c] := DeviceActivate(exp, act, At(gate, c), At(up, Flat(n, from, c)));
      todo := todo - {c};
    }
    AllActivated(out[..], exp, act, gate, up, from, n, g, u);
  }

  lemma AllActivated(out: seq<real>, exp: ExpFn, act: Activation, gate: seq<real>, up: seq<real>, from: nat, n: nat,
                     g: seq<seq<real>>, u: seq<seq<real>>)
    requires |g| == |u| && (forall i :: 0 <= i < |g| ==> |g[i]| == |u[i]| == n) && |g| * n <= |out|
    requires Holds(gate, 0, n, g) && Holds(up, from, n, u)
    requires forall c :: 0 <= c < |g| * n ==> out[c] == DeviceActivate(exp, act, At(gate, c), At(up, Flat(n, from, c)))
    ensures Holds(out, 0, n, Activated(exp, act, g, u))
  {
    hide Flat, DeviceActivate;
    forall i, r | 0 <= i < |g| && 0 <= r < n
      ensures Is(out, Flat(n, 0 + i, r), Activated(exp, act, g, u)[i][r])
    {
      CellOf(n, |g|, i, r);
      FlatShift(n, from, i, r);
      assert Is(gate, Flat(n, 0 + i, r), g[i][r]);
      assert Is(up, Flat(n, from + i, r), u[i][r]);
    }
  }

  lemma FlatShift(n: nat, from: nat, i: nat, r: nat)
    ensures Flat(n, from, Flat(n, i, r)) == Flat(n, from + i, r)
  {
    assert (from + i) * n == from * n + i * n;
  }

  // ---- moearc_moe_combine ------------------------------------------------------------------------------

  /** Entry d of the weighted sum of the first k vectors. */
  function Weighted(rows: seq<seq<real>>, weights: seq<real>, d: nat, k: nat): real
    requires k <= |rows| && k <= |weights|
  {
    if k == 0 then 0.0 else Weighted(rows, weights, d, k - 1) + weights[k - 1] * At(rows[k - 1], d)
  }

  /** One work-item. */
  method CombineOne(parts: seq<real>, weights: seq<real>, n: nat, d: nat, ghost rows: seq<seq<real>>) returns (acc: real)
    requires |weights| == |rows| && Holds(parts, 0, n, rows) && d < n
    ensures acc == Weighted(rows, weights, d, |rows|)
  {
    acc := 0.0;
    for m := 0 to |weights|
      invariant acc == Weighted(rows, weights, d, m)
    {
      hide Flat;
      assert Is(parts, Flat(n, 0 + m, d), rows[m][d]);
      acc := acc + weights[m] * At(parts, Flat(n, m, d));
    }
  }

  /** `moearc_moe_combine`, its work-items in any order. */
  method Combine(out: array<real>, parts: seq<real>, weights: seq<real>, n: nat, ghost rows: seq<seq<real>>)
    requires |weights| == |rows| <= MAX_BATCHED_MATS && Holds(parts, 0, n, rows) && n <= out.Length
    modifies out
    ensures forall d :: 0 <= d < n ==> out[d] == Weighted(rows, weights, d, |rows|)
    ensures out[n..] == old(out[n..])
  {
    hide Holds, Weighted;
    var todo: set<nat> := Below(n);
    while todo != {}
      invariant forall d :: d in todo ==> d < n
      invariant forall d :: 0 <= d < n && d !in todo ==> out[d] == Weighted(rows, weights, d, |rows|)
      invariant out[n..] == old(out[n..])
      decreases |todo|
    {
      var d :| d in todo;
      out[d] := CombineOne(parts, weights, n, d, rows);
      todo := todo - {d};
    }
  }

  // ---- the batched products ------------------------------------------------------------------------------

  /** The number of a block format. */
  function TypeId(ty: QuantType): (id: nat)
    ensures TypeOf(id) == Some(Blocked(ty))
  {
    match ty
    case Q80 => 8
    case Q4K => 12
    case Q5K => 13
    case Q6K => 14
    case Mxfp4 => 39
  }

  /** Every row of a bank against x. */
  ghost function BankRows(dec: Decode, spec: BankSpec, w: seq<byte>, x: seq<real>): (v: seq<real>)
    ensures |v| == spec.nRows
  {
    seq(spec.nRows, r requires 0 <= r < spec.nRows => NaiveRow(dec, spec, w, r, x))
  }

  /** Matrix i against xs[i]. */
  ghost function Products(dec: Decode, spec: BankSpec, mats: seq<seq<byte>>, xs: seq<seq<real>>): (s: seq<seq<real>>)
    requires |xs| == |mats|
    ensures |s| == |mats| && forall i :: 0 <= i < |s| ==> |s[i]| == spec.nRows
  {
    seq(|mats|, i requires 0 <= i < |mats| => BankRows(dec, spec, mats[i], xs[i]))
  }

  /** A product that starts at offset `off` of a longer vector. */
  lemma RowWithin(dec: Decode, spec: BankSpec, w: seq<byte>, r: nat, xs: seq<real>, off: nat, x: seq<real>)
    requires forall i :: 0 <= i < |x| ==> Is(xs, off + i, x[i])
    ensures RowDot(Elems(dec, spec.ty, w), spec.ty, r * spec.RowBytes(), xs, off, |x|) == NaiveRow(dec, spec, w, r, x)
  {
    var elem, row := Elems(dec, spec.ty, w), r * spec.RowBytes();
    var f := (i: nat) => Term(elem, spec.ty, row, xs, off, i);
    var g := (i: nat) => Term(elem, spec.ty, row, x, 0, i);
    hide Elems, BlockAt, Locate;
    forall i | 0 <= i < |x| ensures f(i) == g(i) {
      assert At(xs, off + i) == At(x, 0 + i);
    }
    SumCong(|x|, f, g);
  }

  /** Vector i starts at i * stride. */
  ghost predicate Spread(x: seq<real>, stride: nat, n: nat, xs: seq<seq<real>>) {
    && (forall i :: 0 <= i < |xs| ==> |xs[i]| == n)
    && (forall i, c :: 0 <= i < |xs| && 0 <= c < n ==> Is(x, i * stride + c, xs[i][c]))
  }

  /** A whole launch: matrix i takes the vector at i * stride, or the same one if the stride is zero. */
  method Project(out: array<real>, dec: Decode, spec: BankSpec, mats: seq<seq<byte>>, x: seq<real>, stride: nat,
                 ghost xs: seq<seq<real>>)
    requires spec.nCols % DeviceMatvec.BlockElems(spec.ty) == 0 && |mats| <= MAX_BATCHED_MATS
    requires |mats| * spec.nRows <= out.Length && |xs| == |mats|
    requires Spread(x, stride, spec.nCols, xs)
    modifies out
    ensures Holds(out[..], 0, spec.nRows, Products(dec, spec, mats, xs))
  {
    hide TensorDot, Multiplied, Products, NaiveRow, DeviceMatvec.BlockElems, TypeOf;
    var rc := MatvecQBatched(out, dec, TypeId(spec.ty), mats, x, stride, spec.nRows, spec.nCols);
    if |mats| == 0 || spec.nRows == 0 {
      NothingHeld(out[..], spec, Products(dec, spec, mats, xs));
    } else {
      assert rc == Submitted;
      MultipliedHolds(out[..], dec, spec, mats, x, stride, xs);
    }
  }

  lemma NothingHeld(out: seq<real>, spec: BankSpec, rows: seq<seq<real>>)
    requires (|rows| == 0 || spec.nRows == 0) && forall i :: 0 <= i < |rows| ==> |rows[i]| == spec.nRows
    ensures Holds(out, 0, spec.nRows, rows)
  {
  }

  lemma MultipliedHolds(out: seq<real>, dec: Decode, spec: BankSpec, mats: seq<seq<byte>>, x: seq<real>, stride: nat,
                        xs: seq<seq<real>>)
    requires |xs| == |mats| && Spread(x, stride, spec.nCols, xs)
    requires Multiplied(out, dec, Blocked(spec.ty), mats, x, stride, spec.nRows, spec.nCols, |mats|)
    ensures Holds(out, 0, spec.nRows, Products(dec, spec, mats, xs))
  {
    hide RowDot, Elems, NaiveRow, Flat, BlockAt;
    forall i, r | 0 <= i < |mats| && 0 <= r < spec.nRows
      ensures Is(out, Flat(spec.nRows, 0 + i, r), Products(dec, spec, mats, xs)[i][r])
    {
      RowWithin(dec, spec, mats[i], r, x, i * stride, xs[i]);
      SameRowBytes(spec);
    }
  }

  lemma SameRowBytes(spec: BankSpec)
    ensures spec.RowBytes() == DeviceMatvec.RowBytes(spec.ty, spec.nCols)
  {
  }

  // ---- one block's device experts --------------------------------------------------------------------------

  /** The experts the router chose. */
  function Chosen(all: seq<Expert>, ids: seq<nat>): (s: seq<Expert>)
    requires forall i :: 0 <= i < |ids| ==> ids[i] < |all|
    ensures |s| == |ids| && forall i :: 0 <= i < |s| ==> s[i] == all[ids[i]]
  {
    seq(|ids|, i requires 0 <= i < |ids| => all[ids[i]])
  }

  function Gates(es: seq<Expert>): (s: seq<seq<byte>>)
    ensures |s| == |es|
  {
    seq(|es|, i requires 0 <= i < |es| => es[i].gate)
  }

  function Ups(es: seq<Expert>): (s: seq<seq<byte>>)
    ensures |s| == |es|
  {
    seq(|es|, i requires 0 <= i < |es| => es[i].up)
  }

  function Downs(es: seq<Expert>): (s: seq<seq<byte>>)
    ensures |s| == |es|
  {
    seq(|es|, i requires 0 <= i < |es| => es[i].down)
  }

  function Same(x: seq<real>, k: nat): (s: seq<seq<real>>)
    ensures |s| == k
  {
    seq(k, i requires 0 <= i < k => x)
  }

  /** The bias tensors of a block on the device; gate and up lie end to end. */
  datatype BiasBanks = NoBanks | Banks(gateUp: seq<real>, down: seq<real>)

  /** An expert's bias, of n entries. */
  function BiasRow(dec: Decode, b: seq<byte>, n: nat): (v: seq<real>)
    ensures |v| == n
  {
    seq(n, r requires 0 <= r < n => LdF32(dec, b, r))
  }

  function GateBiases(m: Model, all: seq<Expert>): (s: seq<seq<real>>)
    requires forall e :: 0 <= e < |all| ==> all[e].bias.Bias?
    ensures |s| == |all|
  {
    seq(|all|, e requires 0 <= e < |all| => BiasRow(m.dec, all[e].bias.gate, m.gate.nRows))
  }

  function UpBiases(m: Model, all: seq<Expert>): (s: seq<seq<real>>)
    requires forall e :: 0 <= e < |all| ==> all[e].bias.Bias?
    ensures |s| == |all|
  {
    seq(|all|, e requires 0 <= e < |all| => BiasRow(m.dec, all[e].bias.up, m.gate.nRows))
  }

  function DownBiases(m: Model, all: seq<Expert>): (s: seq<seq<real>>)
    requires forall e :: 0 <= e < |all| ==> all[e].bias.Bias?
    ensures |s| == |all|
  {
    seq(|all|, e requires 0 <= e < |all| => BiasRow(m.dec, all[e].bias.down, m.down.nRows))
  }

  ghost predicate BanksOf(banks: BiasBanks, m: Model, all: seq<Expert>) {
    match banks
    case NoBanks => forall e :: 0 <= e < |all| ==> all[e].bias.NoBias?
    case Banks(gateUp, down) =>
      && (forall e :: 0 <= e < |all| ==> all[e].bias.Bias?)
      && Holds(gateUp, 0, m.gate.nRows, GateBiases(m, all) + UpBiases(m, all))
      && Holds(down, 0, m.down.nRows, DownBiases(m, all))
  }

  /** Shapes fit and rows are whole blocks, in any block format. */
  ghost predicate Whole(m: Model) {
    && m.gate.nRows == m.up.nRows == m.down.nCols && m.gate.nCols == m.up.nCols
    && m.gate.nCols % DeviceMatvec.BlockElems(m.gate.ty) == 0 && m.up.nCols % DeviceMatvec.BlockElems(m.up.ty) == 0
    && m.down.nCols % DeviceMatvec.BlockElems(m.down.ty) == 0
  }

  lemma SameSpreads(x: seq<real>, k: nat)
    ensures Spread(x, 0, |x|, Same(x, k))
  {
  }

  /** Gate and up products: one launch for both when they share shape and format and fit, else two. */
  method GateAndUp(m: Model, es: seq<Expert>, x: seq<real>, gu: array<real>, up: array<real>) returns (fused: bool)
    requires Whole(m) && |x| == m.gate.nCols && |es| <= MAX_BATCHED_MATS && gu != up
    requires 2 * |es| * m.gate.nRows <= gu.Length && |es| * m.gate.nRows <= up.Length
    modifies gu, up
    ensures fused ==> m.gate == m.up && 2 * |es| <= MAX_BATCHED_MATS
    ensures fused ==> Holds(gu[..], 0, m.gate.nRows,
                            Products(m.dec, m.gate, Gates(es), Same(x, |es|)) + Products(m.dec, m.up, Ups(es), Same(x, |es|)))
    ensures !fused ==> Holds(gu[..], 0, m.gate.nRows, Products(m.dec, m.gate, Gates(es), Same(x, |es|)))
    ensures !fused ==> Holds(up[..], 0, m.gate.nRows, Products(m.dec, m.up, Ups(es), Same(x, |es|)))
  {
    hide Holds, BankRows, DeviceMatvec.BlockElems;
    fused := m.gate.ty == m.up.ty && 2 * |es| <= MAX_BATCHED_MATS;
    if fused {
      SameSpreads(x, 2 * |es|);
      Project(gu, m.dec, m.gate, Gates(es) + Ups(es), x, 0, Same(x, 2 * |es|));
      ProductsJoin(m.dec, m.gate, Gates(es), Ups(es), x);
    } else {
      SameSpreads(x, |es|);
      EnoughRoom(|es|, m.gate.nRows);
      Project(gu, m.dec, m.gate, Gates(es), x, 0, Same(x, |es|));
      Project(up, m.dec, m.up, Ups(es), x, 0, Same(x, |es|));
    }
  }

  lemma EnoughRoom(k: nat, n: nat)
    ensures k * n <= 2 * k * n
  {
  }

  lemma ProductsJoin(dec: Decode, spec: BankSpec, a: seq<seq<byte>>, b: seq<seq<byte>>, x: seq<real>)
    requires |a| == |b|
    ensures Products(dec, spec, a + b, Same(x, 2 * |a|))
      == Products(dec, spec, a, Same(x, |a|)) + Products(dec, spec, b, Same(x, |b|))
  {
    hide BankRows;
  }

  function Shifted(ids: seq<nat>, first: nat): (s: seq<nat>)
    ensures |s| == |ids|
  {
    seq(|ids|, i requires 0 <= i < |ids| => first + ids[i])
  }

  lemma BiasedJoin(g: seq<seq<real>>, u: seq<seq<real>>, gb: seq<seq<real>>, ub: seq<seq<real>>, ids: seq<nat>)
    requires |g| == |u| == |ids| && |gb| == |ub| && forall i :: 0 <= i < |ids| ==> ids[i] < |gb|
    ensures Biased(g + u, gb + ub, ids + Shifted(ids, |gb|)) == Biased(g, gb, ids) + Biased(u, ub, ids)
    ensures Biased(g, gb + ub, ids) == Biased(g, gb, ids)
    ensures Biased(u, gb + ub, Shifted(ids, |gb|)) == Biased(u, ub, ids)
  {
    hide Plus;
  }

  /** Adds the block's biases to gate and up, in one call or two. */
  method BiasGateAndUp(m: Model, all: seq<Expert>, ids: seq<nat>, gateUp: seq<real>, fused: bool,
                       gu: array<real>, up: array<real>, ghost g: seq<seq<real>>, ghost u: seq<seq<real>>)
    requires (forall i :: 0 <= i < |ids| ==> ids[i] < |all|) && (forall e :: 0 <= e < |all| ==> all[e].bias.Bias?)
    requires |g| == |u| == |ids| && |ids| <= MAX_BATCHED_MATS && gu != up
    requires fused ==> 2 * |ids| <= MAX_BATCHED_MATS
    requires Holds(gateUp, 0, m.gate.nRows, GateBiases(m, all) + UpBiases(m, all))
    requires 2 * |ids| * m.gate.nRows <= gu.Length && |ids| * m.gate.nRows <= up.Length
    requires fused ==> Holds(gu[..], 0, m.gate.nRows, g + u)
    requires !fused ==> Holds(gu[..], 0, m.gate.nRows, g) && Holds(up[..], 0, m.gate.nRows, u)
    modifies gu, up
    ensures fused ==>
      Holds(gu[..], 0, m.gate.nRows, Biased(g, GateBiases(m, all), ids) + Biased(u, UpBiases(m, all), ids))
    ensures !fused ==> Holds(gu[..], 0, m.gate.nRows, Biased(g, GateBiases(m, all), ids))
    ensures !fused ==> Holds(up[..], 0, m.gate.nRows, Biased(u, UpBiases(m, all), ids))
  {
    hide Holds;
    ghost var gb, ub := GateBiases(m, all), UpBiases(m, all);
    hide GateBiases, UpBiases;
    BiasedJoin(g, u, gb, ub, ids);
    hide Biased;
    EnoughRoom(|ids|, m.gate.nRows);
    if fused {
      AddBiasId(gu, gateUp, ids + Shifted(ids, |all|), m.gate.nRows, g + u, gb + ub);
    } else {
      AddBiasId(gu, gateUp, ids, m.gate.nRows, g, gb + ub);
      AddBiasId(up, gateUp, Shifted(ids, |all|), m.gate.nRows, u, gb + ub);
    }
  }

  /** The activations of these experts, and their outputs, as the host computes them. */
  ghost function Acts(m: Model, es: seq<Expert>, x: seq<real>): (s: seq<seq<real>>)
    ensures |s| == |es| && forall i :: 0 <= i < |s| ==> s[i] == Act(m, es[i], x)
  {
    seq(|es|, i requires 0 <= i < |es| => Act(m, es[i], x))
  }

  ghost function Outputs(m: Model, es: seq<Expert>, x: seq<real>): (s: seq<seq<real>>)
    ensures |s| == |es| && forall i :: 0 <= i < |s| ==> s[i] == ExpertFfn(m, es[i], x)
  {
    seq(|es|, i requires 0 <= i < |es| => ExpertFfn(m, es[i], x))
  }

  /** Gate and up values with their biases, if there are any. */
  ghost function GateVals(m: Model, all: seq<Expert>, ids: seq<nat>, banks: BiasBanks, x: seq<real>): (s: seq<seq<real>>)
    requires (forall i :: 0 <= i < |ids| ==> ids[i] < |all|) && BanksOf(banks, m, all)
  {
    var g := Products(m.dec, m.gate, Gates(Chosen(all, ids)), Same(x, |ids|));
    if banks.NoBanks? then g else Biased(g, GateBiases(m, all), ids)
  }

  ghost function UpVals(m: Model, all: seq<Expert>, ids: seq<nat>, banks: BiasBanks, x: seq<real>): (s: seq<seq<real>>)
    requires (forall i :: 0 <= i < |ids| ==> ids[i] < |all|) && BanksOf(banks, m, all)
  {
    var u := Products(m.dec, m.up, Ups(Chosen(all, ids)), Same(x, |ids|));
    if banks.NoBanks? then u else Biased(u, UpBiases(m, all), ids)
  }

  /** Each value is the host's gate or up value of that row, so the activated ones are the host's activations. */
  lemma ActivatedAreActs(m: Model, all: seq<Expert>, ids: seq<nat>, banks: BiasBanks, x: seq<real>)
    requires (forall i :: 0 <= i < |ids| ==> ids[i] < |all|) && BanksOf(banks, m, all)
    requires m.gate.nRows == m.up.nRows && Clamps(m.act)
    ensures var g, u := GateVals(m, all, ids, banks, x), UpVals(m, all, ids, banks, x);
      && |g| == |u| == |ids| && (forall i :: 0 <= i < |ids| ==> |g[i]| == |u[i]| == m.gate.nRows)
      && Activated(m.exp, m.act, g, u) == Acts(m, Chosen(all, ids), x)
  {
    hide NaiveRow, Holds, LdF32, DeviceActivate, Activate;
    var g, u := GateVals(m, all, ids, banks, x), UpVals(m, all, ids, banks, x);
    var es := Chosen(all, ids);
    forall i | 0 <= i < |ids|
      ensures |g[i]| == |u[i]| == m.gate.nRows
      ensures forall r :: 0 <= r < m.gate.nRows ==> DeviceActivate(m.exp, m.act, g[i][r], u[i][r]) == ActRow(m, es[i], x, r)
    {
      forall r | 0 <= r < m.gate.nRows
        ensures DeviceActivate(m.exp, m.act, g[i][r], u[i][r]) == ActRow(m, es[i], x, r)
      {
        ActivationsAgree(m.exp, m.act, g[i][r], u[i][r]);
      }
    }
    hide GateVals, UpVals, ActRow;
    forall i | 0 <= i < |ids| ensures Activated(m.exp, m.act, g, u)[i] == Act(m, es[i], x) {
    }
  }

  /** The down products of the activations, with their biases, are the experts' outputs. */
  lemma DownsAreOutputs(m: Model, all: seq<Expert>, ids: seq<nat>, banks: BiasBanks, x: seq<real>)
    requires (forall i :: 0 <= i < |ids| ==> ids[i] < |all|) && BanksOf(banks, m, all)
    ensures var es := Chosen(all, ids);
      var p := Products(m.dec, m.down, Downs(es), Acts(m, es, x));
      Outputs(m, es, x) == if banks.NoBanks? then p else Biased(p, DownBiases(m, all), ids)
  {
    hide NaiveRow, Holds, LdF32, Act;
    var es := Chosen(all, ids);
    var p := Products(m.dec, m.down, Downs(es), Acts(m, es, x));
    forall i | 0 <= i < |ids|
      ensures Outputs(m, es, x)[i] == if banks.NoBanks? then p[i] else Plus(p[i], DownBiases(m, all)[ids[i]])
    {
    }
  }

  lemma {:induction false} WeightedIsBlend(m: Model, es: seq<Expert>, weights: seq<real>, x: seq<real>, d: nat, n: nat)
    requires n <= |es| == |weights| && d < m.down.nRows
    ensures Weighted(Outputs(m, es, x), weights, d, n) == Blend(m, es, weights, x, d, n)
  {
    hide ExpertFfn, Outputs;
    if n > 0 {
      WeightedIsBlend(m, es, weights, x, d, n - 1);
    }
  }

  lemma ActsSpread(act: seq<real>, n: nat, rows: seq<seq<real>>)
    requires Holds(act, 0, n, rows)
    ensures Spread(act, n, n, rows)
  {
    hide Is;
    forall i, c | 0 <= i < |rows| && 0 <= c < n ensures Is(act, i * n + c, rows[i][c]) {
      assert Is(act, Flat(n, 0 + i, c), rows[i][c]);
    }
  }

  /** Down projections of the activations, biased. */
  method DownAll(m: Model, all: seq<Expert>, ids: seq<nat>, banks: BiasBanks, ghost x: seq<real>, act: seq<real>,
                 parts: array<real>)
    requires Whole(m) && |ids| <= MAX_BATCHED_MATS && (forall i :: 0 <= i < |ids| ==> ids[i] < |all|)
    requires BanksOf(banks, m, all) && |ids| * m.down.nRows <= parts.Length
    requires Holds(act, 0, m.gate.nRows, Acts(m, Chosen(all, ids), x))
    modifies parts
    ensures Holds(parts[..], 0, m.down.nRows, Outputs(m, Chosen(all, ids), x))
  {
    hide Holds, Acts, Outputs, Products, Biased, DeviceMatvec.BlockElems;
    var es := Chosen(all, ids);
    ghost var acts := Acts(m, es, x);
    ActsSpread(act, m.gate.nRows, acts);
    Project(parts, m.dec, m.down, Downs(es), act, m.down.nCols, acts);
    DownsAreOutputs(m, all, ids, banks, x);
    if banks.Banks? {
      AddBiasId(parts, banks.down, ids, m.down.nRows, Products(m.dec, m.down, Downs(es), acts), DownBiases(m, all));
    }
  }

  /** Gate and up, biased, and the activation. */
  method ActivationsOf(m: Model, all: seq<Expert>, ids: seq<nat>, banks: BiasBanks, x: seq<real>,
                       gu: array<real>, up: array<real>, act: array<real>)
    requires Whole(m) && Clamps(m.act) && |x| == m.gate.nCols && |ids| <= MAX_BATCHED_MATS
    requires (forall i :: 0 <= i < |ids| ==> ids[i] < |all|) && BanksOf(banks, m, all)
    requires gu != up && act != gu && act != up && 2 * |ids| * m.gate.nRows <= gu.Length
    requires |ids| * m.gate.nRows <= up.Length && |ids| * m.gate.nRows <= act.Length
    modifies gu, up, act
    ensures Holds(act[..], 0, m.gate.nRows, Acts(m, Chosen(all, ids), x))
  {
    hide Holds, Acts, Products, Biased, DeviceMatvec.BlockElems, GateBiases, UpBiases, Activated;
    var es := Chosen(all, ids);
    ghost var g, u := Products(m.dec, m.gate, Gates(es), Same(x, |ids|)), Products(m.dec, m.up, Ups(es), Same(x, |ids|));
    var fused := GateAndUp(m, es, x, gu, up);
    if banks.Banks? {
      BiasGateAndUp(m, all, ids, banks.gateUp, fused, gu, up, g, u);
    }
    ghost var gv, uv := GateVals(m, all, ids, banks, x), UpVals(m, all, ids, banks, x);
    ActivatedAreActs(m, all, ids, banks, x);
    if fused {
      HoldsBoth(gu[..], m.gate.nRows, gv, uv);
      ActivateAll(act, m.exp, m.act, gu[..], gu[..], |ids|, |ids|, m.gate.nRows, gv, uv);
    } else {
      ActivateAll(act, m.exp, m.act, gu[..], up[..], 0, |ids|, m.gate.nRows, gv, uv);
    }
  }

  /** `Context::zero`, for a block that leaves the device nothing to do. */
  method Zero(out: array<real>, n: nat)
    requires n <= out.Length
    modifies out
    ensures forall d :: 0 <= d < n ==> out[d] == 0.0
    ensures out[n..] == old(out[n..])
  {
    for d := 0 to n
      invariant forall c :: 0 <= c < d ==> out[c] == 0.0
      invariant out[n..] == old(out[n..])
    {
      out[d] := 0.0;
    }
  }

  /** A block's experts on the device, from the gathered weights to `ffn`: what the host would blend for them. */
  method DeviceFfn(m: Model, all: seq<Expert>, ids: seq<nat>, banks: BiasBanks, x: seq<real>, weights: seq<real>,
                   gu: array<real>, up: array<real>, act: array<real>, parts: array<real>, ffn: array<real>)
    requires Whole(m) && Clamps(m.act) && |x| == m.gate.nCols && |ids| == |weights| && |ids| <= MAX_BATCHED_MATS
    requires (forall i :: 0 <= i < |ids| ==> ids[i] < |all|) && BanksOf(banks, m, all)
    requires gu != up && act != gu && act != up && 2 * |ids| * m.gate.nRows <= gu.Length
    requires |ids| * m.gate.nRows <= up.Length && |ids| * m.gate.nRows <= act.Length
    requires |ids| * m.down.nRows <= parts.Length && m.down.nRows <= ffn.Length
    modifies gu, up, act, parts, ffn
    ensures forall d :: 0 <= d < m.down.nRows ==> ffn[d] == Blend(m, Chosen(all, ids), weights, x, d, |ids|)
  {
    hide Holds, Outputs, Acts, Weighted, Whole, BanksOf, Clamps;
    var es := Chosen(all, ids);
    if |ids| == 0 {
      Zero(ffn, m.down.nRows);
      return;
    }
    hide Blend;
    ActivationsOf(m, all, ids, banks, x, gu, up, act);
    DownAll(m, all, ids, banks, x, act[..], parts);
    Combine(ffn, parts[..], weights, m.down.nRows, Outputs(m, es, x));
    forall d | 0 <= d < m.down.nRows ensures ffn[d] == Blend(m, es, weights, x, d, |ids|) {
      WeightedIsBlend(m, es, weights, x, d, |ids|);
    }
  }
}
