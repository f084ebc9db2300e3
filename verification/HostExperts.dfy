/** One expert's feed-forward on the host: the row kernels and the sequential `expert_ffn_ext`. */
module HostExperts {
  import opened Bytes
  import opened Sums
  import opened Quant
  import opened HostKernels
  import opened Exponential

  datatype Activation = Swiglu | SwigluOai(alpha: real, limit: real)

  /** `BankSpec`: what shape a bank's experts are and how they are stored. */
  datatype BankSpec = BankSpec(ty: QuantType, nRows: nat, nCols: nat) {
    function BlockElems(): nat { if UnitsPerBlock(ty) == 1 then 32 else 256 }

    /** `BankSpec::check`. */
    predicate Check() {
      (ty == Q4K || ty == Q6K || ty == Mxfp4) && nCols % BlockElems() == 0
    }

    function RowBytes(): nat { BlockAt(ty, nCols / BlockElems()) }
  }

  /** One routed expert: its three banks and, when the model has them, their biases. */
  datatype Expert = Expert(gate: seq<byte>, up: seq<byte>, down: seq<byte>, bias: Biases)

  datatype Biases = NoBias | Bias(gate: seq<byte>, up: seq<byte>, down: seq<byte>)

  datatype Model = Model(dec: Decode, exp: ExpFn, act: Activation, gate: BankSpec, up: BankSpec, down: BankSpec) {
    /** What `HostExecutor::new` checks of every block. */
    predicate Valid() {
      && gate.Check() && up.Check() && down.Check()
      && gate.nRows == up.nRows == down.nCols && gate.nCols == up.nCols
    }
  }

  function LdF32(dec: Decode, b: seq<byte>, i: nat): real { dec.float(U32(b, 4 * i)) }

  function MinR(a: real, b: real): real { if a < b then a else b }

  function MaxR(a: real, b: real): real { if a < b then b else a }

  /** `silu(gate) * up`, or the clamped OpenAI variant. */
  function Activate(exp: ExpFn, act: Activation, gv: real, uv: real): real {
    match act
    case Swiglu => Mul(gv / (1.0 + Exp(exp, -gv)), uv)
    case SwigluOai(alpha, limit) =>
      var xg := MinR(gv, limit);
      var yu := MaxR(-limit, MinR(uv, limit));
      Mul(xg / (1.0 + Exp(exp, Mul(alpha, -xg))), yu + 1.0)
  }

  // ---- what an expert computes, dequantising every weight -------------------------------------------

  /** Row r of a bank against x, one dequantised element at a time. */
  ghost function NaiveRow(dec: Decode, spec: BankSpec, w: seq<byte>, r: nat, x: seq<real>): real {
    RowDot(Elems(dec, spec.ty, w), spec.ty, r * spec.RowBytes(), x, 0, |x|)
  }

  ghost function ActRow(m: Model, e: Expert, x: seq<real>, r: nat): real {
    var gv, uv := NaiveRow(m.dec, m.gate, e.gate, r, x), NaiveRow(m.dec, m.up, e.up, r, x);
    match e.bias
    case NoBias => Activate(m.exp, m.act, gv, uv)
    case Bias(gb, ub, _) => Activate(m.exp, m.act, gv + LdF32(m.dec, gb, r), uv + LdF32(m.dec, ub, r))
  }

  ghost function Act(m: Model, e: Expert, x: seq<real>): (a: seq<real>)
    ensures |a| == m.gate.nRows
  {
    seq(m.gate.nRows, r requires 0 <= r < m.gate.nRows => ActRow(m, e, x, r))
  }

  ghost function DownRow(m: Model, e: Expert, act: seq<real>, r: nat): real {
    var v := NaiveRow(m.dec, m.down, e.down, r, act);
    match e.bias
    case NoBias => v
    case Bias(_, _, db) => v + LdF32(m.dec, db, r)
  }

  /** The expert's output vector. */
  ghost function ExpertFfn(m: Model, e: Expert, x: seq<real>): (out: seq<real>)
    ensures |out| == m.down.nRows
  {
    seq(m.down.nRows, r requires 0 <= r < m.down.nRows => DownRow(m, e, Act(m, e, x), r))
  }

  // ---- the kernels ------------------------------------------------------------------------------------

  /** `dot_row`: the fused product of the bank's format. */
  method DotRow(dec: Decode, spec: BankSpec, w: seq<byte>, r: nat, x: seq<real>, xsum: seq<real>) returns (v: real)
    requires spec.Check() && |x| == spec.nCols && IsGroupSums(x, xsum)
    ensures v == NaiveRow(dec, spec, w, r, x)
  {
    hide RowDot, Elems, IsGroupSums, BlockAt;
    var row := r * spec.RowBytes();
    match spec.ty
    case Q4K => v := DotQ4k(dec, w, row, x, xsum, |x| / 256);
    case Q6K => v := DotQ6k(dec, w, row, x, |x| / 256);
    case Mxfp4 => v := DotMxfp4(dec, w, row, x, |x| / 32);
  }

  /** `swiglu_rows_body`: rows r0..r1 of the activation, written at `off`. */
  method SwigluRows(m: Model, e: Expert, x: seq<real>, xsum: seq<real>, r0: nat, r1: nat, act: array<real>, off: nat)
    requires m.Valid() && |x| == m.gate.nCols && IsGroupSums(x, xsum)
    requires r0 <= r1 <= m.gate.nRows && off + (r1 - r0) <= act.Length
    modifies act
    ensures forall r :: r0 <= r < r1 ==> act[off + (r - r0)] == ActRow(m, e, x, r)
    ensures forall i :: 0 <= i < act.Length && !(off <= i < off + (r1 - r0)) ==> act[i] == old(act[i])
  {
    hide NaiveRow, IsGroupSums, Activate, LdF32;
    for r := r0 to r1
      invariant forall k :: r0 <= k < r ==> act[off + (k - r0)] == ActRow(m, e, x, k)
      invariant forall i :: 0 <= i < act.Length && !(off <= i < off + (r - r0)) ==> act[i] == old(act[i])
    {
      var gv := DotRow(m.dec, m.gate, e.gate, r, x, xsum);
      var uv := DotRow(m.dec, m.up, e.up, r, x, xsum);
      if e.bias.Bias? {
        gv := gv + LdF32(m.dec, e.bias.gate, r);
        uv := uv + LdF32(m.dec, e.bias.up, r);
      }
      act[off + (r - r0)] := Activate(m.exp, m.act, gv, uv);
    }
  }

  /** `matvec_rows_body`: rows r0..r1 of the down projection, written at `off`. */
  method MatvecRows(m: Model, e: Expert, a: seq<real>, axs: seq<real>, r0: nat, r1: nat, out: array<real>, off: nat)
    requires m.Valid() && |a| == m.down.nCols && IsGroupSums(a, axs)
    requires r0 <= r1 <= m.down.nRows && off + (r1 - r0) <= out.Length
    modifies out
    ensures forall r :: r0 <= r < r1 ==> out[off + (r - r0)] == DownRow(m, e, a, r)
    ensures forall i :: 0 <= i < out.Length && !(off <= i < off + (r1 - r0)) ==> out[i] == old(out[i])
  {
    hide NaiveRow, IsGroupSums, LdF32;
    for r := r0 to r1
      invariant forall k :: r0 <= k < r ==> out[off + (k - r0)] == DownRow(m, e, a, k)
      invariant forall i :: 0 <= i < out.Length && !(off <= i < off + (r - r0)) ==> out[i] == old(out[i])
    {
      var v := DotRow(m.dec, m.down, e.down, r, a, axs);
      if e.bias.Bias? {
        v := v + LdF32(m.dec, e.bias.down, r);
      }
      out[off + (r - r0)] := v;
    }
  }

  /** `group_sums`. */
  method GroupedSums(x: seq<real>) returns (xs: seq<real>)
    ensures xs == GroupSums(x)
  {
    xs := [];
    var n := CeilDiv(|x|, 32);
    for c := 0 to n
      invariant xs == GroupSums(x)[..c]
    {
      assert 32 * c <= |x|;
      var hi := Min(32 * c + 32, |x|);
      var s := 0.0;
      for i := 32 * c to hi
        invariant s == SumRange(x, 32 * c, i)
      {
        s := s + x[i];
      }
      xs := xs + [s];
      assert GroupSums(x)[c] == GroupSum(x, c);
    }
  }

  /** `expert_ffn_ext`: one expert on the calling thread. */
  method ExpertFfnExt(m: Model, e: Expert, x: seq<real>) returns (result: seq<real>)
    requires m.Valid() && |x| == m.gate.nCols
    ensures result == ExpertFfn(m, e, x)
  {
    hide NaiveRow, ActRow, DownRow, IsGroupSums, GroupSums;
    var xs := GroupedSums(x);
    GroupSumsAre(x);
    var act := new real[m.gate.nRows](_ => 0.0);
    SwigluRows(m, e, x, xs, 0, m.gate.nRows, act, 0);
    assert act[..] == Act(m, e, x);
    var axs := GroupedSums(act[..]);
    GroupSumsAre(act[..]);
    var out := new real[m.down.nRows](_ => 0.0);
    MatvecRows(m, e, act[..], axs, 0, m.down.nRows, out, 0);
    result := out[..];
  }
}
