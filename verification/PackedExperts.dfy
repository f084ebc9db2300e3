/** An expert from the numbers it was made of: its banks and biases packed, and what its feed-forward then is. */
module PackedExperts {
  import opened Sums
  import opened Quant
  import opened QuantLayout
  import opened PackedProducts
  import opened HostExperts

  /** Three banks of blocks, and with biases three lists of 32-bit float patterns. */
  datatype Source = Source(gate: seq<seq<Block>>, up: seq<seq<Block>>, down: seq<seq<Block>>, biased: bool,
                           gateBias: seq<nat>, upBias: seq<nat>, downBias: seq<nat>)

  predicate BankFits(spec: BankSpec, rows: seq<seq<Block>>, n: nat) {
    Rectangle(rows, spec.ty, n) && |rows| == spec.nRows && spec.nCols == n * Width(spec.ty)
  }

  predicate BiasFits(v: seq<nat>, n: nat) { |v| == n && forall i :: 0 <= i < n ==> v[i] < 0x1_0000_0000 }

  /** The source has the shape of the model; nIn and nMid are blocks to a row. */
  predicate Fits(m: Model, s: Source, nIn: nat, nUp: nat, nMid: nat) {
    && BankFits(m.gate, s.gate, nIn) && BankFits(m.up, s.up, nUp) && BankFits(m.down, s.down, nMid)
    && m.gate.nCols == m.up.nCols && m.gate.nRows == m.up.nRows == m.down.nCols
    && BiasFits(s.gateBias, m.gate.nRows) && BiasFits(s.upBias, m.up.nRows) && BiasFits(s.downBias, m.down.nRows)
  }

  function Packed(m: Model, s: Source, nIn: nat, nUp: nat, nMid: nat): Expert
    requires Fits(m, s, nIn, nUp, nMid)
  {
    Expert(PackMatrix(s.gate), PackMatrix(s.up), PackMatrix(s.down),
           if s.biased then Bias(PackNumbers(s.gateBias, 4), PackNumbers(s.upBias, 4), PackNumbers(s.downBias, 4))
           else NoBias)
  }

  /** A row of numbers times a vector. */
  ghost function RowSum(dec: Decode, row: seq<Block>, ty: QuantType, x: seq<real>): real
    requires Uniform(row, ty)
  {
    Sum(|x|, (i: nat) => Mul(RowValue(dec, row, ty, i), At(x, i)))
  }

  function BiasOf(dec: Decode, s: Source, v: seq<nat>, r: nat): real
    requires r < |v|
  {
    if s.biased then dec.float(v[r]) else 0.0
  }

  /** Gate and up values of row r, activated. */
  ghost function Hidden(m: Model, s: Source, nIn: nat, nUp: nat, nMid: nat, x: seq<real>, r: nat): real
    requires Fits(m, s, nIn, nUp, nMid) && r < m.gate.nRows
  {
    Activate(m.exp, m.act,
             RowSum(m.dec, s.gate[r], m.gate.ty, x) + BiasOf(m.dec, s, s.gateBias, r),
             RowSum(m.dec, s.up[r], m.up.ty, x) + BiasOf(m.dec, s, s.upBias, r))
  }

  lemma RowSumIs(dec: Decode, spec: BankSpec, rows: seq<seq<Block>>, n: nat, r: nat, x: seq<real>)
    requires BankFits(spec, rows, n) && r < |rows| && |x| == spec.nCols
    ensures NaiveRow(dec, spec, PackMatrix(rows), r, x) == RowSum(dec, rows[r], spec.ty, x)
  {
    hide NaiveRow, RowValue, PackMatrix, Sum, Width, Uniform;
    var f := (i: nat) => Mul(RowValue(dec, rows[r], spec.ty, i), At(x, i));
    HostRow(dec, spec, rows, n, r, x, f);
  }

  lemma BiasIs(dec: Decode, s: Source, v: seq<nat>, n: nat, r: nat)
    requires BiasFits(v, n) && r < n
    ensures s.biased ==> LdF32(dec, PackNumbers(v, 4), r) == BiasOf(dec, s, v, r)
  {
    BiasReadBack(dec, v, r);
  }

  lemma HiddenIs(m: Model, s: Source, nIn: nat, nUp: nat, nMid: nat, x: seq<real>, r: nat)
    requires Fits(m, s, nIn, nUp, nMid) && |x| == m.gate.nCols && r < m.gate.nRows
    ensures ActRow(m, Packed(m, s, nIn, nUp, nMid), x, r) == Hidden(m, s, nIn, nUp, nMid, x, r)
  {
    hide NaiveRow, RowSum, PackMatrix, PackNumbers, Activate, LdF32, BiasOf, Rectangle, Width;
    RowSumIs(m.dec, m.gate, s.gate, nIn, r, x);
    RowSumIs(m.dec, m.up, s.up, nUp, r, x);
    BiasIs(m.dec, s, s.gateBias, m.gate.nRows, r);
    BiasIs(m.dec, s, s.upBias, m.up.nRows, r);
    if !s.biased {
      NoBiasOf(m.dec, s, s.gateBias, r);
      NoBiasOf(m.dec, s, s.upBias, r);
    }
  }

  lemma NoBiasOf(dec: Decode, s: Source, v: seq<nat>, r: nat)
    requires !s.biased && r < |v|
    ensures BiasOf(dec, s, v, r) == 0.0
  {
  }

  /** Output d is the down row of the numbers times the activated gate and up values, plus its bias. */
  lemma ExpertIs(m: Model, s: Source, nIn: nat, nUp: nat, nMid: nat, x: seq<real>, mid: seq<real>, d: nat)
    requires Fits(m, s, nIn, nUp, nMid) && |x| == m.gate.nCols && d < m.down.nRows
    requires |mid| == m.gate.nRows && forall r :: 0 <= r < |mid| ==> mid[r] == Hidden(m, s, nIn, nUp, nMid, x, r)
    ensures ExpertFfn(m, Packed(m, s, nIn, nUp, nMid), x)[d]
      == RowSum(m.dec, s.down[d], m.down.ty, mid) + BiasOf(m.dec, s, s.downBias, d)
  {
    hide NaiveRow, RowSum, PackMatrix, PackNumbers, LdF32, BiasOf, Rectangle, Width, ActRow, Hidden;
    var e := Packed(m, s, nIn, nUp, nMid);
    forall r | 0 <= r < |mid| ensures mid[r] == Act(m, e, x)[r] {
      HiddenIs(m, s, nIn, nUp, nMid, x, r);
    }
    assert mid == Act(m, e, x);
    RowSumIs(m.dec, m.down, s.down, nMid, d, mid);
    BiasIs(m.dec, s, s.downBias, m.down.nRows, d);
    if !s.biased {
      NoBiasOf(m.dec, s, s.downBias, d);
    }
  }
}
