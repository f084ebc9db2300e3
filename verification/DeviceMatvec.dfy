/** Quantised matvecs on the device: units strided over lanes, rows tiled over sub-groups, matrices batched. */
module DeviceMatvec {
  import opened Bytes
  import opened Sums
  import opened Tasks
  import opened Lanes
  import opened Quant
  import opened DeviceUnits
  import opened LaunchGrid

  function BlockElems(ty: QuantType): (n: nat)
    ensures n > 0
  {
    UnitsPerBlock(ty) * 32
  }

  /** Blocks of a row, and its bytes. */
  function Blocks(ty: QuantType, nCols: nat): nat { nCols / BlockElems(ty) }

  function RowBytes(ty: QuantType, nCols: nat): nat { BlockAt(ty, Blocks(ty, nCols)) }

  function Units(ty: QuantType, nCols: nat): nat { Blocks(ty, nCols) * UnitsPerBlock(ty) }

  lemma UnitsCoverColumns(ty: QuantType, nCols: nat)
    requires nCols % BlockElems(ty) == 0
    ensures Units(ty, nCols) * 32 == nCols
  {
    if UnitsPerBlock(ty) == 1 {
      assert nCols == 32 * (nCols / 32);
    } else {
      assert nCols == 256 * (nCols / 256);
    }
  }

  // ---- one row by one sub-group ------------------------------------------------------------------

  /** The unit dot products of a row. */
  ghost function UnitValues(elem: Elem, ty: QuantType, row: nat, x: seq<real>, xoff: nat, units: nat): (r: seq<real>)
    ensures |r| == units && forall u :: 0 <= u < units ==> r[u] == UnitOf(elem, ty, row, x, xoff, u)
  {
    seq(units, u requires 0 <= u < units => UnitOf(elem, ty, row, x, xoff, u))
  }

  lemma {:induction false} UnitValuesTotal(elem: Elem, ty: QuantType, row: nat, x: seq<real>, xoff: nat, units: nat,
                                           n: nat)
    requires n <= units
    ensures SumRange(UnitValues(elem, ty, row, x, xoff, units), 0, n) == UnitsDot(elem, ty, row, x, xoff, n)
  {
    hide UnitOf;
    if n > 0 {
      UnitValuesTotal(elem, ty, row, x, xoff, units, n - 1);
    }
  }

  /** One lane: every WG-th unit of the row. */
  method LaneUnits(dec: Decode, ty: QuantType, w: seq<byte>, row: nat, x: seq<real>, xoff: nat, units: nat, lane: nat)
    returns (acc: real)
    requires lane < WG
    ensures acc == Strided(UnitValues(Elems(dec, ty, w), ty, row, x, xoff, units), lane, WG, units)
  {
    hide UnitDot, UnitValues, Elems, Strided, BlockAt;
    ghost var elem := Elems(dec, ty, w);
    ghost var values := UnitValues(elem, ty, row, x, xoff, units);
    acc := 0.0;
    var u := lane;
    LaneBegins(lane, WG);
    StridedNothing(values, lane, WG, Min(lane, units));
    while u < units
      invariant u % WG == lane
      invariant acc == Strided(values, lane, WG, Min(u, units))
      decreases units - u
    {
      StridedStep(values, WG, u, Min(u + WG, units));
      LaneStep(u, WG);
      var (k, sub) := LocateUnit(ty, u);
      acc := UnitAcc(acc, dec, ty, w, row + BlockAt(ty, k), sub, x, xoff + u * 32);
      u := u + WG;
    }
  }

  /** One sub-group: its lanes, then the reduction. Every 32-element unit of the row is accumulated exactly once. */
  method SubgroupDot(dec: Decode, ty: QuantType, w: seq<byte>, row: nat, x: seq<real>, xoff: nat, units: nat)
    returns (total: real)
    ensures total == RowDot(Elems(dec, ty, w), ty, row, x, xoff, units * 32)
  {
    assert WG > 0;
    hide *;
    ghost var elem := Elems(dec, ty, w);
    ghost var values := UnitValues(elem, ty, row, x, xoff, units);
    var lanes: seq<real> := [];
    while |lanes| < WG
      invariant |lanes| <= WG
      invariant forall l :: 0 <= l < |lanes| ==> lanes[l] == Strided(values, l, WG, units)
    {
      var one := LaneUnits(dec, ty, w, row, x, xoff, units, |lanes|);
      lanes := lanes + [one];
    }
    total := ReduceSum(lanes);
    LanesTotal(values, lanes, WG);
    UnitValuesTotal(elem, ty, row, x, xoff, units, units);
    UnitsDotIsRowDot(elem, ty, row, x, xoff, units);
  }

  // ---- the launches ------------------------------------------------------------------------------

  /** The naive product of one row of one matrix. */
  ghost function Product(dec: Decode, ty: QuantType, w: seq<byte>, row: nat, x: seq<real>, xoff: nat, nCols: nat): real {
    RowDot(Elems(dec, ty, w), ty, row * RowBytes(ty, nCols), x, xoff, Units(ty, nCols) * 32)
  }

  /** The naive product of every row of every matrix, matrix by matrix: what `out` should hold. */
  ghost predicate AreProducts(r: seq<real>, dec: Decode, ty: QuantType, mats: seq<seq<byte>>, x: seq<real>, stride: nat,
                              nRows: nat, nCols: nat) {
    && |r| == |mats| * nRows
    && (forall mat, row :: 0 <= mat < |mats| && 0 <= row < nRows ==>
      Flat(nRows, mat, row) < |r| && r[Flat(nRows, mat, row)] == Product(dec, ty, mats[mat], row, x, mat * stride, nCols))
  }

  ghost function Products(dec: Decode, ty: QuantType, mats: seq<seq<byte>>, x: seq<real>, stride: nat, nRows: nat,
                          nCols: nat): (r: seq<real>)
    ensures |r| == |mats| * nRows && AreProducts(r, dec, ty, mats, x, stride, nRows, nCols)
  {
    var r := seq(|mats| * nRows, c requires 0 <= c < |mats| * nRows => ProductAt(dec, ty, mats, x, stride, nRows, nCols, c));
    ProductsAt(dec, ty, mats, x, stride, nRows, nCols, r);
    r
  }

  ghost function ProductAt(dec: Decode, ty: QuantType, mats: seq<seq<byte>>, x: seq<real>, stride: nat, nRows: nat,
                           nCols: nat, c: nat): real
    requires c < |mats| * nRows
  {
    CellOf(Grid(|mats|, nRows), c);
    Product(dec, ty, mats[c / nRows], c % nRows, x, c / nRows * stride, nCols)
  }

  lemma ProductsAt(dec: Decode, ty: QuantType, mats: seq<seq<byte>>, x: seq<real>, stride: nat, nRows: nat,
                   nCols: nat, r: seq<real>)
    requires |r| == |mats| * nRows
    requires forall c :: 0 <= c < |r| ==> r[c] == ProductAt(dec, ty, mats, x, stride, nRows, nCols, c)
    ensures AreProducts(r, dec, ty, mats, x, stride, nRows, nCols)
  {
    hide Product;
    forall mat, row | 0 <= mat < |mats| && 0 <= row < nRows
      ensures Flat(nRows, mat, row) < |r|
      ensures r[Flat(nRows, mat, row)] == Product(dec, ty, mats[mat], row, x, mat * stride, nCols)
    {
      FlatBound(|mats|, nRows, mat, row);
      DivMod(Flat(nRows, mat, row), nRows, mat, row);
    }
  }

  /** One sub-group on its row. */
  method RowProduct(dec: Decode, ty: QuantType, w: seq<byte>, row: nat, x: seq<real>, xoff: nat, nCols: nat)
    returns (total: real)
    ensures total == Product(dec, ty, w, row, x, xoff, nCols)
  {
    hide RowDot, Elems, RowBytes, Units;
    var units, rowBytes := Units(ty, nCols), RowBytes(ty, nCols);
    total := SubgroupDot(dec, ty, w, row * rowBytes, x, xoff, units);
  }

  lemma ProductsCell(r: seq<real>, dec: Decode, ty: QuantType, mats: seq<seq<byte>>, x: seq<real>, stride: nat,
                     nRows: nat, nCols: nat, mat: nat, row: nat, c: nat, xoff: nat)
    requires mat < |mats| && row < nRows && AreProducts(r, dec, ty, mats, x, stride, nRows, nCols)
    requires c == Flat(nRows, mat, row) && xoff == mat * stride
    ensures c < |r| && r[c] == Product(dec, ty, mats[mat], row, x, xoff, nCols)
  {
    hide Product, Flat;
  }

  /**
   `matvec_q_batched_submit`. Sub-groups run in any order; one past the last row works on row 0 and throws
   the answer away. Every cell of every matrix is written exactly once, with the naive product of its row.
   */
  method BatchedSubmit(out: array<real>, dec: Decode, ty: QuantType, mats: seq<seq<byte>>, x: seq<real>, stride: nat,
                       nRows: nat, nCols: nat)
    returns (ghost writes: seq<nat>)
    requires |mats| * nRows <= out.Length
    modifies out
    ensures Filled(Grid(|mats|, nRows), out[..], old(out[..]), Products(dec, ty, mats, x, stride, nRows, nCols))
    ensures WrittenOnce(writes, |mats| * nRows)
  {
    hide *;
    var gr := Grid(|mats|, nRows);
    ghost var was, want := out[..], Products(dec, ty, mats, x, stride, nRows, nCols);
    writes := [];
    ProgressBegins(gr, was, want);
    var todo: set<Item> := AllItems(gr);
    while todo != {}
      invariant forall it :: it in todo ==> gr.Has(it)
      invariant Progress(gr, out[..], was, want, writes, todo)
      decreases |todo|
    {
      var it: Item :| it in todo;
      ghost var now := out[..];
      LiveCell(gr, it);
      var mat, row, live := gr.Mat(it), gr.Row(it), gr.Live(it);
      var total := RowProduct(dec, ty, mats[mat], if live then row else 0, x, mat * stride, nCols);
      if live {
        ProgressWrites(gr, now, was, want, writes, todo, it);
        ProductsCell(want, dec, ty, mats, x, stride, nRows, nCols, mat, row, gr.Out(it), mat * stride);
        out[gr.Out(it)] := total;
        assert out[..] == now[gr.Out(it) := want[gr.Out(it)]];
        writes := writes + [gr.Out(it)];
      } else {
        ProgressIdle(gr, now, was, want, writes, todo, it);
      }
      todo := todo - {it};
    }
    ProgressEnds(gr, out[..], was, want, writes);
  }

  /** With one matrix a sub-group's place in the grid is its row, and its cell. */
  lemma SingleRow(nRows: nat, it: Item)
    requires Grid(1, nRows).Has(it)
    ensures var gr, row := Grid(1, nRows), it.0 * MATVEC_ROWS + it.1;
      gr.Mat(it) == 0 && gr.Row(it) == row && (gr.Live(it) <==> row < nRows) && gr.Out(it) == row
  {
    var gr := Grid(1, nRows);
    MatRow(gr, it);
    assert gr.Mat(it) == 0;
    assert 0 * gr.PerMat() == 0 && Flat(nRows, 0, gr.Row(it)) == gr.Row(it);
  }

  /** `matvec_q_submit`: the same for one matrix, without the detour through a matrix table. */
  method SingleSubmit(out: array<real>, dec: Decode, ty: QuantType, w: seq<byte>, x: seq<real>, nRows: nat, nCols: nat)
    returns (ghost writes: seq<nat>)
    requires nRows <= out.Length
    modifies out
    ensures Filled(Grid(1, nRows), out[..], old(out[..]), Products(dec, ty, [w], x, 0, nRows, nCols))
    ensures WrittenOnce(writes, nRows)
  {
    hide *;
    ghost var gr := Grid(1, nRows);
    ghost var was, want := out[..], Products(dec, ty, [w], x, 0, nRows, nCols);
    writes := [];
    ProgressBegins(gr, was, want);
    var todo: set<Item> := AllItems(Grid(1, nRows));
    while todo != {}
      invariant forall it :: it in todo ==> gr.Has(it)
      invariant Progress(gr, out[..], was, want, writes, todo)
      decreases |todo|
    {
      var it: Item :| it in todo;
      ghost var now := out[..];
      SingleRow(nRows, it);
      var row := it.0 * MATVEC_ROWS + it.1;
      var live := row < nRows;
      var total := RowProduct(dec, ty, w, if live then row else 0, x, 0, nCols);
      if live {
        ProgressWrites(gr, now, was, want, writes, todo, it);
        LiveCell(gr, it);
        ProductsCell(want, dec, ty, [w], x, 0, nRows, nCols, 0, row, gr.Out(it), 0);
        out[row] := total;
        assert out[..] == now[gr.Out(it) := want[gr.Out(it)]];
        writes := writes + [row];
      } else {
        ProgressIdle(gr, now, was, want, writes, todo, it);
      }
      todo := todo - {it};
    }
    ProgressEnds(gr, out[..], was, want, writes);
  }

  // ---- nothing outside the weights is read -------------------------------------------------------

  function BlockBytes(ty: QuantType): nat { BlockAt(ty, 1) }

  ghost predicate AgreeOn(w1: seq<byte>, w2: seq<byte>, lo: nat, n: nat) {
    forall k :: lo <= k < lo + n ==> B(w1, k) == B(w2, k)
  }

  /** An element depends on the bytes of its own block and on nothing else. */
  lemma ElementsAreLocal(dec: Decode, ty: QuantType, w1: seq<byte>, w2: seq<byte>, blk: nat, i: nat)
    requires i < BlockElems(ty) && AgreeOn(w1, w2, blk, BlockBytes(ty))
    ensures ElemAt(dec, ty, w1, blk, i) == ElemAt(dec, ty, w2, blk, i)
  {
    hide B, Nibble, Bit, Pair, Mul, SByte, E2m1;
    match ty
    case Q4K => ScaleMinLocal(w1, w2, blk + 4, i / 32);
    case Q5K => ScaleMinLocal(w1, w2, blk + 4, i / 32);
    case Q6K => QuarterBounds(i);
    case _ =>
  }

  lemma ScaleMinLocal(w1: seq<byte>, w2: seq<byte>, q: nat, j: nat)
    requires j < 8 && AgreeOn(w1, w2, q, 12)
    ensures ScaleMin(w1, q, j) == ScaleMin(w2, q, j)
  {
    hide B;
  }

  lemma QuarterBounds(i: nat)
    requires i < 256
    ensures i / 128 < 2 && i % 128 / 32 < 4 && i % 32 < 32 && i % 32 / 16 < 2
  {
  }

  lemma UnitInRow(ty: QuantType, nCols: nat, u: nat)
    requires u < Units(ty, nCols)
    ensures BlockAt(ty, LocateUnit(ty, u).0) + BlockBytes(ty) <= RowBytes(ty, nCols)
  {
    var k := LocateUnit(ty, u).0;
    assert k < Blocks(ty, nCols);
    assert BlockAt(ty, k) + BlockBytes(ty) <= BlockAt(ty, Blocks(ty, nCols));
  }

  /** Every block a sub-group visits, on a live row or on row 0, lies inside the matrix. */
  lemma BlocksInBounds(ty: QuantType, len: nat, nRows: nat, nCols: nat, row: nat, u: nat)
    requires len == nRows * RowBytes(ty, nCols) && nRows > 0 && u < Units(ty, nCols)
    ensures var visited := if row < nRows then row else 0;
      visited * RowBytes(ty, nCols) + BlockAt(ty, LocateUnit(ty, u).0) + BlockBytes(ty) <= len
  {
    var visited := if row < nRows then row else 0;
    UnitInRow(ty, nCols, u);
    hide RowBytes, BlockAt, LocateUnit, BlockBytes, Units;
    RowInside(RowBytes(ty, nCols), visited, nRows);
  }

  lemma RowInside(stride: nat, row: nat, n: nat)
    requires row < n
    ensures row * stride + stride <= n * stride
  {
    MulLe(stride, row + 1, n);
  }

  /** A row's product depends on the row's bytes and on nothing else, so no byte behind them is ever read. */
  lemma RowIsLocal(dec: Decode, ty: QuantType, w1: seq<byte>, w2: seq<byte>, row: nat, x: seq<real>, xoff: nat, nCols: nat)
    requires nCols % BlockElems(ty) == 0 && AgreeOn(w1, w2, row, RowBytes(ty, nCols))
    ensures RowDot(Elems(dec, ty, w1), ty, row, x, xoff, nCols) == RowDot(Elems(dec, ty, w2), ty, row, x, xoff, nCols)
  {
    var f := (i: nat) => Term(Elems(dec, ty, w1), ty, row, x, xoff, i);
    var g := (i: nat) => Term(Elems(dec, ty, w2), ty, row, x, xoff, i);
    hide AgreeOn, ElemAt, B;
    forall i | 0 <= i < nCols ensures f(i) == g(i) {
      ColumnInRow(ty, nCols, i);
      var (k, l) := Locate(ty, i);
      AgreeInside(w1, w2, row, RowBytes(ty, nCols), BlockAt(ty, k), BlockBytes(ty));
      ElementsAreLocal(dec, ty, w1, w2, row + BlockAt(ty, k), l);
    }
    SumCong(nCols, f, g);
  }

  lemma AgreeInside(w1: seq<byte>, w2: seq<byte>, lo: nat, n: nat, off: nat, m: nat)
    requires AgreeOn(w1, w2, lo, n) && off + m <= n
    ensures AgreeOn(w1, w2, lo + off, m)
  {
    hide B;
  }

  lemma ColumnInRow(ty: QuantType, nCols: nat, i: nat)
    requires nCols % BlockElems(ty) == 0 && i < nCols
    ensures Locate(ty, i).1 < BlockElems(ty)
    ensures BlockAt(ty, Locate(ty, i).0) + BlockBytes(ty) <= RowBytes(ty, nCols)
  {
    var k := Locate(ty, i).0;
    assert k < Blocks(ty, nCols) by {
      if UnitsPerBlock(ty) == 1 {
        Earlier(i, nCols, 32);
      } else {
        Earlier(i, nCols, 256);
      }
    }
    assert BlockAt(ty, k) + BlockBytes(ty) <= BlockAt(ty, Blocks(ty, nCols));
  }

  lemma Earlier(i: nat, n: nat, b: nat)
    requires 0 < b && i < n && n % b == 0
    ensures i / b < n / b
  {
    assert n == b * (n / b) + n % b && i == b * (i / b) + i % b;
    MulLe(b, n / b, i / b);
  }
}
