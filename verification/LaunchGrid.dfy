/** The work-groups of a tiled matvec launch: eight rows to a group, groups in any order, tail rows idle. */
module LaunchGrid {
  import opened Sums
  import opened FiniteSets
  import opened Tasks

  /** Rows one work-group covers. */
  const MATVEC_ROWS: nat := 8

  /** A sub-group of the launch: the group it is in, and its place there. */
  type Item = (nat, nat)

  /** n_mat matrices of n_rows rows each. */
  datatype Grid = Grid(nMat: nat, nRows: nat) {
    function PerMat(): nat { CeilDiv(nRows, MATVEC_ROWS) }

    function Groups(): nat { PerMat() * nMat }

    predicate Has(it: Item) { it.0 < Groups() && it.1 < MATVEC_ROWS }

    function Mat(it: Item): nat
      requires Has(it)
    {
      assert PerMat() > 0 by { Occupied(this, it.0); }
      it.0 / PerMat()
    }

    /** The row a sub-group is given; past the end in a tail group. */
    function Row(it: Item): nat
      requires Has(it)
    {
      assert it.0 - Mat(it) * PerMat() >= 0 by { MatRow(this, it); }
      (it.0 - Mat(it) * PerMat()) * MATVEC_ROWS + it.1
    }

    predicate Live(it: Item)
      requires Has(it)
    {
      Row(it) < nRows
    }

    /** The output cell a live sub-group writes. */
    function Out(it: Item): nat
      requires Has(it)
    {
      Flat(nRows, Mat(it), Row(it))
    }
  }

  lemma Occupied(gr: Grid, g: nat)
    requires g < gr.Groups()
    ensures gr.PerMat() > 0 && gr.nMat > 0
  {
    ZeroProduct(gr.PerMat(), gr.nMat);
  }

  lemma MatRow(gr: Grid, it: Item)
    requires gr.Has(it)
    ensures gr.PerMat() > 0 && gr.Mat(it) < gr.nMat
    ensures 0 <= it.0 - gr.Mat(it) * gr.PerMat() < gr.PerMat()
    ensures it.0 - gr.Mat(it) * gr.PerMat() == it.0 % gr.PerMat()
  {
    Occupied(gr, it.0);
    var p := gr.PerMat();
    var m := it.0 / p;
    assert it.0 == p * m + it.0 % p;
    MulLe(p, gr.nMat, m);
  }

  /** Every cell of every matrix has a live sub-group. */
  function ItemOf(gr: Grid, mat: nat, row: nat): Item {
    (mat * gr.PerMat() + row / MATVEC_ROWS, row % MATVEC_ROWS)
  }

  lemma ItemCovers(gr: Grid, mat: nat, row: nat)
    requires mat < gr.nMat && row < gr.nRows
    ensures gr.Has(ItemOf(gr, mat, row)) && gr.Mat(ItemOf(gr, mat, row)) == mat && gr.Row(ItemOf(gr, mat, row)) == row
  {
    var p, q := gr.PerMat(), row / MATVEC_ROWS;
    assert row == MATVEC_ROWS * q + row % MATVEC_ROWS;
    assert q < p by {
      MulLe(MATVEC_ROWS, p, q);
    }
    FlatBound(gr.nMat, p, mat, q);
    assert gr.nMat * p == p * gr.nMat;
    DivMod(mat * p + q, p, mat, q);
  }

  /** No two live sub-groups have the same cell. */
  lemma OutInjective(gr: Grid, a: Item, b: Item)
    requires gr.Has(a) && gr.Has(b) && gr.Live(a) && gr.Live(b) && gr.Out(a) == gr.Out(b)
    ensures a == b
  {
    FlatInjective(gr.nRows, gr.Mat(a), gr.Row(a), gr.Mat(b), gr.Row(b));
    MatRow(gr, a);
    MatRow(gr, b);
    var p := gr.PerMat();
    FlatInjective(MATVEC_ROWS, a.0 - gr.Mat(a) * p, a.1, b.0 - gr.Mat(b) * p, b.1);
  }

  lemma OutInside(gr: Grid, it: Item)
    requires gr.Has(it) && gr.Live(it)
    ensures gr.Out(it) < gr.nMat * gr.nRows
  {
    MatRow(gr, it);
    FlatBound(gr.nMat, gr.nRows, gr.Mat(it), gr.Row(it));
  }

  /** A live sub-group has a row of its matrix, and its cell is the row-major place of that. */
  lemma LiveCell(gr: Grid, it: Item)
    requires gr.Has(it)
    ensures gr.Mat(it) < gr.nMat
    ensures gr.Live(it) ==> gr.Row(it) < gr.nRows && gr.Out(it) == Flat(gr.nRows, gr.Mat(it), gr.Row(it))
  {
    hide Grid.PerMat, Grid.Mat, Grid.Row, Flat;
    MatRow(gr, it);
  }

  function AllItems(gr: Grid): (s: set<Item>)
    ensures forall it :: it in s <==> gr.Has(it)
  {
    set g: nat, k: nat | g < gr.Groups() && k < MATVEC_ROWS :: (g, k)
  }

  // ---- a launch in progress ----------------------------------------------------------------------

  /**
   Some sub-groups are still to run. The cells written so far, in the order they were, hold what is wanted
   of them and were each written once; the others hold what they held.
   */
  ghost predicate Progress(gr: Grid, out: seq<real>, was: seq<real>, want: seq<real>, writes: seq<nat>, todo: set<Item>) {
    && |out| == |was| && gr.nMat * gr.nRows == |want| <= |out|
    && (forall it :: it in todo ==> gr.Has(it))
    && NoDuplicates(writes)
    && (forall c :: c in writes ==> c < |want| && out[c] == want[c])
    && (forall c :: 0 <= c < |out| && c !in writes ==> out[c] == was[c])
    && (forall it :: gr.Has(it) && gr.Live(it) ==> (gr.Out(it) in writes <==> it !in todo))
  }

  lemma ProgressBegins(gr: Grid, out: seq<real>, want: seq<real>)
    requires gr.nMat * gr.nRows == |want| <= |out|
    ensures Progress(gr, out, out, want, [], AllItems(gr))
  {
  }

  lemma ProgressIdle(gr: Grid, out: seq<real>, was: seq<real>, want: seq<real>, writes: seq<nat>, todo: set<Item>, it: Item)
    requires Progress(gr, out, was, want, writes, todo) && it in todo && !gr.Live(it)
    ensures Progress(gr, out, was, want, writes, todo - {it})
  {
  }

  lemma ProgressWrites(gr: Grid, out: seq<real>, was: seq<real>, want: seq<real>, writes: seq<nat>, todo: set<Item>,
                       it: Item)
    requires Progress(gr, out, was, want, writes, todo) && it in todo && gr.Live(it)
    ensures gr.Out(it) < |want|
    ensures Progress(gr, out[gr.Out(it) := want[gr.Out(it)]], was, want, writes + [gr.Out(it)], todo - {it})
  {
    hide Grid.Has, Grid.Live, Grid.Out;
    OutInside(gr, it);
    var c := gr.Out(it);
    forall other | gr.Has(other) && gr.Live(other)
      ensures gr.Out(other) in writes + [c] <==> other !in todo - {it}
    {
      if gr.Out(other) == c {
        OutInjective(gr, it, other);
      }
    }
  }

  lemma ProgressEnds(gr: Grid, out: seq<real>, was: seq<real>, want: seq<real>, writes: seq<nat>)
    requires Progress(gr, out, was, want, writes, {})
    ensures Filled(gr, out, was, want) && WrittenOnce(writes, |want|)
  {
    forall c | 0 <= c < |want| ensures c in writes {
      CellOf(gr, c);
      var mat, row := c / gr.nRows, c % gr.nRows;
      ItemCovers(gr, mat, row);
    }
  }

  lemma CellOf(gr: Grid, c: nat)
    requires c < gr.nMat * gr.nRows
    ensures gr.nRows > 0 && c / gr.nRows < gr.nMat && Flat(gr.nRows, c / gr.nRows, c % gr.nRows) == c
  {
    ZeroProduct(gr.nMat, gr.nRows);
    assert c == gr.nRows * (c / gr.nRows) + c % gr.nRows;
    MulLe(gr.nRows, gr.nMat, c / gr.nRows);
  }

  /** Every output cell holds what is wanted, and nothing behind them changed. */
  ghost predicate Filled(gr: Grid, out: seq<real>, was: seq<real>, want: seq<real>) {
    && |out| == |was| && |want| <= |out|
    && out[..|want|] == want && out[|want|..] == was[|want|..]
  }

  /** The log of writes has every cell below n exactly once and no other. */
  ghost predicate WrittenOnce(writes: seq<nat>, n: nat) {
    NoDuplicates(writes) && forall c :: c in writes <==> 0 <= c < n
  }
}
