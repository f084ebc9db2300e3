/** The matvec entry points: every weight format by its number, each through the kernel it is routed to. */
module DeviceDispatch {
  import opened Wrappers
  import opened Bytes
  import opened FiniteSets
  import opened Sums
  import opened Tasks
  import opened Lanes
  import opened Quant
  import opened LaunchGrid
  import opened DeviceMatvec

  /** Weights in blocks, or one element at a time. */
  datatype TensorType = Blocked(ty: QuantType) | PlainF32 | PlainF16

  /** The formats by their ggml numbers; no other number can be read (`block_bytes`). */
  function TypeOf(id: nat): Option<TensorType> {
    match id
    case 0 => Some(PlainF32)
    case 1 => Some(PlainF16)
    case 8 => Some(Blocked(Q80))
    case 12 => Some(Blocked(Q4K))
    case 13 => Some(Blocked(Q5K))
    case 14 => Some(Blocked(Q6K))
    case 39 => Some(Blocked(Mxfp4))
    case _ => None
  }

  /** `block_elems`. */
  function Elements(t: TensorType): (n: nat)
    ensures n > 0
  {
    if t.Blocked? then BlockElems(t.ty) else 1
  }

  // ---- unblocked matrices ------------------------------------------------------------------------

  /** Element k of an unblocked matrix. */
  function PlainElem(dec: Decode, t: TensorType, w: seq<byte>, k: nat): real {
    if t.PlainF16? then dec.half(U16(w, 2 * k)) else dec.float(U32(w, 4 * k))
  }

  /** The products of one row, column by column. */
  ghost function PlainTerms(dec: Decode, t: TensorType, w: seq<byte>, row: nat, x: seq<real>, xoff: nat, nCols: nat): (r: seq<real>)
    ensures |r| == nCols
    ensures forall i :: 0 <= i < nCols ==> r[i] == Mul(PlainElem(dec, t, w, Flat(nCols, row, i)), At(x, xoff + i))
  {
    seq(nCols, i requires 0 <= i < nCols => Mul(PlainElem(dec, t, w, Flat(nCols, row, i)), At(x, xoff + i)))
  }

  /** The naive product of a row of any matrix. */
  ghost function TensorDot(dec: Decode, t: TensorType, w: seq<byte>, row: nat, x: seq<real>, xoff: nat, nCols: nat): real {
    if t.Blocked? then RowDot(Elems(dec, t.ty, w), t.ty, row * RowBytes(t.ty, nCols), x, xoff, nCols)
    else Total(PlainTerms(dec, t, w, row, x, xoff, nCols))
  }

  /** One lane: every WG-th column of the row. */
  method LaneColumns(dec: Decode, t: TensorType, w: seq<byte>, row: nat, x: seq<real>, xoff: nat, nCols: nat, lane: nat)
    returns (acc: real)
    requires lane < WG
    ensures acc == Strided(PlainTerms(dec, t, w, row, x, xoff, nCols), lane, WG, nCols)
  {
    hide PlainElem, PlainTerms, Strided, Flat, Mul;
    ghost var terms := PlainTerms(dec, t, w, row, x, xoff, nCols);
    acc := 0.0;
    var i := lane;
    LaneBegins(lane, WG);
    StridedNothing(terms, lane, WG, Min(lane, nCols));
    while i < nCols
      invariant i % WG == lane
      invariant acc == Strided(terms, lane, WG, Min(i, nCols))
      decreases nCols - i
    {
      StridedStep(terms, WG, i, Min(i + WG, nCols));
      LaneStep(i, WG);
      acc := acc + Mul(PlainElem(dec, t, w, Flat(nCols, row, i)), At(x, xoff + i));
      i := i + WG;
    }
  }

  method GroupRow(dec: Decode, t: TensorType, w: seq<byte>, row: nat, x: seq<real>, xoff: nat, nCols: nat)
    returns (total: real)
    requires !t.Blocked?
    ensures total == TensorDot(dec, t, w, row, x, xoff, nCols)
  {
    hide PlainTerms, Strided, Total;
    ghost var terms := PlainTerms(dec, t, w, row, x, xoff, nCols);
    var lanes: seq<real> := [];
    while |lanes| < WG
      invariant |lanes| <= WG
      invariant forall l :: 0 <= l < |lanes| ==> lanes[l] == Strided(terms, l, WG, nCols)
    {
      var one := LaneColumns(dec, t, w, row, x, xoff, nCols, |lanes|);
      lanes := lanes + [one];
    }
    total := ReduceSum(lanes);
    LanesTotal(terms, lanes, WG);
  }

  /** `matvec_generic_submit`, one work-group a row in any order, writing `out` from `off` on. */
  method GenericSubmit(out: array<real>, off: nat, dec: Decode, t: TensorType, w: seq<byte>, x: seq<real>, xoff: nat,
                       nRows: nat, nCols: nat)
    requires !t.Blocked? && off + nRows <= out.Length
    modifies out
    ensures forall row :: 0 <= row < nRows ==> out[off + row] == TensorDot(dec, t, w, row, x, xoff, nCols)
    ensures out[..off] == old(out[..off]) && out[off + nRows..] == old(out[off + nRows..])
  {
    hide TensorDot, Below;
    var todo: set<nat> := Below(nRows);
    while todo != {}
      invariant forall row :: row in todo ==> row < nRows
      invariant forall row :: 0 <= row < nRows && row !in todo ==> out[off + row] == TensorDot(dec, t, w, row, x, xoff, nCols)
      invariant out[..off] == old(out[..off]) && out[off + nRows..] == old(out[off + nRows..])
      decreases |todo|
    {
      var row :| row in todo;
      out[off + row] := GroupRow(dec, t, w, row, x, xoff, nCols);
      todo := todo - {row};
    }
  }

  // ---- the entry points --------------------------------------------------------------------------

  datatype MatvecStatus = Submitted | UnknownType | NotWhole | TooMany

  /** `MAX_BATCHED_MATS`. */
  const MAX_BATCHED_MATS: nat := 32

  /** Every output cell is the naive product, over all columns, of its row of its matrix. */
  ghost predicate Multiplied(out: seq<real>, dec: Decode, t: TensorType, mats: seq<seq<byte>>, x: seq<real>, stride: nat,
                             nRows: nat, nCols: nat, n: nat)
    requires n <= |mats|
  {
    forall mat, row :: 0 <= mat < n && 0 <= row < nRows ==>
      Flat(nRows, mat, row) < |out|
      && out[Flat(nRows, mat, row)] == TensorDot(dec, t, mats[mat], row, x, mat * stride, nCols)
  }

  lemma FilledIsMultiplied(out: seq<real>, was: seq<real>, dec: Decode, ty: QuantType, mats: seq<seq<byte>>,
                           x: seq<real>, stride: nat, nRows: nat, nCols: nat)
    requires nCols % BlockElems(ty) == 0
    requires Filled(Grid(|mats|, nRows), out, was, DeviceMatvec.Products(dec, ty, mats, x, stride, nRows, nCols))
    ensures Multiplied(out, dec, Blocked(ty), mats, x, stride, nRows, nCols, |mats|)
    ensures |mats| * nRows <= |out| == |was| && out[|mats| * nRows..] == was[|mats| * nRows..]
  {
    hide RowDot, Elems, RowBytes, DeviceMatvec.Products, Flat, BlockElems;
    UnitsCoverColumns(ty, nCols);
    hide Units;
    var want := DeviceMatvec.Products(dec, ty, mats, x, stride, nRows, nCols);
    forall mat, row | 0 <= mat < |mats| && 0 <= row < nRows
      ensures Flat(nRows, mat, row) < |out|
      ensures out[Flat(nRows, mat, row)] == TensorDot(dec, Blocked(ty), mats[mat], row, x, mat * stride, nCols)
    {
      ProductsCell(want, dec, ty, mats, x, stride, nRows, nCols, mat, row, Flat(nRows, mat, row), mat * stride);
      assert out[..|want|][Flat(nRows, mat, row)] == want[Flat(nRows, mat, row)];
    }
  }

  /** One more matrix of an unblocked batch. */
  lemma OneMoreMatrix(out: seq<real>, was: seq<real>, dec: Decode, t: TensorType, mats: seq<seq<byte>>, x: seq<real>,
                      stride: nat, nRows: nat, nCols: nat, m: nat)
    requires m < |mats| && |out| == |was| && Multiplied(was, dec, t, mats, x, stride, nRows, nCols, m)
    requires |mats| * nRows <= |out|
    requires var off := Flat(nRows, m, 0);
      && off + nRows <= |out| && out[..off] == was[..off]
      && forall row :: 0 <= row < nRows ==> out[off + row] == TensorDot(dec, t, mats[m], row, x, m * stride, nCols)
    ensures Multiplied(out, dec, t, mats, x, stride, nRows, nCols, m + 1)
  {
    hide TensorDot;
    var off := Flat(nRows, m, 0);
    forall mat, row | 0 <= mat < m + 1 && 0 <= row < nRows
      ensures Flat(nRows, mat, row) < |out|
      ensures out[Flat(nRows, mat, row)] == TensorDot(dec, t, mats[mat], row, x, mat * stride, nCols)
    {
      if mat < m {
        EarlierMatrix(nRows, mat, m, row);
        assert out[..off][Flat(nRows, mat, row)] == was[..off][Flat(nRows, mat, row)];
      } else {
        assert Flat(nRows, mat, row) == off + row;
      }
    }
  }

  lemma EarlierMatrix(nRows: nat, mat: nat, m: nat, row: nat)
    requires mat < m && row < nRows
    ensures Flat(nRows, mat, row) < Flat(nRows, m, 0)
  {
    FlatBound(m, nRows, mat, row);
  }

  /** The kernels of one launch; the type is known and the rows are whole. */
  method Launch(out: array<real>, dec: Decode, t: TensorType, mats: seq<seq<byte>>, x: seq<real>, stride: nat,
                nRows: nat, nCols: nat)
    requires nCols % Elements(t) == 0 && |mats| * nRows <= out.Length
    modifies out
    ensures Multiplied(out[..], dec, t, mats, x, stride, nRows, nCols, |mats|)
    ensures out[|mats| * nRows..] == old(out[|mats| * nRows..])
  {
    hide TensorDot, DeviceMatvec.Products, Filled, Flat, Multiplied;
    ghost var was := out[..];
    if t.Blocked? {
      ghost var writes := BatchedSubmit(out, dec, t.ty, mats, x, stride, nRows, nCols);
      FilledIsMultiplied(out[..], was, dec, t.ty, mats, x, stride, nRows, nCols);
      return;
    }
    NoMatrix(out[..], dec, t, mats, x, stride, nRows, nCols);
    for m := 0 to |mats|
      invariant Multiplied(out[..], dec, t, mats, x, stride, nRows, nCols, m)
      invariant out[|mats| * nRows..] == was[|mats| * nRows..]
    {
      ghost var now := out[..];
      Spans(|mats|, nRows, m);
      GenericSubmit(out, Flat(nRows, m, 0), dec, t, mats[m], x, m * stride, nRows, nCols);
      OneMoreMatrix(out[..], now, dec, t, mats, x, stride, nRows, nCols, m);
      KeptBehind(out[..], now, Flat(nRows, m, 0) + nRows, |mats| * nRows);
    }
  }

  lemma NoMatrix(out: seq<real>, dec: Decode, t: TensorType, mats: seq<seq<byte>>, x: seq<real>, stride: nat,
                 nRows: nat, nCols: nat)
    ensures Multiplied(out, dec, t, mats, x, stride, nRows, nCols, 0)
  {
  }

  lemma KeptBehind(a: seq<real>, b: seq<real>, lo: nat, hi: nat)
    requires |a| == |b| && lo <= hi <= |a| && a[lo..] == b[lo..]
    ensures a[hi..] == b[hi..]
  {
    assert a[hi..] == a[lo..][hi - lo..] && b[hi..] == b[lo..][hi - lo..];
  }

  /**
   `moearc_matvec_q`. Q6_K goes through the batched kernel with a single matrix, the other blocked formats
   through the single one and the unblocked through the generic; nothing tells them apart.
   */
  method MatvecQ(out: array<real>, dec: Decode, typeId: nat, w: seq<byte>, x: seq<real>, nRows: nat, nCols: nat)
    returns (rc: MatvecStatus)
    requires nRows <= out.Length
    modifies out
    ensures rc.UnknownType? <==> TypeOf(typeId).None?
    ensures rc.NotWhole? <==> TypeOf(typeId).Some? && nCols % Elements(TypeOf(typeId).value) != 0
    ensures !rc.TooMany? && (!rc.Submitted? ==> out[..] == old(out[..]))
    ensures rc.Submitted? ==> Multiplied(out[..], dec, TypeOf(typeId).value, [w], x, 0, nRows, nCols, 1)
    ensures rc.Submitted? ==> out[nRows..] == old(out[nRows..])
  {
    hide TensorDot, DeviceMatvec.Products, Filled, Flat, TypeOf, BlockElems;
    var found := TypeOf(typeId);
    if found.None? {
      return UnknownType;
    }
    var t := found.value;
    if nCols % Elements(t) != 0 {
      return NotWhole;
    }
    if nRows == 0 {
      return Submitted;
    }
    assert |[w]| * nRows == nRows;
    ghost var was := out[..];
    if t.Blocked? && t.ty != Q6K {
      ghost var writes := SingleSubmit(out, dec, t.ty, w, x, nRows, nCols);
      FilledIsMultiplied(out[..], was, dec, t.ty, [w], x, 0, nRows, nCols);
      assert out[nRows..] == out[..][nRows..] == was[nRows..];
    } else {
      hide Multiplied;
      Launch(out, dec, t, [w], x, 0, nRows, nCols);
    }
    return Submitted;
  }

  /** `moearc_matvec_q_batched`, over matrices of one shape and type. */
  method MatvecQBatched(out: array<real>, dec: Decode, typeId: nat, mats: seq<seq<byte>>, x: seq<real>, stride: nat,
                        nRows: nat, nCols: nat)
    returns (rc: MatvecStatus)
    requires |mats| * nRows <= out.Length
    modifies out
    ensures |mats| == 0 || nRows == 0 ==> rc == Submitted && out[..] == old(out[..])
    ensures |mats| != 0 && nRows != 0 ==> (rc.TooMany? <==> |mats| > MAX_BATCHED_MATS)
    ensures 0 < |mats| <= MAX_BATCHED_MATS && nRows != 0 ==> (rc.UnknownType? <==> TypeOf(typeId).None?)
    ensures 0 < |mats| <= MAX_BATCHED_MATS && nRows != 0 ==>
      (rc.NotWhole? <==> TypeOf(typeId).Some? && nCols % Elements(TypeOf(typeId).value) != 0)
    ensures !rc.Submitted? ==> out[..] == old(out[..])
    ensures rc.Submitted? && |mats| != 0 && nRows != 0 ==>
      TypeOf(typeId).Some? && Multiplied(out[..], dec, TypeOf(typeId).value, mats, x, stride, nRows, nCols, |mats|)
    ensures out[|mats| * nRows..] == old(out[|mats| * nRows..])
  {
    hide TypeOf, BlockElems, Multiplied;
    if |mats| == 0 || nRows == 0 {
      return Submitted;
    }
    if |mats| > MAX_BATCHED_MATS {
      return TooMany;
    }
    var found := TypeOf(typeId);
    if found.None? {
      return UnknownType;
    }
    if nCols % Elements(found.value) != 0 {
      return NotWhole;
    }
    Launch(out, dec, found.value, mats, x, stride, nRows, nCols);
    return Submitted;
  }
}
