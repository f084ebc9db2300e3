/** Matrices packed block by block: what the products of the kernels and of the host are then sums of. */
module PackedProducts {
  import opened Wrappers
  import opened Bytes
  import opened Sums
  import opened Tasks
  import opened Quant
  import opened QuantLayout
  import opened DeviceDispatch
  import opened HostExperts
  import M = DeviceMatvec
  import E = DeviceExperts
  import G = Gathering
  import S = ServedExperts

  predicate AllValid(blocks: seq<Block>) { forall k :: 0 <= k < |blocks| ==> Valid(blocks[k]) }

  /** Blocks of one format, all well formed. */
  predicate Uniform(blocks: seq<Block>, ty: QuantType) {
    AllValid(blocks) && forall k :: 0 <= k < |blocks| ==> TypeFor(blocks[k]) == ty
  }

  /** The blocks of a row one after the other. */
  function PackRow(blocks: seq<Block>): seq<byte>
    requires AllValid(blocks)
  {
    if blocks == [] then [] else PackRow(blocks[..|blocks| - 1]) + Pack(blocks[|blocks| - 1])
  }

  /** The rows of a matrix one after the other. */
  function PackMatrix(rows: seq<seq<Block>>): seq<byte>
    requires forall r :: 0 <= r < |rows| ==> AllValid(rows[r])
  {
    if rows == [] then [] else PackMatrix(rows[..|rows| - 1]) + PackRow(rows[|rows| - 1])
  }

  /** Elements of a block of the format. */
  function Width(ty: QuantType): (n: nat)
    ensures n > 0
  {
    match ty
    case Q80 => 32
    case Mxfp4 => 32
    case _ => 256
  }

  lemma PackLength(b: Block)
    requires Valid(b)
    ensures |Pack(b)| == BlockAt(TypeFor(b), 1) && Size(b) == Width(TypeFor(b))
  {
  }

  lemma NextBlock(ty: QuantType, k: nat)
    ensures BlockAt(ty, k + 1) == BlockAt(ty, k) + BlockAt(ty, 1) && BlockAt(ty, 0) == 0
  {
  }

  lemma {:induction false} RowLength(blocks: seq<Block>, ty: QuantType)
    requires Uniform(blocks, ty)
    ensures |PackRow(blocks)| == BlockAt(ty, |blocks|)
  {
    hide Pack, Valid, BlockAt, TypeFor;
    if blocks == [] {
      NextBlock(ty, 0);
    } else {
      var n := |blocks| - 1;
      RowLength(blocks[..n], ty);
      PackLength(blocks[n]);
      NextBlock(ty, n);
    }
  }

  lemma {:induction false} RowHas(w: seq<byte>, at: nat, blocks: seq<Block>, ty: QuantType, k: nat)
    requires Uniform(blocks, ty) && k < |blocks| && Has(w, at, PackRow(blocks))
    ensures Has(w, at + BlockAt(ty, k), Pack(blocks[k]))
  {
    hide Pack, Valid, TypeFor, Has, BlockAt;
    var n := |blocks| - 1;
    var before := blocks[..n];
    assert Uniform(before, ty);
    assert PackRow(blocks) == PackRow(before) + Pack(blocks[n]);
    hide *;
    HasBoth(w, at, PackRow(before), Pack(blocks[n]));
    if k < n {
      RowHas(w, at, before, ty, k);
      assert before[k] == blocks[k];
    } else {
      RowLength(before, ty);
    }
  }

  /** Rows of n blocks each. */
  predicate Rectangle(rows: seq<seq<Block>>, ty: QuantType, n: nat) {
    forall r :: 0 <= r < |rows| ==> |rows[r]| == n && Uniform(rows[r], ty)
  }

  lemma {:induction false} MatrixLength(rows: seq<seq<Block>>, ty: QuantType, n: nat)
    requires Rectangle(rows, ty, n)
    ensures |PackMatrix(rows)| == Flat(BlockAt(ty, n), |rows|, 0)
  {
    hide PackRow, Valid, BlockAt, TypeFor;
    if rows != [] {
      var m := |rows| - 1;
      MatrixLength(rows[..m], ty, n);
      RowLength(rows[m], ty);
      OneMore(m, BlockAt(ty, n));
    }
  }

  lemma {:induction false} MatrixHas(w: seq<byte>, rows: seq<seq<Block>>, ty: QuantType, n: nat, r: nat)
    requires Rectangle(rows, ty, n) && r < |rows| && Has(w, 0, PackMatrix(rows))
    ensures Uniform(rows[r], ty) && Has(w, Flat(BlockAt(ty, n), r, 0), PackRow(rows[r]))
  {
    hide PackRow, AllValid, TypeFor, Has, BlockAt;
    var m := |rows| - 1;
    var before := rows[..m];
    assert Rectangle(before, ty, n) && Uniform(rows[r], ty) && Uniform(rows[m], ty);
    assert PackMatrix(rows) == PackMatrix(before) + PackRow(rows[m]);
    hide *;
    HasBoth(w, 0, PackMatrix(before), PackRow(rows[m]));
    if r < m {
      MatrixHas(w, before, ty, n, r);
      assert before[r] == rows[r];
    } else {
      MatrixLength(before, ty, n);
    }
  }

  lemma OneMore(m: nat, s: nat)
    ensures (m + 1) * s == m * s + s
  {
  }

  /** Element i of a row. */
  function RowValue(dec: Decode, blocks: seq<Block>, ty: QuantType, i: nat): real
    requires Uniform(blocks, ty)
  {
    if i / Width(ty) < |blocks| then
      PackLength(blocks[i / Width(ty)]);
      ValueOf(dec, blocks[i / Width(ty)], i % Width(ty))
    else 0.0
  }

  lemma LocateIs(ty: QuantType, i: nat)
    ensures Locate(ty, i) == (i / Width(ty), i % Width(ty))
  {
  }

  /** A product over a packed row is the sum of the packed values times the activations. */
  lemma RowProduct(dec: Decode, ty: QuantType, w: seq<byte>, at: nat, blocks: seq<Block>, cols: nat, x: seq<real>,
                   xoff: nat, f: nat -> real)
    requires Uniform(blocks, ty) && Has(w, at, PackRow(blocks)) && cols == |blocks| * Width(ty)
    requires forall i: nat :: i < cols ==> f(i) == Mul(RowValue(dec, blocks, ty, i), At(x, xoff + i))
    ensures RowDot(Elems(dec, ty, w), ty, at, x, xoff, cols) == Sum(cols, f)
  {
    hide Pack, Valid, Has, BlockAt, ValueOf, ElemAt, Locate, PackRow, TypeFor, Sum;
    var g := (i: nat) => Term(Elems(dec, ty, w), ty, at, x, xoff, i);
    forall i: nat | i < cols ensures f(i) == g(i) {
      TermReadBack(dec, ty, w, at, blocks, i);
    }
    SumCong(cols, f, g);
  }

  /** Column i is read from its block. */
  lemma TermReadBack(dec: Decode, ty: QuantType, w: seq<byte>, at: nat, blocks: seq<Block>, i: nat)
    requires Uniform(blocks, ty) && Has(w, at, PackRow(blocks)) && i < |blocks| * Width(ty)
    ensures Elems(dec, ty, w)(at + BlockAt(ty, Locate(ty, i).0), Locate(ty, i).1) == RowValue(dec, blocks, ty, i)
  {
    hide Pack, Valid, Has, BlockAt, ValueOf, ElemAt, Locate, PackRow, TypeFor;
    var k := i / Width(ty);
    BlockOf(i, Width(ty), |blocks|);
    LocateIs(ty, i);
    RowHas(w, at, blocks, ty, k);
    PackLength(blocks[k]);
    BlockReadBack(dec, w, at + BlockAt(ty, k), blocks[k], i % Width(ty));
  }

  lemma BlockOf(i: nat, n: nat, k: nat)
    requires n > 0 && i < k * n
    ensures i / n < k
  {
    assert i == n * (i / n) + i % n;
    MulLe(n, k, i / n);
  }

  /** The numbers of the formats, and what each of them makes of a packed matrix. */
  function FormatOf(id: nat): Option<QuantType> {
    if id == 8 then Some(Q80)
    else if id == 12 then Some(Q4K)
    else if id == 13 then Some(Q5K)
    else if id == 14 then Some(Q6K)
    else if id == 39 then Some(Mxfp4)
    else None
  }

  /** Row r of a packed matrix, read where the kernels read it. */
  lemma MatrixRow(dec: Decode, ty: QuantType, rows: seq<seq<Block>>, n: nat, cols: nat, r: nat, at: nat,
                  x: seq<real>, xoff: nat, f: nat -> real)
    requires Rectangle(rows, ty, n) && r < |rows| && cols == n * Width(ty) && at == r * M.RowBytes(ty, cols)
    requires Uniform(rows[r], ty)
    requires forall i: nat :: i < cols ==> f(i) == Mul(RowValue(dec, rows[r], ty, i), At(x, xoff + i))
    ensures RowDot(Elems(dec, ty, PackMatrix(rows)), ty, at, x, xoff, cols) == Sum(cols, f)
  {
    var w := PackMatrix(rows);
    assert Has(w, 0, w) && |rows[r]| == n;
    hide *;
    WholeRows(ty, n);
    MatrixHas(w, rows, ty, n, r);
    assert Flat(BlockAt(ty, n), r, 0) == at by {
      FlatZero(BlockAt(ty, n), r);
    }
    RowProduct(dec, ty, w, at, rows[r], cols, x, xoff, f);
  }

  lemma FlatZero(s: nat, r: nat)
    ensures Flat(s, r, 0) == r * s
  {
  }

  /** Row r of a packed matrix, multiplied under the number of its format, is the sum of what was packed. */
  lemma MatrixProduct(dec: Decode, id: nat, ty: QuantType, rows: seq<seq<Block>>, n: nat, cols: nat, r: nat,
                      x: seq<real>, xoff: nat, f: nat -> real)
    requires FormatOf(id) == Some(ty) && Rectangle(rows, ty, n) && r < |rows| && cols == n * Width(ty)
    requires Uniform(rows[r], ty)
    requires forall i: nat :: i < cols ==> f(i) == Mul(RowValue(dec, rows[r], ty, i), At(x, xoff + i))
    ensures TypeOf(id).Some?
    ensures TensorDot(dec, TypeOf(id).value, PackMatrix(rows), r, x, xoff, cols) == Sum(cols, f)
  {
    hide PackRow, PackMatrix, AllValid, TypeFor, BlockAt, RowValue, RowDot, Elems, Sum, Width, M.RowBytes, Rectangle;
    assert TypeOf(id) == Some(Blocked(ty));
    MatrixRow(dec, ty, rows, n, cols, r, r * M.RowBytes(ty, cols), x, xoff, f);
  }

  lemma WholeRows(ty: QuantType, n: nat)
    ensures M.RowBytes(ty, n * Width(ty)) == BlockAt(ty, n) && (n * Width(ty)) % M.BlockElems(ty) == 0
  {
    DivMod(n * Width(ty), Width(ty), n, 0);
  }

  /** What counts as a whole row: a number of whole blocks of the format, and any number of plain floats. */
  lemma WholeIff(id: nat, cols: nat)
    ensures TypeOf(id).Some? <==> id <= 1 || FormatOf(id).Some?
    ensures id <= 1 ==> cols % Elements(TypeOf(id).value) == 0
    ensures FormatOf(id).Some? ==>
      (cols % Elements(TypeOf(id).value) == 0 <==> exists n: nat :: cols == n * Width(FormatOf(id).value))
  {
    if FormatOf(id).Some? {
      var w := Width(FormatOf(id).value);
      WholeRows(FormatOf(id).value, 0);
      assert Elements(TypeOf(id).value) == w;
      Multiples(cols, w);
    }
  }

  lemma Multiples(cols: nat, w: nat)
    requires w > 0
    ensures cols % w == 0 <==> exists n: nat :: cols == n * w
  {
    if cols % w == 0 {
      assert cols == cols / w * w;
    }
    forall n: nat | cols == n * w ensures cols % w == 0 {
      DivMod(cols, w, n, 0);
    }
  }

  // ---- unblocked matrices ------------------------------------------------------------------------

  /** n-byte numbers one after the other. */
  function PackNumbers(v: seq<nat>, n: nat): (b: seq<byte>) {
    if v == [] then [] else PackNumbers(v[..|v| - 1], n) + Written(v[|v| - 1], n)
  }

  lemma {:induction false} NumbersHave(w: seq<byte>, v: seq<nat>, n: nat, k: nat)
    requires k <= |v| && Has(w, 0, PackNumbers(v, n))
    ensures |PackNumbers(v, n)| == n * |v|
    ensures k < |v| ==> Has(w, n * k, Written(v[k], n))
  {
    hide Has;
    if v != [] {
      var m := |v| - 1;
      HasBoth(w, 0, PackNumbers(v[..m], n), Written(v[m], n));
      NumbersHave(w, v[..m], n, if k < m then k else m);
      OneMore(m, n);
      assert n * |v| == |v| * n && n * m == m * n;
    }
  }

  /** Under the numbers 0 and 1 a matrix is its 32-bit floats, or its halves, one after the other. */
  lemma PlainReadBack(dec: Decode, v: seq<nat>, k: nat)
    requires k < |v|
    ensures TypeOf(0).Some? && TypeOf(1).Some? && !TypeOf(0).value.Blocked? && !TypeOf(1).value.Blocked?
    ensures v[k] < 0x1_0000_0000 ==> PlainElem(dec, TypeOf(0).value, PackNumbers(v, 4), k) == dec.float(v[k])
    ensures v[k] < 0x1_0000 ==> PlainElem(dec, TypeOf(1).value, PackNumbers(v, 2), k) == dec.half(v[k])
  {
    hide PackNumbers, U16, U32;
    assert Has(PackNumbers(v, 4), 0, PackNumbers(v, 4)) && Has(PackNumbers(v, 2), 0, PackNumbers(v, 2));
    hide Has;
    NumbersHave(PackNumbers(v, 4), v, 4, k);
    NumbersHave(PackNumbers(v, 2), v, 2, k);
    if v[k] < 0x1_0000_0000 {
      HasWord(PackNumbers(v, 4), 4 * k, v[k]);
    }
    if v[k] < 0x1_0000 {
      HasHalf(PackNumbers(v, 2), 2 * k, v[k]);
    }
  }

  /** Row r of a matrix of floats, or of halves, is the sum of the numbers at r * cols and on. */
  lemma PlainProduct(dec: Decode, id: nat, v: seq<nat>, cols: nat, r: nat, x: seq<real>, xoff: nat, f: nat -> real)
    requires id < 2 && Flat(cols, r, cols) <= |v|
    requires forall k :: 0 <= k < |v| ==> v[k] < if id == 0 then 0x1_0000_0000 else 0x1_0000
    requires forall i: nat :: i < cols ==>
      Flat(cols, r, i) < |v|
      && f(i) == Mul(if id == 0 then dec.float(v[Flat(cols, r, i)]) else dec.half(v[Flat(cols, r, i)]), At(x, xoff + i))
    ensures TypeOf(id).Some?
    ensures TensorDot(dec, TypeOf(id).value, PackNumbers(v, if id == 0 then 4 else 2), r, x, xoff, cols) == Sum(cols, f)
  {
    hide PlainElem, PackNumbers, Flat, Sum, Mul;
    if cols > 0 {
      PlainReadBack(dec, v, Flat(cols, r, 0));
    }
    assert !TypeOf(id).value.Blocked?;
    var terms := PlainTerms(dec, TypeOf(id).value, PackNumbers(v, if id == 0 then 4 else 2), r, x, xoff, cols);
    forall i | 0 <= i < cols ensures terms[i] == f(i) {
      PlainReadBack(dec, v, Flat(cols, r, i));
    }
    RangeIsSum(terms, cols, f);
  }

  lemma {:induction false} RangeIsSum(s: seq<real>, n: nat, f: nat -> real)
    requires n <= |s| && forall i :: 0 <= i < n ==> s[i] == f(i)
    ensures SumRange(s, 0, n) == Sum(n, f)
  {
    if n > 0 {
      RangeIsSum(s, n - 1, f);
    }
  }

  // ---- the host ----------------------------------------------------------------------------------

  /** A bank packed row by row: the host's row product is the sum of what was packed. */
  lemma HostRow(dec: Decode, spec: BankSpec, rows: seq<seq<Block>>, n: nat, r: nat, x: seq<real>, f: nat -> real)
    requires Rectangle(rows, spec.ty, n) && r < |rows| && spec.nCols == n * Width(spec.ty) == |x|
    requires Uniform(rows[r], spec.ty)
    requires forall i: nat :: i < |x| ==> f(i) == Mul(RowValue(dec, rows[r], spec.ty, i), x[i])
    ensures NaiveRow(dec, spec, PackMatrix(rows), r, x) == Sum(|x|, f)
  {
    hide PackRow, PackMatrix, AllValid, TypeFor, BlockAt, RowValue, RowDot, Elems, Sum, Rectangle;
    E.SameRowBytes(spec);
    hide Width, M.RowBytes;
    MatrixRow(dec, spec.ty, rows, n, |x|, r, r * M.RowBytes(spec.ty, |x|), x, 0, f);
  }

  /** A bias row packed float by float. */
  lemma BiasReadBack(dec: Decode, v: seq<nat>, i: nat)
    requires i < |v| && v[i] < 0x1_0000_0000
    ensures LdF32(dec, PackNumbers(v, 4), i) == dec.float(v[i])
  {
    PlainReadBack(dec, v, i);
    hide PackNumbers, U32;
  }

  /** The bytes of a run of words are those of the words, one after the other. */
  lemma {:induction false} WordsAreNumbers(ws: seq<G.Word>, v: seq<nat>)
    requires |v| == |ws| && forall k :: 0 <= k < |ws| ==> v[k] == ws[k]
    ensures S.Unpacked(ws) == PackNumbers(v, 4)
  {
    if ws != [] {
      var n := |ws| - 1;
      WordsAreNumbers(ws[..n], v[..n]);
      FourBytes(ws[n]);
    }
  }

  lemma FourBytes(w: G.Word)
    ensures Written(w, 4) == [w % 0x100, w / 0x100 % 0x100, w / 0x1_0000 % 0x100, w / 0x100_0000]
  {
    assert Written(w, 4) == [w % 256] + Written(w / 256, 3);
    assert Written(w / 256, 3) == [w / 256 % 256] + Written(w / 256 / 256, 2);
    assert Written(w / 256 / 256, 2) == [w / 256 / 256 % 256] + Written(w / 256 / 256 / 256, 1);
  }
}
