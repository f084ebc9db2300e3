/** What `submit` checks of the shape it is given, and what the slices of the workers need of it. */
module HostShapes {
  import opened Tasks
  import opened Quant
  import opened HostExperts
  import opened HostTheorems

  /** The check of `submit`: a bank has as many bytes as the spec describes. */
  predicate BytesFit(spec: BankSpec, len: nat) { len == spec.nRows * spec.RowBytes() }

  /** Task t of a phase over the rows of the spec borrows entry i of a buffer laid out n entries to an expert. */
  ghost predicate Takes(p: Phase, n: nat, t: nat, i: nat)
    requires p.Valid()
  {
    t < p.Total() && p.Expert(t) * n + p.Lo(t) <= i < p.Expert(t) * n + p.Hi(t)
  }

  /** Row r of expert e is in the slice of some task. */
  lemma RowTaken(p: Phase, n: nat, e: nat, r: nat)
    requires p.Valid() && e < p.experts && r < p.rows
    ensures TaskOf(p, e, r) < p.Total() && p.Expert(TaskOf(p, e, r)) == e
    ensures Takes(p, n, TaskOf(p, e, r), Flat(n, e, r))
  {
    hide TaskOf;
    TaskPartition(p, e, r);
  }

  ghost predicate AllInside(p: Phase, n: nat, size: nat)
    requires p.Valid()
  {
    forall t: nat, i: nat :: Takes(p, n, t, i) ==> i < size
  }

  /** Every slice is inside the buffer exactly when the last expert's rows are. */
  lemma SlicesInsideIff(p: Phase, n: nat, size: nat)
    requires p.Valid() && p.experts > 0
    ensures AllInside(p, n, size) <==> p.rows == 0 || Flat(n, p.experts - 1, p.rows) <= size
  {
    if p.rows > 0 {
      RowTaken(p, n, p.experts - 1, p.rows - 1);
    }
    hide Takes;
    forall t: nat, i: nat | Takes(p, n, t, i) ensures i < Flat(n, p.experts - 1, p.rows) && p.rows > 0 {
      TakenBelow(p, n, t, i);
    }
  }

  lemma TakenBelow(p: Phase, n: nat, t: nat, i: nat)
    requires p.Valid() && Takes(p, n, t, i)
    ensures p.experts > 0 && p.rows > 0 && i < Flat(n, p.experts - 1, p.rows)
  {
    TaskBounds(p, t);
    MulLe(n, p.Expert(t), p.experts - 1);
  }

  ghost predicate AllApart(p: Phase, n: nat)
    requires p.Valid()
  {
    forall t1: nat, t2: nat, i: nat :: t1 != t2 && Takes(p, n, t1, i) ==> !Takes(p, n, t2, i)
  }

  /** No two tasks share an entry exactly when the rows fit an expert's stretch of the buffer, or nobody is next. */
  lemma SlicesApartIff(p: Phase, n: nat)
    requires p.Valid()
    ensures AllApart(p, n) <==> p.experts <= 1 || p.rows <= n
  {
    if p.experts > 1 && p.rows > n {
      RowTaken(p, n, 0, n);
      RowTaken(p, n, 1, 0);
      assert Flat(n, 0, n) == Flat(n, 1, 0);
    } else {
      hide Takes;
      forall t1: nat, t2: nat, i: nat | t1 != t2 && Takes(p, n, t1, i) ensures !Takes(p, n, t2, i) {
        TasksApart(p, n, t1, t2, i);
      }
    }
  }

  lemma TasksApart(p: Phase, n: nat, t1: nat, t2: nat, i: nat)
    requires p.Valid() && (p.experts <= 1 || p.rows <= n) && t1 != t2 && Takes(p, n, t1, i)
    ensures !Takes(p, n, t2, i)
  {
    if Takes(p, n, t2, i) {
      if p.rows <= n {
        RangesApart(p, n, t1, t2, i);
      } else {
        TaskBounds(p, t1);
        TaskBounds(p, t2);
        TasksDisjoint(p, t1, t2, 0, i);
      }
    }
  }

  /** Twice the rows at half the columns is the same number of bytes. */
  lemma BytesAreBlind(ty: QuantType, rows: nat, blocks: nat)
    ensures var b := BankSpec(ty, 0, 0).BlockElems();
      var right, wrong := BankSpec(ty, rows, 2 * blocks * b), BankSpec(ty, 2 * rows, blocks * b);
      BytesFit(wrong, right.nRows * right.RowBytes())
  {
    BytesOfBlocks(ty, blocks);
    BytesOfBlocks(ty, 2 * blocks);
    DoubledBytes(ty, rows, blocks);
  }

  lemma BytesOfBlocks(ty: QuantType, n: nat)
    ensures (n * BankSpec(ty, 0, 0).BlockElems()) / BankSpec(ty, 0, 0).BlockElems() == n
  {
  }

  lemma DoubledBytes(ty: QuantType, rows: nat, n: nat)
    ensures 2 * rows * BlockAt(ty, n) == rows * BlockAt(ty, 2 * n)
  {
    assert BlockAt(ty, 2 * n) == 2 * BlockAt(ty, n);
  }

  /**
   A pool of two slots for experts 256 rows wide: banks of the right size also pass for 512 rows of half the
   columns, and then slices overlap and leave the buffer.
   */
  lemma WrongShapePasses(target: nat)
    ensures var right, wrong := BankSpec(Q4K, 256, 512), BankSpec(Q4K, 512, 256);
      && right.Check() && wrong.Check() && BytesFit(wrong, right.nRows * right.RowBytes())
      && !AllApart(PhaseFor(2, wrong.nRows, target), right.nRows)
      && !AllInside(PhaseFor(2, wrong.nRows, target), right.nRows, 2 * right.nRows)
  {
    SlicesApartIff(PhaseFor(2, 512, target), 256);
    SlicesInsideIff(PhaseFor(2, 512, target), 256, 512);
    hide AllApart, AllInside;
  }
}
