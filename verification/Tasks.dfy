/** How one phase of a job is cut into tasks: `chunk_for` and the (expert, row range) of a task. */
module Tasks {
  import opened Sums

  /** Rows per task. */
  function ChunkFor(totalRows: nat, target: nat, rowsPerExpert: nat): (c: nat)
    ensures 1 <= c <= Max(rowsPerExpert, 1)
  {
    Min(Max(CeilDiv(totalRows, Max(target, 1)), 16), Max(rowsPerExpert, 1))
  }

  /**
   What the chunk is chosen for: the chunks that cover all rows are no more than the target, unless an
   expert has too few rows for that or sixteen rows are more than that takes.
   */
  lemma ChunkMeets(totalRows: nat, target: nat, rowsPerExpert: nat)
    requires target > 0
    ensures var c := ChunkFor(totalRows, target, rowsPerExpert);
      && (c < Max(rowsPerExpert, 1) ==> c >= 16 && target * c >= totalRows)
      && (c > 16 ==> target * (c - 1) < totalRows)
  {
    var q := CeilDiv(totalRows, target);
    assert target * q >= totalRows && (q > 0 ==> target * (q - 1) < totalRows) by {
      CeilBounds(totalRows, target);
    }
    var c := ChunkFor(totalRows, target, rowsPerExpert);
    MulLe(target, q, c);
    if c > 16 {
      MulLe(target, c - 1, q - 1);
    }
  }

  lemma CeilBounds(a: nat, b: nat)
    requires b > 0
    ensures b * CeilDiv(a, b) >= a && (CeilDiv(a, b) > 0 ==> b * (CeilDiv(a, b) - 1) < a)
  {
  }

  /** One phase over `experts` experts of `rows` rows each, `chunk` rows to a task. */
  datatype Phase = Phase(experts: nat, rows: nat, chunk: nat) {
    predicate Valid() { chunk > 0 }

    /** Tasks per expert (`chunks_a`, `chunks_b`). */
    function Chunks(): nat requires Valid() { CeilDiv(rows, chunk) }

    function Total(): nat requires Valid() { experts * Chunks() }

    /** The expert of a claimed task. */
    function Expert(task: nat): nat
      requires Valid() && task < Total()
    {
      task / Chunks()
    }

    function Lo(task: nat): nat
      requires Valid() && task < Total()
    {
      task % Chunks() * chunk
    }

    function Hi(task: nat): nat
      requires Valid() && task < Total()
    {
      Min(Lo(task) + chunk, rows)
    }

    /** Task `task` writes row r of expert e. */
    predicate Covers(task: nat, e: nat, r: nat)
      requires Valid() && task < Total()
    {
      e == Expert(task) && Lo(task) <= r < Hi(task)
    }
  }

  function PhaseFor(experts: nat, rows: nat, target: nat): (p: Phase)
    ensures p.Valid() && p.experts == experts && p.rows == rows
  {
    Phase(experts, rows, ChunkFor(experts * rows, target, rows))
  }

  lemma ChunksPositive(p: Phase)
    requires p.Valid()
    ensures p.rows > 0 ==> p.Chunks() > 0
    ensures p.Total() > 0 ==> p.Chunks() > 0 && p.experts > 0
    ensures p.Total() == 0 <==> p.experts == 0 || p.rows == 0
  {
    if p.experts > 0 && p.Chunks() > 0 {
      assert p.experts * p.Chunks() >= p.Chunks();
    }
    if p.experts == 0 || p.Chunks() == 0 {
      assert p.experts * p.Chunks() == 0;
    }
  }

  /** A task is a non-empty run of rows of one expert of the job. */
  lemma TaskBounds(p: Phase, task: nat)
    requires p.Valid() && task < p.Total()
    ensures p.Chunks() > 0 && p.Expert(task) < p.experts
    ensures p.Lo(task) < p.Hi(task) <= p.rows
    ensures p.Hi(task) - p.Lo(task) <= p.chunk
  {
    ChunksPositive(p);
    var n := p.Chunks();
    var q, c := task / n, task % n;
    assert task == n * q + c;
    MulLe(n, p.experts, q);
    MulLe(p.chunk, c, n - 1);
  }

  /** The task that covers row r of expert e. */
  function TaskOf(p: Phase, e: nat, r: nat): nat
    requires p.Valid()
  {
    Flat(p.Chunks(), e, r / p.chunk)
  }

  /** The tasks that cover row r of expert e are exactly the one `TaskOf` names. */
  lemma TaskPartition(p: Phase, e: nat, r: nat)
    requires p.Valid() && e < p.experts && r < p.rows
    ensures TaskOf(p, e, r) < p.Total() && p.Covers(TaskOf(p, e, r), e, r)
    ensures forall task: nat :: task < p.Total() && p.Covers(task, e, r) ==> task == TaskOf(p, e, r)
  {
    TaskOfCovers(p, e, r);
    hide *;
    forall task: nat | task < p.Total() && p.Covers(task, e, r) ensures task == TaskOf(p, e, r) {
      CoverIsTaskOf(p, task, e, r);
    }
  }

  lemma InChunk(chunk: nat, r: nat)
    requires chunk > 0
    ensures r / chunk * chunk <= r < r / chunk * chunk + chunk
  {
    assert r == chunk * (r / chunk) + r % chunk;
  }

  lemma ChunkBelow(p: Phase, r: nat)
    requires p.Valid() && r < p.rows
    ensures r / p.chunk < p.Chunks()
  {
    var n := p.Chunks();
    InChunk(p.chunk, r);
    MulLe(p.chunk, n, r / p.chunk);
  }

  lemma TaskOfCovers(p: Phase, e: nat, r: nat)
    requires p.Valid() && e < p.experts && r < p.rows
    ensures TaskOf(p, e, r) < p.Total() && p.Covers(TaskOf(p, e, r), e, r)
  {
    var n := p.Chunks();
    var c := r / p.chunk;
    InChunk(p.chunk, r);
    ChunkBelow(p, r);
    hide p.Chunks;
    FlatBound(p.experts, n, e, c);
    DivMod(e * n + c, n, e, c);
  }

  lemma CoverIsTaskOf(p: Phase, task: nat, e: nat, r: nat)
    requires p.Valid() && task < p.Total() && p.Covers(task, e, r)
    ensures task == TaskOf(p, e, r)
  {
    var n := p.Chunks();
    var c := task % n;
    assert task == n * (task / n) + c;
    assert n * e == e * n;
    DivMod(r, p.chunk, c, r - c * p.chunk);
  }

  /** Two different tasks never touch one row. */
  lemma TasksDisjoint(p: Phase, t1: nat, t2: nat, e: nat, r: nat)
    requires p.Valid() && t1 < p.Total() && t2 < p.Total()
    requires p.Covers(t1, e, r) && p.Covers(t2, e, r)
    ensures t1 == t2
  {
    TaskBounds(p, t1);
    TaskPartition(p, e, r);
  }

  lemma DivMod(t: nat, n: nat, q: nat, c: nat)
    requires t == q * n + c && c < n
    ensures t / n == q && t % n == c
  {
    assert t == n * (t / n) + t % n;
    assert q * n == n * q;
    MulLe(n, t / n + 1, q);
    MulLe(n, q + 1, t / n);
  }

  lemma MulLe(n: nat, a: int, b: int)
    ensures a <= b ==> n * a <= n * b && a * n <= b * n
  {
    if a <= b {
      assert n * (b - a) >= 0;
    }
  }

  lemma ZeroProduct(a: nat, b: nat)
    ensures a == 0 || b == 0 ==> a * b == 0
  {
  }

  /** The row-major offset of column r of row e. */
  function Flat(n: nat, e: nat, r: nat): nat { e * n + r }

  /** A row-major offset determines its row and column. */
  lemma FlatInjective(n: nat, e1: nat, r1: nat, e2: nat, r2: nat)
    requires r1 < n && r2 < n && e1 * n + r1 == e2 * n + r2
    ensures e1 == e2 && r1 == r2
  {
    DivMod(e1 * n + r1, n, e1, r1);
    DivMod(e2 * n + r2, n, e2, r2);
  }

  lemma FlatBound(cap: nat, n: nat, e: nat, r: nat)
    requires e < cap && r < n
    ensures e * n + r < e * n + n <= cap * n
  {
    assert (e + 1) * n <= cap * n;
    assert (e + 1) * n == e * n + n;
  }

  lemma FlatInside(cap: nat, n: nat, e: nat, r: nat)
    requires e < cap && r < n
    ensures Flat(n, e, r) < cap * n
  {
    FlatBound(cap, n, e, r);
  }

  lemma FlatApart(n: nat, e1: nat, r1: nat, e2: nat, r2: nat)
    requires r1 < n && r2 < n
    ensures Flat(n, e1, r1) == Flat(n, e2, r2) ==> e1 == e2 && r1 == r2
  {
    if Flat(n, e1, r1) == Flat(n, e2, r2) {
      FlatInjective(n, e1, r1, e2, r2);
    }
  }

  /** Row t of n rows of k lies inside, after the rows before it. */
  lemma Spans(n: nat, k: nat, t: nat)
    requires t < n
    ensures Flat(k, t, 0) + k <= n * k
    ensures forall u :: 0 <= u < t ==> Flat(k, u, 0) + k <= Flat(k, t, 0)
  {
    MulLe(k, t + 1, n);
    assert (t + 1) * k == t * k + k;
    forall u | 0 <= u < t ensures Flat(k, u, 0) + k <= Flat(k, t, 0) {
      MulLe(k, u + 1, t);
      assert (u + 1) * k == u * k + k;
    }
  }
}
