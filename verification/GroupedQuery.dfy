/** Grouped-query attention, head by head: which key-value head a query head attends to, and what it makes of it. */
module GroupedQuery {
  import opened Wrappers
  import opened Sums
  import opened Exponential
  import opened Softmax
  import opened Attention
  import opened Tasks

  // ---- one head on its own -----------------------------------------------------------------------

  /** A plain dot product. */
  function Dot(a: seq<real>, b: seq<real>, n: nat): real
    requires n <= |a| && n <= |b|
  {
    if n == 0 then 0.0 else Dot(a, b, n - 1) + a[n - 1] * b[n - 1]
  }

  /** One query against a list of keys and values: no table, no heads. */
  ghost function OneHead(exp: ExpFn, sink: Option<real>, scale: real, q: seq<real>, keys: seq<seq<real>>,
                         vals: seq<seq<real>>, d: nat): real
    requires |keys| == |vals| && keys != [] && d < |q|
    requires forall j :: 0 <= j < |keys| ==> |keys[j]| == |vals[j]| == |q|
  {
    TwoPass(exp, sink, seq(|keys|, j requires 0 <= j < |keys| => Mul(Dot(q, keys[j], |q|), scale)),
            seq(|vals|, j requires 0 <= j < |vals| => vals[j][d]))
  }

  /** Key-value head kv of token j: entries kv * headDim and on of its row. */
  ghost function HeadVector(sh: Shape, table: seq<nat>, mem: seq<real>, j: nat, kv: nat): (r: seq<real>)
    requires sh.Accepted() && Reaches(sh, table, mem) && kv < sh.nKvHeads && j < sh.nKv
    ensures |r| == sh.headDim
  {
    hide Reaches;
    assert forall d :: 0 <= d < sh.headDim ==> Flat(sh.headDim, kv, d) < sh.KvRow() by {
      hide Flat;
      forall d | 0 <= d < sh.headDim ensures Flat(sh.headDim, kv, d) < sh.KvRow() {
        FlatInside(sh.nKvHeads, sh.headDim, kv, d);
      }
    }
    seq(sh.headDim, d requires 0 <= d < sh.headDim => Entry(sh, table, mem, j, Flat(sh.headDim, kv, d)))
  }

  lemma HeadEntry(sh: Shape, table: seq<nat>, mem: seq<real>, j: nat, kv: nat, d: nat)
    requires sh.Accepted() && Reaches(sh, table, mem) && kv < sh.nKvHeads && j < sh.nKv && d < sh.headDim
    ensures Flat(sh.headDim, kv, d) < sh.KvRow()
    ensures HeadVector(sh, table, mem, j, kv)[d] == Entry(sh, table, mem, j, Flat(sh.headDim, kv, d))
  {
    hide Reaches, Flat;
    FlatInside(sh.nKvHeads, sh.headDim, kv, d);
  }

  /** The keys (or values) in view of key-value head kv. */
  ghost function InView(sh: Shape, table: seq<nat>, mem: seq<real>, kv: nat): (r: seq<seq<real>>)
    requires sh.Accepted() && Reaches(sh, table, mem) && kv < sh.nKvHeads
    ensures |r| == sh.nKv - sh.kvBegin
    ensures forall j :: 0 <= j < |r| ==> r[j] == HeadVector(sh, table, mem, sh.kvBegin + j, kv)
  {
    seq(sh.nKv - sh.kvBegin, j requires 0 <= j < sh.nKv - sh.kvBegin => HeadVector(sh, table, mem, sh.kvBegin + j, kv))
  }

  /** Head number g of the group that shares key-value head kv. */
  function HeadOf(sh: Shape, kv: nat, g: nat): (h: nat)
    requires sh.Accepted() && kv < sh.nKvHeads && g < sh.Group()
    ensures h < sh.nHeads
  {
    assert sh.nHeads == sh.nKvHeads * sh.Group() + sh.nHeads % sh.nKvHeads;
    FlatInside(sh.nKvHeads, sh.Group(), kv, g);
    Flat(sh.Group(), kv, g)
  }

  lemma HeadReads(sh: Shape, kv: nat, g: nat, d: nat)
    requires sh.Accepted() && kv < sh.nKvHeads && g < sh.Group() && d < sh.headDim
    ensures KvHead(sh, HeadOf(sh, kv, g)) == kv && Column(sh, HeadOf(sh, kv, g), d) == Flat(sh.headDim, kv, d)
  {
    DivMod(kv * sh.Group() + g, sh.Group(), kv, g);
  }

  lemma {:induction false} DotIs(a: seq<real>, b: seq<real>, p: seq<real>, n: nat)
    requires n <= |a| && n <= |b| && n <= |p| && forall i :: 0 <= i < n ==> p[i] == Mul(a[i], b[i])
    ensures SumRange(p, 0, n) == Dot(a, b, n)
  {
    if n > 0 {
      DotIs(a, b, p, n - 1);
    }
  }

  /** The query of head h. */
  function QueryOf(sh: Shape, q: seq<real>, h: nat): (r: seq<real>)
    requires sh.Accepted() && |q| == sh.nHeads * sh.headDim && h < sh.nHeads
    ensures |r| == sh.headDim
  {
    FlatBound(sh.nHeads, sh.headDim, h, 0);
    q[h * sh.headDim..h * sh.headDim + sh.headDim]
  }

  lemma QueryEntry(sh: Shape, q: seq<real>, h: nat, d: nat)
    requires sh.Accepted() && |q| == sh.nHeads * sh.headDim && h < sh.nHeads && d < sh.headDim
    ensures QueryOf(sh, q, h)[d] == q[HeadIndex(sh, h, d)]
  {
    var at := h * sh.headDim;
    assert HeadIndex(sh, h, d) == at + d;
    FlatBound(sh.nHeads, sh.headDim, h, 0);
    hide Shape.Accepted;
    assert QueryOf(sh, q, h) == q[at..at + sh.headDim];
  }

  lemma ProductIs(sh: Shape, q: seq<real>, table: seq<nat>, k: seq<real>, kv: nat, g: nat, j: nat, d: nat)
    requires sh.Accepted() && Reaches(sh, table, k) && |q| == sh.nHeads * sh.headDim
    requires kv < sh.nKvHeads && g < sh.Group() && j < sh.nKv && d < sh.headDim
    ensures Attention.Products(sh, q, table, k, HeadOf(sh, kv, g), j)[d]
      == Mul(QueryOf(sh, q, HeadOf(sh, kv, g))[d], HeadVector(sh, table, k, j, kv)[d])
  {
    hide *;
    var h := HeadOf(sh, kv, g);
    HeadReads(sh, kv, g, d);
    HeadEntry(sh, table, k, j, kv, d);
    QueryEntry(sh, q, h, d);
  }

  lemma ScoreTotal(sh: Shape, q: seq<real>, table: seq<nat>, k: seq<real>, h: nat, j: nat, p: seq<real>)
    requires sh.Accepted() && Reaches(sh, table, k) && |q| == sh.nHeads * sh.headDim && h < sh.nHeads && j < sh.nKv
    requires p == Attention.Products(sh, q, table, k, h, j)
    ensures Score(sh, q, table, k, h, j) == Mul(SumRange(p, 0, sh.headDim), sh.scale)
  {
    hide Shape.Accepted, Reaches, Attention.Products, SumRange, Mul;
  }

  lemma ScoreIs(sh: Shape, q: seq<real>, table: seq<nat>, k: seq<real>, kv: nat, g: nat, j: nat)
    requires sh.Accepted() && Reaches(sh, table, k) && |q| == sh.nHeads * sh.headDim
    requires kv < sh.nKvHeads && g < sh.Group() && j < sh.nKv
    ensures Score(sh, q, table, k, HeadOf(sh, kv, g), j)
      == Mul(Dot(QueryOf(sh, q, HeadOf(sh, kv, g)), HeadVector(sh, table, k, j, kv), sh.headDim), sh.scale)
  {
    hide *;
    var h := HeadOf(sh, kv, g);
    var p := Attention.Products(sh, q, table, k, h, j);
    ScoreTotal(sh, q, table, k, h, j, p);
    var mine, key := QueryOf(sh, q, h), HeadVector(sh, table, k, j, kv);
    forall d | 0 <= d < sh.headDim ensures p[d] == Mul(mine[d], key[d]) {
      ProductIs(sh, q, table, k, kv, g, j, d);
    }
    DotIs(mine, key, p, sh.headDim);
  }

  /** Query head kv * group + g attends to key-value head kv and to nothing else, for every g below the group. */
  lemma HeadByHead(exp: ExpFn, sh: Shape, q: seq<real>, table: seq<nat>, k: seq<real>, v: seq<real>,
                   sinks: Option<seq<real>>, kv: nat, g: nat, d: nat)
    requires sh.Accepted() && Reaches(sh, table, k) && Reaches(sh, table, v)
    requires |q| == sh.nHeads * sh.headDim && (sinks.Some? ==> |sinks.value| == sh.nHeads)
    requires kv < sh.nKvHeads && g < sh.Group() && d < sh.headDim
    ensures var h := HeadOf(sh, kv, g);
      Attended(exp, sh, q, table, k, v, sinks, h, d)
        == OneHead(exp, SinkOf(sinks, h), sh.scale, QueryOf(sh, q, h), InView(sh, table, k, kv), InView(sh, table, v, kv), d)
  {
    hide Reaches, HeadOf, Score, QueryOf, TwoPass, Column, Shape.Group, HeadVector, Entry, Address, Flat;
    var h := HeadOf(sh, kv, g);
    var keys, vals, mine := InView(sh, table, k, kv), InView(sh, table, v, kv), QueryOf(sh, q, h);
    var n := sh.nKv - sh.kvBegin;
    var s := seq(n, j requires 0 <= j < n => Mul(Dot(mine, keys[j], sh.headDim), sh.scale));
    forall j | 0 <= j < n ensures Scores(sh, q, table, k, h)[j] == s[j] {
      ScoreIs(sh, q, table, k, kv, g, sh.kvBegin + j);
    }
    assert Scores(sh, q, table, k, h) == s;
    HeadReads(sh, kv, g, d);
    forall j | 0 <= j < n ensures ValueEntries(sh, table, v, h, d)[j] == vals[j][d] {
      HeadEntry(sh, table, v, sh.kvBegin + j, kv, d);
    }
    assert ValueEntries(sh, table, v, h, d) == seq(n, j requires 0 <= j < n => vals[j][d]);
  }

  // ---- the expanded cache ------------------------------------------------------------------------

  /** A cache with a key-value head for every query head, in which the heads of a group hold copies of its own. */
  ghost predicate Expands(sh: Shape, table: seq<nat>, mem: seq<real>, sh': Shape, table': seq<nat>, mem': seq<real>) {
    && sh.Accepted() && sh'.Accepted() && sh' == sh.(nKvHeads := sh.nHeads, pageTokens := sh'.pageTokens)
    && Reaches(sh, table, mem) && Reaches(sh', table', mem')
    && forall kv, g :: 0 <= kv < sh.nKvHeads && 0 <= g < sh.Group() ==>
      InView(sh', table', mem', HeadOf(sh, kv, g)) == InView(sh, table, mem, kv)
  }

  /** Grouped-query attention is multi-head attention over the expanded cache. */
  lemma GroupedIsExpanded(exp: ExpFn, sh: Shape, sh': Shape, q: seq<real>, table: seq<nat>, k: seq<real>, v: seq<real>,
                          table': seq<nat>, k': seq<real>, v': seq<real>, sinks: Option<seq<real>>, h: nat, d: nat)
    requires Expands(sh, table, k, sh', table', k') && Expands(sh, table, v, sh', table', v')
    requires |q| == sh.nHeads * sh.headDim && (sinks.Some? ==> |sinks.value| == sh.nHeads)
    requires h < sh.nHeads && d < sh.headDim
    ensures Attended(exp, sh, q, table, k, v, sinks, h, d) == Attended(exp, sh', q, table', k', v', sinks, h, d)
  {
    var kv, g := h / sh.Group(), h % sh.Group();
    WhichGroup(sh, h);
    ExpandsHead(sh, table, k, sh', table', k', kv, g);
    ExpandsHead(sh, table, v, sh', table', v', kv, g);
    Alone(sh', h);
    SameQuery(sh, sh', q, h);
    hide *;
    HeadByHead(exp, sh, q, table, k, v, sinks, kv, g, d);
    HeadByHead(exp, sh', q, table', k', v', sinks, h, 0, d);
  }

  lemma SameQuery(sh: Shape, sh': Shape, q: seq<real>, h: nat)
    requires sh.Accepted() && sh'.Accepted() && sh'.nHeads == sh.nHeads && sh'.headDim == sh.headDim
    requires |q| == sh.nHeads * sh.headDim && h < sh.nHeads
    ensures QueryOf(sh', q, h) == QueryOf(sh, q, h)
  {
  }

  lemma ExpandsHead(sh: Shape, table: seq<nat>, mem: seq<real>, sh': Shape, table': seq<nat>, mem': seq<real>, kv: nat, g: nat)
    requires Expands(sh, table, mem, sh', table', mem') && kv < sh.nKvHeads && g < sh.Group()
    ensures sh.Accepted() && sh'.Accepted() && Reaches(sh, table, mem) && Reaches(sh', table', mem')
    ensures sh' == sh.(nKvHeads := sh.nHeads, pageTokens := sh'.pageTokens)
    ensures InView(sh', table', mem', HeadOf(sh, kv, g)) == InView(sh, table, mem, kv)
  {
    hide InView, Reaches, HeadOf, Shape.Accepted, Shape.Group;
  }

  /** Every head is one of a group. */
  lemma WhichGroup(sh: Shape, h: nat)
    requires sh.Accepted() && h < sh.nHeads
    ensures h / sh.Group() < sh.nKvHeads && HeadOf(sh, h / sh.Group(), h % sh.Group()) == h
  {
    var g := sh.Group();
    assert sh.nHeads == sh.nKvHeads * g + sh.nHeads % sh.nKvHeads;
    assert h == g * (h / g) + h % g;
    MulLe(g, sh.nKvHeads, h / g);
  }

  lemma Alone(sh: Shape, h: nat)
    requires sh.Accepted() && sh.nKvHeads == sh.nHeads && h < sh.nHeads
    ensures sh.Group() == 1 && HeadOf(sh, h, 0) == h
  {
  }

  // ---- the sink -----------------------------------------------------------------------------------

  /** A sink is one more key, with the sink for its score and a value of zero. */
  lemma SinkIsAKey(exp: ExpFn, sink: real, s: seq<real>, v: seq<real>)
    requires |s| == |v| && s != []
    ensures TwoPass(exp, Some(sink), s, v) == TwoPass(exp, None, s + [sink], v + [0.0])
  {
    hide Exp;
    var s', v', n := s + [sink], v + [0.0], |s|;
    SameRange(Exps(exp, s), Exps(exp, s'), n);
    SameRange(Weighted(exp, s, v), Weighted(exp, s', v'), n);
    assert Weighted(exp, s', v')[n] == 0.0;
  }

  lemma {:induction false} SameRange(a: seq<real>, b: seq<real>, n: nat)
    requires n <= |a| && n <= |b| && forall i :: 0 <= i < n ==> a[i] == b[i]
    ensures SumRange(a, 0, n) == SumRange(b, 0, n)
  {
    if n > 0 {
      SameRange(a, b, n - 1);
    }
  }
}
