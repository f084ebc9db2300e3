/** Single-query attention over a paged cache: the running softmax of the kernel against the two-pass one. */
module Attention {
  import opened Wrappers
  import opened Sums
  import opened Exponential
  import opened Lanes
  import opened Softmax
  import opened KvPages
  import opened KvMemory

  /** The shape of a decode call; entry c of the query's head h reads entry c of key-value head h / group. */
  datatype Shape = Shape(nHeads: nat, nKvHeads: nat, headDim: nat, kvBegin: nat, nKv: nat, pageTokens: nat, scale: real) {
    /** What the kernel accepts. */
    predicate Accepted() {
      && nHeads != 0 && nKvHeads != 0 && headDim != 0 && nKv != 0 && pageTokens != 0
      && nHeads % nKvHeads == 0 && kvBegin < nKv && headDim <= 1024
    }

    function KvRow(): nat { nKvHeads * headDim }

    function Group(): nat
      requires nKvHeads != 0 && nHeads % nKvHeads == 0 && nHeads != 0
      ensures Group() > 0
    {
      nHeads / nKvHeads
    }
  }

  /** Entry i of logical token j, found through the block table. */
  function Address(sh: Shape, blockTable: seq<nat>, j: nat, i: nat): nat
    requires sh.pageTokens > 0 && PageNo(j, sh.pageTokens) < |blockTable|
  {
    Cell(sh.pageTokens, sh.KvRow(), blockTable[PageNo(j, sh.pageTokens)], SlotNo(j, sh.pageTokens), i)
  }

  // ---- the definition ----------------------------------------------------------------------------

  /** The scores and value entries of the keys one lane visits, in order. */
  datatype Visible = Visible(scores: seq<real>, values: seq<real>)

  ghost function Weighted(exp: ExpFn, s: seq<real>, v: seq<real>): (r: seq<real>)
    requires |s| == |v|
    ensures |r| == |s| && forall i :: 0 <= i < |s| ==> r[i] == Mul(Exp(exp, s[i]), v[i])
  {
    seq(|s|, i requires 0 <= i < |s| => Mul(Exp(exp, s[i]), v[i]))
  }

  /** exp of the sink logit, which enters the denominator and has no value; nothing without a sink. */
  ghost function SinkMass(exp: ExpFn, sink: Option<real>): real {
    if sink.Some? then Exp(exp, sink.value) else 0.0
  }

  /** Two-pass attention of one output entry. */
  ghost function TwoPass(exp: ExpFn, sink: Option<real>, s: seq<real>, v: seq<real>): real
    requires |s| == |v| && s != []
  {
    DenominatorPositive(exp, sink, s);
    Total(Weighted(exp, s, v)) / (SinkMass(exp, sink) + Total(Exps(exp, s)))
  }

  lemma DenominatorPositive(exp: ExpFn, sink: Option<real>, s: seq<real>)
    requires s != []
    ensures SinkMass(exp, sink) + Total(Exps(exp, s)) > 0.0
  {
    TotalAtLeast(Exps(exp, s), 0, |s|);
  }

  // ---- the running form --------------------------------------------------------------------------

  /**
   What the running maximum, denominator and sum stand for after the first n keys: both accumulators are
   the two-pass sums with the factor exp(m) taken out, whatever m is.
   */
  ghost predicate Running(exp: ExpFn, sink: Option<real>, s: seq<real>, v: seq<real>, n: nat, m: real, l: real, acc: real)
    requires n <= |s| == |v|
  {
    && Mul(l, Exp(exp, m)) == SinkMass(exp, sink) + SumRange(Exps(exp, s), 0, n)
    && Mul(acc, Exp(exp, m)) == SumRange(Weighted(exp, s, v), 0, n)
  }

  lemma RunningBegins(exp: ExpFn, sink: Option<real>, s: seq<real>, v: seq<real>)
    requires |s| == |v|
    ensures Running(exp, sink, s, v, 0, if sink.Some? then sink.value else LOWEST, if sink.Some? then 1.0 else 0.0, 0.0)
  {
  }

  lemma Rescale(a: real, c: real, p: real, e: real, e': real, f: real)
    requires Mul(c, e') == e && Mul(p, e') == f
    ensures Mul(Mul(a, c) + p, e') == Mul(a, e) + f
  {
    assert (a * c + p) * e' == a * (c * e') + p * e';
  }

  /** One key folded in, under any new maximum. */
  lemma RunningStep(exp: ExpFn, sink: Option<real>, s: seq<real>, v: seq<real>, n: nat, m: real, l: real, acc: real,
                    m': real)
    requires n < |s| == |v| && Running(exp, sink, s, v, n, m, l, acc)
    ensures var corr, p := Exp(exp, m - m'), Exp(exp, s[n] - m');
      Running(exp, sink, s, v, n + 1, m', Mul(l, corr) + p, Mul(acc, corr) + Mul(p, v[n]))
  {
    hide Mul, Exp;
    var corr, p := Exp(exp, m - m'), Exp(exp, s[n] - m');
    ExpShift(exp, m, m');
    ExpShift(exp, s[n], m');
    Rescale(l, corr, p, Exp(exp, m), Exp(exp, m'), Exp(exp, s[n]));
    assert Mul(Mul(p, v[n]), Exp(exp, m')) == Mul(Exp(exp, s[n]), v[n]) by {
      Reorder(p, v[n], Exp(exp, m'));
    }
    Rescale(acc, corr, Mul(p, v[n]), Exp(exp, m), Exp(exp, m'), Mul(Exp(exp, s[n]), v[n]));
  }

  lemma Reorder(p: real, v: real, e: real)
    ensures Mul(Mul(p, v), e) == Mul(Mul(p, e), v)
  {
  }

  /** The common factor cancels. */
  lemma RunningEnds(exp: ExpFn, sink: Option<real>, s: seq<real>, v: seq<real>, m: real, l: real, acc: real)
    requires |s| == |v| && s != [] && Running(exp, sink, s, v, |s|, m, l, acc)
    ensures l > 0.0 && acc / l == TwoPass(exp, sink, s, v)
  {
    DenominatorPositive(exp, sink, s);
    CommonFactor(acc, l, Exp(exp, m));
  }

  lemma CommonFactor(a: real, l: real, e: real)
    requires e > 0.0 && Mul(l, e) > 0.0
    ensures l > 0.0 && a / l == Mul(a, e) / Mul(l, e)
  {
    assert l > 0.0 by {
      if l <= 0.0 {
        Signs(l, e);
      }
    }
    assert (a / l) * (l * e) == a * e;
  }

  lemma Signs(l: real, e: real)
    requires l <= 0.0 && e > 0.0
    ensures Mul(l, e) <= 0.0
  {
  }

  // ---- moearc_attn_decode ------------------------------------------------------------------------

  /** What one lane of the kernel reads: its query head and the entries of the keys through the block table. */
  ghost predicate Reaches(sh: Shape, blockTable: seq<nat>, mem: seq<real>) {
    && sh.pageTokens > 0
    && (forall j :: 0 <= j < sh.nKv ==> PageNo(j, sh.pageTokens) < |blockTable|)
    && (forall j, i :: 0 <= j < sh.nKv && 0 <= i < sh.KvRow() ==> Address(sh, blockTable, j, i) < |mem|)
  }

  /** Entry i of the key (or value) of logical token j. */
  ghost function Entry(sh: Shape, blockTable: seq<nat>, mem: seq<real>, j: nat, i: nat): real
    requires Reaches(sh, blockTable, mem) && j < sh.nKv && i < sh.KvRow()
  {
    mem[Address(sh, blockTable, j, i)]
  }

  /** The key-value head that query head h reads. */
  function KvHead(sh: Shape, h: nat): (kv: nat)
    requires sh.Accepted() && h < sh.nHeads
    ensures kv < sh.nKvHeads
  {
    var g := sh.Group();
    assert sh.nHeads == sh.nKvHeads * g + sh.nHeads % sh.nKvHeads;
    assert h == g * (h / g) + h % g;
    Tasks.MulLe(g, sh.nKvHeads, h / g);
    h / g
  }

  /** Entry d of the key-value head that query head h reads. */
  function Column(sh: Shape, h: nat, d: nat): (i: nat)
    requires sh.Accepted() && h < sh.nHeads && d < sh.headDim
    ensures i < sh.KvRow()
  {
    var kv := KvHead(sh, h);
    Tasks.FlatBound(sh.nKvHeads, sh.headDim, kv, d);
    kv * sh.headDim + d
  }

  /** Entry d of query head h, in the query and in the output. */
  function HeadIndex(sh: Shape, h: nat, d: nat): (i: nat)
    requires sh.Accepted() && h < sh.nHeads && d < sh.headDim
    ensures i < sh.nHeads * sh.headDim
  {
    Tasks.FlatBound(sh.nHeads, sh.headDim, h, d);
    h * sh.headDim + d
  }

  /** The scaled dot product of head h's query with token j's key. */
  ghost function Score(sh: Shape, q: seq<real>, blockTable: seq<nat>, k: seq<real>, h: nat, j: nat): real
    requires sh.Accepted() && Reaches(sh, blockTable, k) && |q| == sh.nHeads * sh.headDim
    requires h < sh.nHeads && j < sh.nKv
  {
    Mul(Total(Products(sh, q, blockTable, k, h, j)), sh.scale)
  }

  ghost function Products(sh: Shape, q: seq<real>, blockTable: seq<nat>, k: seq<real>, h: nat, j: nat): (r: seq<real>)
    requires sh.Accepted() && Reaches(sh, blockTable, k) && |q| == sh.nHeads * sh.headDim
    requires h < sh.nHeads && j < sh.nKv
    ensures |r| == sh.headDim
    ensures forall d :: 0 <= d < sh.headDim ==>
      r[d] == Mul(q[HeadIndex(sh, h, d)], Entry(sh, blockTable, k, j, Column(sh, h, d)))
  {
    seq(sh.headDim, d requires 0 <= d < sh.headDim =>
      Mul(q[HeadIndex(sh, h, d)], Entry(sh, blockTable, k, j, Column(sh, h, d))))
  }

  /** The scores of the keys in view, `[kvBegin, nKv)`. */
  ghost function Scores(sh: Shape, q: seq<real>, blockTable: seq<nat>, k: seq<real>, h: nat): (r: seq<real>)
    requires sh.Accepted() && Reaches(sh, blockTable, k) && |q| == sh.nHeads * sh.headDim && h < sh.nHeads
    ensures |r| == sh.nKv - sh.kvBegin
    ensures forall i :: 0 <= i < |r| ==> r[i] == Score(sh, q, blockTable, k, h, sh.kvBegin + i)
  {
    seq(sh.nKv - sh.kvBegin, i requires 0 <= i < sh.nKv - sh.kvBegin =>
      Score(sh, q, blockTable, k, h, sh.kvBegin + i))
  }

  /** Entry d of the values in view. */
  ghost function ValueEntries(sh: Shape, blockTable: seq<nat>, v: seq<real>, h: nat, d: nat): (r: seq<real>)
    requires sh.Accepted() && Reaches(sh, blockTable, v) && h < sh.nHeads && d < sh.headDim
    ensures |r| == sh.nKv - sh.kvBegin
    ensures forall i :: 0 <= i < |r| ==> r[i] == Entry(sh, blockTable, v, sh.kvBegin + i, Column(sh, h, d))
  {
    seq(sh.nKv - sh.kvBegin, i requires 0 <= i < sh.nKv - sh.kvBegin =>
      Entry(sh, blockTable, v, sh.kvBegin + i, Column(sh, h, d)))
  }

  /** One key's score: a product per lane, reduced over the group, scaled. */
  method LaneScore(sh: Shape, q: seq<real>, blockTable: seq<nat>, k: seq<real>, h: nat, j: nat) returns (s: real)
    requires sh.Accepted() && Reaches(sh, blockTable, k) && |q| == sh.nHeads * sh.headDim
    requires h < sh.nHeads && j < sh.nKv
    ensures s == Score(sh, q, blockTable, k, h, j)
  {
    hide Products, Column, HeadIndex, Address, Mul, Shape.Accepted;
    ghost var products := Products(sh, q, blockTable, k, h, j);
    var lanes: seq<real> := [];
    while |lanes| < sh.headDim
      invariant |lanes| <= sh.headDim
      invariant forall d :: 0 <= d < |lanes| ==> lanes[d] == products[d]
    {
      var d := |lanes|;
      lanes := lanes + [Mul(q[HeadIndex(sh, h, d)], k[Address(sh, blockTable, j, Column(sh, h, d))])];
    }
    assert lanes == products;
    var sum := ReduceSum(lanes);
    s := Mul(sum, sh.scale);
  }

  /** One lane of the kernel: output entry d of head h. */
  method AttnLane(exp: ExpFn, sh: Shape, q: seq<real>, blockTable: seq<nat>, k: seq<real>, v: seq<real>,
                  sink: Option<real>, h: nat, d: nat)
    returns (out: real)
    requires sh.Accepted() && Reaches(sh, blockTable, k) && Reaches(sh, blockTable, v)
    requires |q| == sh.nHeads * sh.headDim && h < sh.nHeads && d < sh.headDim
    ensures out == TwoPass(exp, sink, Scores(sh, q, blockTable, k, h), ValueEntries(sh, blockTable, v, h, d))
  {
    hide Running, TwoPass, Score, Scores, ValueEntries, Address, Column, Exp, Mul;
    assert sh.kvBegin < sh.nKv;
    hide Shape.Accepted;
    ghost var ss, vs := Scores(sh, q, blockTable, k, h), ValueEntries(sh, blockTable, v, h, d);
    var m := if sink.Some? then sink.value else LOWEST;
    var l := if sink.Some? then 1.0 else 0.0;
    var acc := 0.0;
    RunningBegins(exp, sink, ss, vs);
    var j := sh.kvBegin;
    while j < sh.nKv
      invariant sh.kvBegin <= j <= sh.nKv
      invariant Running(exp, sink, ss, vs, j - sh.kvBegin, m, l, acc)
    {
      var s := LaneScore(sh, q, blockTable, k, h, j);
      var mNew := if m < s then s else m;
      var corr := Exp(exp, m - mNew);
      var p := Exp(exp, s - mNew);
      RunningStep(exp, sink, ss, vs, j - sh.kvBegin, m, l, acc, mNew);
      l := Mul(l, corr) + p;
      acc := Mul(acc, corr) + Mul(p, v[Address(sh, blockTable, j, Column(sh, h, d))]);
      m := mNew;
      j := j + 1;
    }
    RunningEnds(exp, sink, ss, vs, m, l, acc);
    out := acc / l;
  }

  /** The two-pass attention of head h, entry d. */
  ghost function Attended(exp: ExpFn, sh: Shape, q: seq<real>, blockTable: seq<nat>, k: seq<real>, v: seq<real>,
                          sinks: Option<seq<real>>, h: nat, d: nat): real
    requires sh.Accepted() && Reaches(sh, blockTable, k) && Reaches(sh, blockTable, v)
    requires |q| == sh.nHeads * sh.headDim && (sinks.Some? ==> |sinks.value| == sh.nHeads)
    requires h < sh.nHeads && d < sh.headDim
  {
    TwoPass(exp, SinkOf(sinks, h), Scores(sh, q, blockTable, k, h), ValueEntries(sh, blockTable, v, h, d))
  }

  function SinkOf(sinks: Option<seq<real>>, h: nat): Option<real>
    requires sinks.Some? ==> h < |sinks.value|
  {
    if sinks.Some? then Some(sinks.value[h]) else None
  }

  lemma HeadIndexInjective(sh: Shape, h1: nat, d1: nat, h2: nat, d2: nat)
    requires sh.Accepted() && h1 < sh.nHeads && d1 < sh.headDim && h2 < sh.nHeads && d2 < sh.headDim
    requires HeadIndex(sh, h1, d1) == HeadIndex(sh, h2, d2)
    ensures h1 == h2 && d1 == d2
  {
    Tasks.FlatInjective(sh.headDim, h1, d1, h2, d2);
  }

  /** `moearc_attn_decode`. Its work-items, one per head and entry, run in any order. */
  method AttnDecode(out: array<real>, exp: ExpFn, sh: Shape, q: seq<real>, blockTable: seq<nat>,
                    k: seq<real>, v: seq<real>, sinks: Option<seq<real>>, kvType: nat)
    returns (rc: Status)
    requires |q| == sh.nHeads * sh.headDim == out.Length && (sinks.Some? ==> |sinks.value| == sh.nHeads)
    requires sh.Accepted() ==> Reaches(sh, blockTable, k) && Reaches(sh, blockTable, v)
    modifies out
    ensures rc == if sh.Accepted() && KvTypeOf(kvType).Some? then Done else BadArgument
    ensures rc.BadArgument? ==> out[..] == old(out[..])
    ensures rc.Done? ==> forall h, d :: 0 <= h < sh.nHeads && 0 <= d < sh.headDim ==>
      out[HeadIndex(sh, h, d)] == Attended(exp, sh, q, blockTable, k, v, sinks, h, d)
  {
    if KvTypeOf(kvType).None? {
      return BadArgument;
    }
    if sh.nHeads == 0 || sh.nKvHeads == 0 || sh.headDim == 0 || sh.nKv == 0 || sh.pageTokens == 0 {
      return BadArgument;
    }
    if sh.nHeads % sh.nKvHeads != 0 || sh.kvBegin >= sh.nKv || sh.headDim > 1024 {
      return BadArgument;
    }
    AttnLaunch(out, exp, sh, q, blockTable, k, v, sinks);
    return Done;
  }

  lemma HeadIndexApart(sh: Shape, h: nat, d: nat)
    requires sh.Accepted() && h < sh.nHeads && d < sh.headDim
    ensures forall h': nat, d': nat :: h' < sh.nHeads && d' < sh.headDim && (h' != h || d' != d) ==>
      HeadIndex(sh, h', d') != HeadIndex(sh, h, d)
  {
    hide HeadIndex, Shape.Accepted;
    forall h': nat, d': nat | h' < sh.nHeads && d' < sh.headDim && (h' != h || d' != d)
      ensures HeadIndex(sh, h', d') != HeadIndex(sh, h, d)
    {
      if HeadIndex(sh, h', d') == HeadIndex(sh, h, d) {
        HeadIndexInjective(sh, h, d, h', d');
      }
    }
  }

  method AttnLaunch(out: array<real>, exp: ExpFn, sh: Shape, q: seq<real>, blockTable: seq<nat>,
                    k: seq<real>, v: seq<real>, sinks: Option<seq<real>>)
    requires sh.Accepted() && Reaches(sh, blockTable, k) && Reaches(sh, blockTable, v)
    requires |q| == sh.nHeads * sh.headDim == out.Length && (sinks.Some? ==> |sinks.value| == sh.nHeads)
    modifies out
    ensures forall h, d :: 0 <= h < sh.nHeads && 0 <= d < sh.headDim ==>
      out[HeadIndex(sh, h, d)] == Attended(exp, sh, q, blockTable, k, v, sinks, h, d)
  {
    hide *;
    var todo: set<(nat, nat)> := set h: nat, d: nat | h < sh.nHeads && d < sh.headDim :: (h, d);
    while todo != {}
      invariant forall it :: it in todo ==> it.0 < sh.nHeads && it.1 < sh.headDim
      invariant forall h: nat, d: nat :: h < sh.nHeads && d < sh.headDim && (h, d) !in todo ==>
        out[HeadIndex(sh, h, d)] == Attended(exp, sh, q, blockTable, k, v, sinks, h, d)
      decreases |todo|
    {
      var it :| it in todo;
      var h, d := it.0, it.1;
      var one := AttnItem(exp, sh, q, blockTable, k, v, sinks, h, d);
      HeadIndexApart(sh, h, d);
      out[HeadIndex(sh, h, d)] := one;
      todo := todo - {it};
    }
  }

  method AttnItem(exp: ExpFn, sh: Shape, q: seq<real>, blockTable: seq<nat>, k: seq<real>, v: seq<real>,
                  sinks: Option<seq<real>>, h: nat, d: nat)
    returns (out: real)
    requires sh.Accepted() && Reaches(sh, blockTable, k) && Reaches(sh, blockTable, v)
    requires |q| == sh.nHeads * sh.headDim && (sinks.Some? ==> |sinks.value| == sh.nHeads)
    requires h < sh.nHeads && d < sh.headDim
    ensures out == Attended(exp, sh, q, blockTable, k, v, sinks, h, d)
  {
    hide TwoPass, Scores, ValueEntries, Shape.Accepted;
    out := AttnLane(exp, sh, q, blockTable, k, v, SinkOf(sinks, h), h, d);
  }

  // ---- what the definition means -----------------------------------------------------------------

  /** The scores of all keys under a mask that hides the ones before `begin`. */
  ghost function Hidden(s: seq<real>, begin: nat): (r: seq<Logit>)
    ensures |r| == |s| && forall i :: 0 <= i < |s| ==> r[i] == if i < begin then NegInf else Fin(s[i])
  {
    seq(|s|, i requires 0 <= i < |s| => if i < begin then NegInf else Fin(s[i]))
  }

  ghost function Products2(a: seq<real>, b: seq<real>): (r: seq<real>)
    requires |a| == |b|
    ensures |r| == |a| && forall i :: 0 <= i < |a| ==> r[i] == Mul(a[i], b[i])
  {
    seq(|a|, i requires 0 <= i < |a| => Mul(a[i], b[i]))
  }

  lemma {:induction false} SuffixTotal(a: seq<real>, b: seq<real>, begin: nat, n: nat)
    requires begin <= n <= |a| && |a| == begin + |b|
    requires forall i :: 0 <= i < |a| ==> a[i] == if i < begin then 0.0 else b[i - begin]
    ensures SumRange(a, 0, n) == SumRange(b, 0, n - begin)
  {
    if n > begin {
      SuffixTotal(a, b, begin, n - 1);
    } else {
      TotalZero(a, n);
    }
  }

  /**
   A window is a mask: starting the loop at `begin` gives what visiting every key would give if the ones
   before it scored minus infinity and so weighed nothing.
   */
  lemma WindowIsMask(exp: ExpFn, sink: Option<real>, s: seq<real>, v: seq<real>, begin: nat)
    requires |s| == |v| && begin < |s|
    ensures var t := Terms(exp, Hidden(s, begin), 0.0);
      && SinkMass(exp, sink) + Total(t) > 0.0
      && TwoPass(exp, sink, s[begin..], v[begin..]) == Total(Products2(t, v)) / (SinkMass(exp, sink) + Total(t))
  {
    hide Terms, Hidden, Exps, Weighted, Products2, SumRange;
    HiddenMass(exp, s, begin);
    HiddenTotal(exp, s, v, begin);
    DenominatorPositive(exp, sink, s[begin..]);
  }

  lemma HiddenTerm(exp: ExpFn, s: seq<real>, begin: nat, i: nat)
    requires begin <= |s| && i < |s|
    ensures Terms(exp, Hidden(s, begin), 0.0)[i] == if i < begin then 0.0 else Exps(exp, s[begin..])[i - begin]
  {
    if i >= begin {
      assert s[i] - 0.0 == s[i] == s[begin..][i - begin];
    }
  }

  lemma HiddenMass(exp: ExpFn, s: seq<real>, begin: nat)
    requires begin <= |s|
    ensures Total(Terms(exp, Hidden(s, begin), 0.0)) == Total(Exps(exp, s[begin..]))
  {
    hide SumRange, Term, Exp, Hidden;
    var t, e := Terms(exp, Hidden(s, begin), 0.0), Exps(exp, s[begin..]);
    forall i | 0 <= i < |t| ensures t[i] == if i < begin then 0.0 else e[i - begin] {
      HiddenTerm(exp, s, begin, i);
    }
    SuffixTotal(t, e, begin, |s|);
  }

  lemma HiddenTotal(exp: ExpFn, s: seq<real>, v: seq<real>, begin: nat)
    requires |s| == |v| && begin <= |s|
    ensures Total(Products2(Terms(exp, Hidden(s, begin), 0.0), v)) == Total(Weighted(exp, s[begin..], v[begin..]))
  {
    hide SumRange, Term, Terms, Exp, Hidden, Mul;
    var t := Terms(exp, Hidden(s, begin), 0.0);
    var p, w := Products2(t, v), Weighted(exp, s[begin..], v[begin..]);
    forall i | 0 <= i < |p| ensures p[i] == if i < begin then 0.0 else w[i - begin] {
      HiddenTerm(exp, s, begin, i);
      TimesZero(v[i]);
      assert i >= begin ==> v[begin..][i - begin] == v[i];
    }
    SuffixTotal(p, w, begin, |s|);
  }

  lemma TimesZero(x: real)
    ensures Mul(0.0, x) == 0.0
  {
  }

  /**
   Without a sink, windowed attention is the sum of all the values weighted by the masked softmax that
   `moearc_softmax` computes of all the scores.
   */
  lemma NoSinkIsSoftmax(exp: ExpFn, s: seq<real>, v: seq<real>, begin: nat, weights: seq<real>)
    requires |s| == |v| && begin < |s| && IsSoftmax(exp, Hidden(s, begin), weights)
    ensures TwoPass(exp, None, s[begin..], v[begin..]) == Total(Products2(weights, v))
  {
    hide Exp;
    WindowIsMask(exp, None, s, v, begin);
    var t := Terms(exp, Hidden(s, begin), 0.0);
    var den := Total(t);
    forall i | 0 <= i < |s| ensures Products2(weights, v)[i] == Mul(Products2(t, v)[i], 1.0 / den) {
      DivideFactor(t[i], v[i], den);
    }
    TotalScale(Products2(t, v), Products2(weights, v), 1.0 / den, |s|);
    DivideOnce(Total(Products2(t, v)), den);
  }

  lemma DivideFactor(a: real, b: real, c: real)
    requires c != 0.0
    ensures Mul(a / c, b) == Mul(Mul(a, b), 1.0 / c)
  {
    assert a / c == a * (1.0 / c);
  }

  lemma DivideOnce(a: real, c: real)
    requires c != 0.0
    ensures a / c == Mul(a, 1.0 / c)
  {
  }

  /** With a sink, the weights add up to less than one: the sink drains the rest. */
  lemma SinkDrains(exp: ExpFn, sink: real, s: seq<real>)
    requires s != []
    ensures TwoPass(exp, Some(sink), s, seq(|s|, i => 1.0)) < 1.0
  {
    var ones: seq<real> := seq(|s|, i => 1.0);
    assert Weighted(exp, s, ones) == Exps(exp, s) by {
      forall i | 0 <= i < |s| ensures Weighted(exp, s, ones)[i] == Exps(exp, s)[i] {
      }
    }
    DenominatorPositive(exp, Some(sink), s);
    DenominatorPositive(exp, None, s);
    SmallQuotient(Total(Exps(exp, s)), Exp(exp, sink));
  }

  lemma SmallQuotient(a: real, b: real)
    requires a > 0.0 && b > 0.0
    ensures a / (b + a) < 1.0
  {
  }
}
