/** Attention over the shared pages against attention over a private contiguous cache. */
module PagedAttention {
  import opened Wrappers
  import opened Sums
  import opened Exponential
  import opened KvPages
  import opened KvMemory
  import opened KvStoring
  import opened Attention
  import opened Tasks

  // ---- what a kept pattern is worth --------------------------------------------------------------

  /** A buffer of patterns, as the numbers `LoadCell` loads from it. */
  ghost function Decoded(ty: KvType, mem: seq<nat>): (r: seq<real>)
    ensures |r| == |mem| && forall a :: 0 <= a < |mem| ==> r[a] == CellValue(ty, mem[a])
  {
    seq(|mem|, a requires 0 <= a < |mem| => CellValue(ty, mem[a]))
  }

  // ---- layout does not matter --------------------------------------------------------------------

  /** Two layouts of a cache hold the same entries. */
  ghost predicate SameEntries(sh1: Shape, table1: seq<nat>, mem1: seq<real>, sh2: Shape, table2: seq<nat>, mem2: seq<real>) {
    && sh2 == sh1.(pageTokens := sh2.pageTokens)
    && Reaches(sh1, table1, mem1) && Reaches(sh2, table2, mem2)
    && (forall j, i :: 0 <= j < sh1.nKv && 0 <= i < sh1.KvRow() ==>
      Entry(sh1, table1, mem1, j, i) == Entry(sh2, table2, mem2, j, i))
  }

  lemma SameScore(sh1: Shape, table1: seq<nat>, k1: seq<real>, sh2: Shape, table2: seq<nat>, k2: seq<real>,
                  q: seq<real>, h: nat, j: nat)
    requires sh1.Accepted() && sh2.Accepted() && SameEntries(sh1, table1, k1, sh2, table2, k2)
    requires |q| == sh1.nHeads * sh1.headDim && h < sh1.nHeads && j < sh1.nKv
    ensures Score(sh1, q, table1, k1, h, j) == Score(sh2, q, table2, k2, h, j)
  {
    hide Entry, Mul;
    assert Products(sh1, q, table1, k1, h, j) == Products(sh2, q, table2, k2, h, j);
  }

  /** Attention depends on the entries and not on where they are kept. */
  lemma LayoutIrrelevant(exp: ExpFn, sh1: Shape, table1: seq<nat>, k1: seq<real>, v1: seq<real>,
                         sh2: Shape, table2: seq<nat>, k2: seq<real>, v2: seq<real>,
                         q: seq<real>, sinks: Option<seq<real>>, h: nat, d: nat)
    requires sh1.Accepted() && sh2.Accepted()
    requires SameEntries(sh1, table1, k1, sh2, table2, k2) && SameEntries(sh1, table1, v1, sh2, table2, v2)
    requires |q| == sh1.nHeads * sh1.headDim && (sinks.Some? ==> |sinks.value| == sh1.nHeads)
    requires h < sh1.nHeads && d < sh1.headDim
    ensures Attended(exp, sh1, q, table1, k1, v1, sinks, h, d) == Attended(exp, sh2, q, table2, k2, v2, sinks, h, d)
  {
    hide Entry, Score, TwoPass;
    var s1, s2 := Scores(sh1, q, table1, k1, h), Scores(sh2, q, table2, k2, h);
    forall i | 0 <= i < |s1| ensures s1[i] == s2[i] {
      SameScore(sh1, table1, k1, sh2, table2, k2, q, h, sh1.kvBegin + i);
    }
    assert s1 == s2;
    assert ValueEntries(sh1, table1, v1, h, d) == ValueEntries(sh2, table2, v2, h, d);
  }

  // ---- the private cache -------------------------------------------------------------------------

  /** One sequence's private array, contiguous: every one of its first nKv tokens is written, and is there. */
  ghost predicate Contiguous(ty: KvType, row: seq<Option<Token>>, nKv: nat, n: nat, key: bool, mem: seq<real>) {
    && nKv <= |row|
    && (forall j :: 0 <= j < nKv ==> row[j].Some? && |row[j].value.Part(key)| == n)
    && (forall j, i :: 0 <= j < nKv && 0 <= i < n ==>
      Flat(n, j, i) < |mem| && mem[Flat(n, j, i)] == CellValue(ty, Stored(ty, row[j].value.Part(key)[i])))
  }

  /** The block table of a contiguous cache of one-token pages. */
  function Straight(n: nat): (r: seq<nat>)
    ensures |r| == n && forall j :: 0 <= j < n ==> r[j] == j
  {
    seq(n, j => j)
  }

  lemma StraightAddress(sh: Shape, j: nat, i: nat)
    requires sh.pageTokens == 1 && j < sh.nKv
    ensures PageNo(j, 1) == j && SlotNo(j, 1) == 0
    ensures Address(sh, Straight(sh.nKv), j, i) == Flat(sh.KvRow(), j, i)
  {
  }

  lemma PagedEntry(mem: seq<nat>, seqs: map<nat, SeqPages>, sh: Shape, ty: KvType, view: Private, key: bool, id: nat,
                   j: nat, i: nat)
    requires Shows(mem, seqs, sh.pageTokens, sh.KvRow(), ty, view, key) && id in view
    requires j < |view[id]| && view[id][j].Some? && i < sh.KvRow()
    ensures PageNo(j, sh.pageTokens) < |seqs[id].pages| && |view[id][j].value.Part(key)| == sh.KvRow()
    ensures Address(sh, seqs[id].pages, j, i) < |mem|
    ensures mem[Address(sh, seqs[id].pages, j, i)] == Stored(ty, view[id][j].value.Part(key)[i])
  {
    hide Cell, Stored;
    assert ShowsToken(mem, seqs[id].pages, sh.pageTokens, sh.KvRow(), ty, j, view[id][j].value.Part(key));
  }

  /** Through its page table, a sequence of the pool has the entries of its private array. */
  lemma PagedIsPrivate(mem: seq<nat>, seqs: map<nat, SeqPages>, sh: Shape, ty: KvType, view: Private, key: bool, id: nat,
                       own: seq<real>)
    requires Shows(mem, seqs, sh.pageTokens, sh.KvRow(), ty, view, key) && id in view
    requires Contiguous(ty, view[id], sh.nKv, sh.KvRow(), key, own) && sh.KvRow() > 0
    ensures id in seqs
    ensures SameEntries(sh, seqs[id].pages, Decoded(ty, mem), sh.(pageTokens := 1), Straight(sh.nKv), own)
  {
    hide Shows, Address, Flat, CellValue;
    var sh' := sh.(pageTokens := 1);
    ShowsKeys(mem, seqs, sh.pageTokens, sh.KvRow(), ty, view, key);
    var pages := seqs[id].pages;
    forall j | 0 <= j < sh.nKv
      ensures PageNo(j, sh.pageTokens) < |pages| && PageNo(j, 1) < |Straight(sh.nKv)|
    {
      PagedEntry(mem, seqs, sh, ty, view, key, id, j, 0);
      StraightAddress(sh', j, 0);
    }
    forall j, i | 0 <= j < sh.nKv && 0 <= i < sh.KvRow()
      ensures Address(sh, pages, j, i) < |mem| && Address(sh', Straight(sh.nKv), j, i) < |own|
      ensures Decoded(ty, mem)[Address(sh, pages, j, i)] == own[Address(sh', Straight(sh.nKv), j, i)]
    {
      PagedEntry(mem, seqs, sh, ty, view, key, id, j, i);
      StraightAddress(sh', j, i);
    }
  }

  /**
   Attention over a sequence of a store, through its page table, is attention over that sequence's private
   contiguous cache, whatever else the pool holds.
   */
  lemma AttendsPrivately(store: KvStore, exp: ExpFn, sh: Shape, q: seq<real>, sinks: Option<seq<real>>, id: nat,
                         ownK: seq<real>, ownV: seq<real>, h: nat, d: nat)
    requires store.Valid() && id in store.view && sh.Accepted()
    requires sh.pageTokens == store.cache.pageTokens && sh.nKvHeads == store.nKvHeads && sh.headDim == store.headDim
    requires Contiguous(store.ty, store.view[id], sh.nKv, sh.KvRow(), true, ownK)
    requires Contiguous(store.ty, store.view[id], sh.nKv, sh.KvRow(), false, ownV)
    requires |q| == sh.nHeads * sh.headDim && (sinks.Some? ==> |sinks.value| == sh.nHeads)
    requires h < sh.nHeads && d < sh.headDim
    ensures id in store.cache.seqs
    ensures var table := store.cache.seqs[id].pages;
      var k, v := Decoded(store.ty, store.kPages[..]), Decoded(store.ty, store.vPages[..]);
      var own, straight := sh.(pageTokens := 1), Straight(sh.nKv);
      && Reaches(sh, table, k) && Reaches(sh, table, v) && own.Accepted()
      && Reaches(own, straight, ownK) && Reaches(own, straight, ownV)
      && Attended(exp, sh, q, table, k, v, sinks, h, d) == Attended(exp, own, q, straight, ownK, ownV, sinks, h, d)
  {
    hide Shows, Contiguous, Reaches, Attended, Decoded;
    var seqs := store.cache.seqs;
    ShowsKeys(store.kPages[..], seqs, sh.pageTokens, sh.KvRow(), store.ty, store.view, true);
    RowPositive(sh);
    PagedIsPrivate(store.kPages[..], seqs, sh, store.ty, store.view, true, id, ownK);
    PagedIsPrivate(store.vPages[..], seqs, sh, store.ty, store.view, false, id, ownV);
    LayoutIrrelevant(exp, sh, seqs[id].pages, Decoded(store.ty, store.kPages[..]), Decoded(store.ty, store.vPages[..]),
                     sh.(pageTokens := 1), Straight(sh.nKv), ownK, ownV, q, sinks, h, d);
  }

  lemma RowPositive(sh: Shape)
    requires sh.Accepted()
    ensures sh.KvRow() > 0
  {
    FlatBound(sh.nKvHeads, sh.headDim, 0, 0);
  }
}
