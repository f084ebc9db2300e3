/** The paged store: the allocator and the page buffers together, with the private arrays they stand for. */
module KvStoring {
  import opened Wrappers
  import opened FiniteSets
  import opened Sums
  import opened KvPages
  import opened PagedKv
  import opened KvMemory
  import opened KvBooks

  class KvStore {
    const cache: PagedKvCache
    const kPages: array<nat>
    const vPages: array<nat>
    const nKvHeads: nat
    const headDim: nat
    const ty: KvType
    ghost var view: Private

    /** A store over an empty pool and two page buffers of its size, whatever they hold. */
    constructor Over(cache: PagedKvCache, kPages: array<nat>, vPages: array<nat>, nKvHeads: nat, headDim: nat, ty: KvType)
      requires cache.Valid() && cache.seqs == map[] && kPages != vPages && nKvHeads > 0 && headDim > 0
      requires kPages.Length == cache.totalPages * cache.pageTokens * (nKvHeads * headDim) == vPages.Length
      ensures Valid() && view == map[]
      ensures this.cache == cache && this.kPages == kPages && this.vPages == vPages
      ensures this.nKvHeads == nKvHeads && this.headDim == headDim && this.ty == ty
    {
      this.cache, this.kPages, this.vPages := cache, kPages, vPages;
      this.nKvHeads, this.headDim, this.ty := nKvHeads, headDim, ty;
      view := map[];
    }

    ghost predicate Valid()
      reads this, cache, kPages, vPages
    {
      && cache.Valid() && kPages != vPages && nKvHeads > 0 && headDim > 0
      && kPages.Length == cache.totalPages * cache.pageTokens * (nKvHeads * headDim) == vPages.Length
      && Shows(kPages[..], cache.seqs, cache.pageTokens, nKvHeads * headDim, ty, view, true)
      && Shows(vPages[..], cache.seqs, cache.pageTokens, nKvHeads * headDim, ty, view, false)
    }

    ghost function Limits(): Limits
      reads cache
    {
      KvBooks.Limits(cache.totalPages, cache.pageTokens, cache.contextLimit)
    }

    /** The private arrays and the number of lost pages. */
    ghost function Books(): Books
      reads this, cache
    {
      KvBooks.Books(view, |cache.LostPages()|)
    }

    /** Tables and arrays have the same lengths, and the free list is what the arrays and the losses leave over. */
    lemma BooksBalance()
      requires Valid()
      ensures Limits().pageTokens > 0 && view.Keys == cache.seqs.Keys
      ensures forall id :: id in view ==> |view[id]| == cache.seqs[id].tokens
      ensures |cache.free| == Spare(Limits(), Books())
    {
      hide Shows, Sound, Lost, Spare;
      ShowsKeys(kPages[..], cache.seqs, cache.pageTokens, nKvHeads * headDim, ty, view, true);
      FreeIsSpare(cache.free, cache.seqs, Limits(), view);
    }

    ghost predicate Fits(op: KvOp) {
      (op.Fill? || op.Append?) ==>
        && |op.token.k| == nKvHeads * headDim == |op.token.v| && Floats(op.token.k) && Floats(op.token.v)
    }

    method BeginSequence(id: nat, tokens: nat) returns (r: Result<SeqPages, KvError>)
      requires Valid()
      modifies this, cache
      ensures Valid()
      ensures old(Limits()).pageTokens > 0 && Limits() == old(Limits())
      ensures r.Ok? <==> Accepts(Limits(), old(Books()), Begin(id, tokens))
      ensures Books() == StepBooks(Limits(), old(Books()), Begin(id, tokens))
    {
      hide Shows, Sound, Lost, Blank, CeilDiv, Spare, Accepts, StepBooks, SetOf;
      ghost var seqs0, free0, books0 := cache.seqs, cache.free, Books();
      BooksBalance();
      r := cache.Begin(id, tokens);
      if r.Ok? {
        if id in seqs0 {
          LossIsTable(free0, seqs0, cache.pageTokens, cache.contextLimit, cache.totalPages, id);
        }
        BegunShows(kPages[..], seqs0, cache.pageTokens, nKvHeads * headDim, ty, view, true, id, r.value);
        BegunShows(vPages[..], seqs0, cache.pageTokens, nKvHeads * headDim, ty, view, false, id, r.value);
        view := view[id := Blank(tokens)];
      }
      BeginStep(Limits(), books0, id, tokens, r.Ok?, Books());
    }

    /** Appends one token: the allocator names a page and a slot, the kernel writes them. */
    method AppendToken(id: nat, token: Token) returns (r: Result<(nat, nat), KvError>)
      requires Valid() && Fits(Append(id, token))
      modifies this, cache, kPages, vPages
      ensures Valid()
      ensures old(Limits()).pageTokens > 0 && Limits() == old(Limits())
      ensures r.Ok? <==> Accepts(Limits(), old(Books()), Append(id, token))
      ensures Books() == StepBooks(Limits(), old(Books()), Append(id, token))
    {
      hide Shows, Sound, Lost, Wrote, Write, Floats, CeilDiv, Spare;
      ghost var seqs0 := cache.seqs;
      ghost var n := nKvHeads * headDim;
      BooksBalance();
      r := cache.Append(id);
      if r.Err? {
        return;
      }
      var page, slot := r.value.0, r.value.1;
      ghost var k0, v0, s, t := kPages[..], vPages[..], cache.seqs[id], seqs0[id].tokens;
      GrownShows(k0, seqs0, cache.pageTokens, n, ty, view, true, id, s);
      GrownShows(v0, seqs0, cache.pageTokens, n, ty, view, false, id, s);
      ghost var grown: Private := view[id := view[id] + [None]];
      TableFacts(cache.free, cache.seqs, cache.pageTokens, cache.contextLimit, cache.totalPages, id);
      assert page in s.pages;
      var rc := KvAppend(kPages, vPages, token.k, token.v, page, slot, nKvHeads, headDim, cache.pageTokens,
                         KvTypeId(ty), cache.totalPages);
      WriteShows(kPages[..], k0, cache.free, cache.seqs, cache.pageTokens, cache.contextLimit, cache.totalPages,
                 n, ty, grown, true, id, t, token);
      WriteShows(vPages[..], v0, cache.free, cache.seqs, cache.pageTokens, cache.contextLimit, cache.totalPages,
                 n, ty, grown, false, id, t, token);
      WriteLast(view, id, token);
      view := view[id := view[id] + [Some(token)]];
    }

    method EndSequence(id: nat) returns (r: Result<nat, KvError>)
      requires Valid()
      modifies this, cache
      ensures Valid()
      ensures old(Limits()).pageTokens > 0 && Limits() == old(Limits())
      ensures r.Ok? <==> Accepts(Limits(), old(Books()), End(id))
      ensures Books() == StepBooks(Limits(), old(Books()), End(id))
    {
      hide Shows, Sound, Lost, Spare;
      ghost var seqs0 := cache.seqs;
      BooksBalance();
      r := cache.End(id);
      if r.Ok? {
        EndedShows(kPages[..], seqs0, cache.pageTokens, nKvHeads * headDim, ty, view, true, id);
        EndedShows(vPages[..], seqs0, cache.pageTokens, nKvHeads * headDim, ty, view, false, id);
        view := view - {id};
      }
    }

    /** Writes a token of a live sequence through its page table, as prefill does. */
    method FillToken(id: nat, t: nat, token: Token) returns (ok: bool)
      requires Valid() && Fits(Fill(id, t, token))
      modifies this, kPages, vPages
      ensures Valid()
      ensures old(Limits()).pageTokens > 0 && Limits() == old(Limits())
      ensures ok <==> Accepts(Limits(), old(Books()), Fill(id, t, token))
      ensures Books() == StepBooks(Limits(), old(Books()), Fill(id, t, token))
    {
      hide Shows, Sound, Wrote, Write, Floats, Lost, CeilDiv, Spare;
      BooksBalance();
      var r := cache.PagesOf(id);
      if r.Err? || t >= r.value.tokens {
        return false;
      }
      ghost var n := nKvHeads * headDim;
      ghost var k0, v0 := kPages[..], vPages[..];
      TableFacts(cache.free, cache.seqs, cache.pageTokens, cache.contextLimit, cache.totalPages, id);
      TokenPage(t, r.value.tokens, cache.pageTokens);
      var page, slot := r.value.pages[PageNo(t, cache.pageTokens)], SlotNo(t, cache.pageTokens);
      assert page in r.value.pages;
      var rc := KvAppend(kPages, vPages, token.k, token.v, page, slot, nKvHeads, headDim, cache.pageTokens,
                         KvTypeId(ty), cache.totalPages);
      WriteShows(kPages[..], k0, cache.free, cache.seqs, cache.pageTokens, cache.contextLimit, cache.totalPages,
                 n, ty, view, true, id, t, token);
      WriteShows(vPages[..], v0, cache.free, cache.seqs, cache.pageTokens, cache.contextLimit, cache.totalPages,
                 n, ty, view, false, id, t, token);
      view := Write(view, id, t, token);
      return true;
    }

    /** One operation of a run. */
    method Apply(op: KvOp) returns (ok: bool)
      requires Valid() && Fits(op)
      modifies this, cache, kPages, vPages
      ensures Valid()
      ensures old(Limits()).pageTokens > 0 && Limits() == old(Limits())
      ensures ok <==> Accepts(Limits(), old(Books()), op)
      ensures Books() == StepBooks(Limits(), old(Books()), op)
    {
      hide Valid, Accepts, StepBooks, Books, Fits;
      match op
      case Begin(id, tokens) =>
        var r := BeginSequence(id, tokens);
        ok := r.Ok?;
      case Fill(id, t, token) =>
        ok := FillToken(id, t, token);
      case Append(id, token) =>
        var r := AppendToken(id, token);
        ok := r.Ok?;
      case End(id) =>
        var r := EndSequence(id);
        ok := r.Ok?;
    }

    /**
     Any run of operations over any number of sequences, however they interleave. Each is accepted exactly
     when the arrays and losses so far say so; afterwards both page buffers show, through the page tables,
     exactly what private arrays would hold, and as many pages are lost as the books say.
     */
    method Execute(ops: seq<KvOp>) returns (accepted: seq<bool>)
      requires Valid() && forall op :: op in ops ==> Fits(op)
      modifies this, cache, kPages, vPages
      ensures Valid() && old(Limits()).pageTokens > 0 && Limits() == old(Limits())
      ensures |accepted| == |ops| && Judged(Limits(), old(Books()), ops, accepted, |ops|)
      ensures Books() == RunBooks(Limits(), old(Books()), ops)
    {
      BooksBalance();
      hide *;
      ghost var lim, books := Limits(), Books();
      accepted := [];
      NoneJudged(lim, books, ops);
      var i := 0;
      while i < |ops|
        invariant i <= |ops| && |accepted| == i && Valid() && Limits() == lim
        invariant Judged(lim, books, ops, accepted, i)
        invariant Books() == RunBooks(lim, books, ops[..i])
      {
        var ok := Apply(ops[i]);
        JudgedNext(lim, books, ops, accepted, i, ok, Books());
        accepted := accepted + [ok];
        i := i + 1;
      }
      assert ops[..i] == ops;
    }
  }
}
