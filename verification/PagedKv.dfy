/** The page allocator: a free stack and one page table per live sequence, updated in place. */
module PagedKv {
  import opened Wrappers
  import opened FiniteSets
  import opened Sums
  import opened KvPages

  datatype KvError =
    | Exhausted(requested: nat, free: nat)
    | UnknownSequence(id: nat)
    | ContextLimit(id: nat, tokens: nat, limit: nat)
    | InvalidGeometry(noPages: bool)

  datatype KvUsage = KvUsage(totalPages: nat, usedPages: nat, sequences: nat, slackTokens: nat)

  // ---- counting ----------------------------------------------------------------------------------

  ghost predicate HeldIn(seqs: map<nat, SeqPages>, ids: set<nat>, p: nat) {
    exists id :: id in ids && id in seqs && p in seqs[id].pages
  }

  /** The pages in the tables of some of the sequences. */
  ghost function HeldBy(seqs: map<nat, SeqPages>, ids: set<nat>, total: nat): set<nat> {
    set p | 0 <= p < total && HeldIn(seqs, ids, p)
  }

  /** Token slots allocated to those sequences and not yet written. */
  ghost function Unwritten(seqs: map<nat, SeqPages>, pageTokens: nat, ids: set<nat>): set<(nat, nat)> {
    set id, t | id in ids && id in seqs && seqs[id].tokens <= t < Capacity(seqs[id], pageTokens) :: (id, t)
  }

  function Capacity(s: SeqPages, pageTokens: nat): nat { |s.pages| * pageTokens }

  ghost function Slots(id: nat, lo: nat, hi: nat): (r: set<(nat, nat)>)
    requires lo <= hi
    ensures forall t :: t in r <==> t.0 == id && lo <= t.1 < hi
    ensures |r| == hi - lo
    decreases hi
  {
    if lo == hi then {} else Slots(id, lo, hi - 1) + {(id, hi - 1)}
  }

  lemma HeldInOneMore(free: seq<nat>, seqs: map<nat, SeqPages>, ids: set<nat>, id: nat, p: nat)
    requires Apart(free, seqs) && id in seqs && id !in ids && ids <= seqs.Keys
    ensures HeldIn(seqs, ids + {id}, p) <==> HeldIn(seqs, ids, p) || p in seqs[id].pages
    ensures p in seqs[id].pages ==> !HeldIn(seqs, ids, p)
  {
    if i :| i in ids && i in seqs && p in seqs[i].pages {
      assert i in ids + {id};
      assert Disjoint(seqs[id].pages, seqs[i].pages);
    }
    if p in seqs[id].pages {
      assert id in ids + {id};
    }
  }

  lemma HeldOneMore(free: seq<nat>, seqs: map<nat, SeqPages>, total: nat, ids: set<nat>, id: nat)
    requires Apart(free, seqs) && id in seqs && id !in ids && ids <= seqs.Keys
    requires NoDuplicates(seqs[id].pages) && Within(seqs[id].pages, total)
    ensures |HeldBy(seqs, ids + {id}, total)| == |HeldBy(seqs, ids, total)| + |seqs[id].pages|
  {
    var pages := seqs[id].pages;
    var mine := SetOf(pages);
    SetOfSize(pages);
    hide SetOf, NoDuplicates, HeldIn, Apart;
    forall p: nat
      ensures HeldIn(seqs, ids + {id}, p) <==> HeldIn(seqs, ids, p) || p in pages
      ensures p in pages ==> !HeldIn(seqs, ids, p)
    {
      HeldInOneMore(free, seqs, ids, id, p);
    }
    assert HeldBy(seqs, ids + {id}, total) == HeldBy(seqs, ids, total) + mine;
  }

  lemma UnwrittenOneMore(seqs: map<nat, SeqPages>, pageTokens: nat, ids: set<nat>, id: nat)
    requires pageTokens > 0 && id in seqs && id !in ids
    requires |seqs[id].pages| == CeilDiv(seqs[id].tokens, pageTokens)
    ensures seqs[id].tokens <= Capacity(seqs[id], pageTokens) <= seqs[id].tokens + pageTokens - 1
    ensures |Unwritten(seqs, pageTokens, ids + {id})|
      == |Unwritten(seqs, pageTokens, ids)| + Capacity(seqs[id], pageTokens) - seqs[id].tokens
  {
    var s := seqs[id];
    SlackOf(s, pageTokens);
    hide Capacity, Slots;
    var slots := Slots(id, s.tokens, Capacity(s, pageTokens));
    var before, after := Unwritten(seqs, pageTokens, ids), Unwritten(seqs, pageTokens, ids + {id});
    forall x ensures x in after <==> x in before || x in slots {
    }
    assert after == before + slots;
    assert before !! slots;
  }

  lemma CountOneMore(free: seq<nat>, seqs: map<nat, SeqPages>, pageTokens: nat, limit: nat, total: nat,
                     ids: set<nat>, id: nat)
    requires Sound(free, seqs, pageTokens, limit, total) && id in seqs && id !in ids && ids <= seqs.Keys
    ensures |HeldBy(seqs, ids + {id}, total)| == |HeldBy(seqs, ids, total)| + |seqs[id].pages|
    ensures seqs[id].tokens <= Capacity(seqs[id], pageTokens) <= seqs[id].tokens + pageTokens - 1
    ensures |Unwritten(seqs, pageTokens, ids + {id})|
      == |Unwritten(seqs, pageTokens, ids)| + Capacity(seqs[id], pageTokens) - seqs[id].tokens
  {
    hide HeldBy, Unwritten, Capacity, Apart;
    HeldOneMore(free, seqs, total, ids, id);
    UnwrittenOneMore(seqs, pageTokens, ids, id);
  }

  /** A sequence wastes less than one page. */
  lemma SlackOf(s: SeqPages, pageTokens: nat)
    requires pageTokens > 0 && |s.pages| == CeilDiv(s.tokens, pageTokens)
    ensures s.tokens <= Capacity(s, pageTokens) <= s.tokens + pageTokens - 1
  {
    var q := |s.pages|;
    assert (q - 1) * pageTokens == q * pageTokens - pageTokens;
  }

  lemma HeldNotFree(free: seq<nat>, seqs: map<nat, SeqPages>, p: nat)
    requires Apart(free, seqs)
    ensures HeldIn(seqs, seqs.Keys, p) <==> Held(seqs, p)
    ensures p in free ==> !Held(seqs, p)
  {
  }

  /** Free pages, live tables and lost pages divide the pool between them. */
  lemma Conservation(free: seq<nat>, seqs: map<nat, SeqPages>, total: nat)
    requires NoDuplicates(free) && Within(free, total) && Apart(free, seqs)
    ensures |free| + |HeldBy(seqs, seqs.Keys, total)| + |Lost(free, seqs, total)| == total
  {
    hide SetOf, NoDuplicates, Below, HeldIn, Held, Apart;
    var held, lost, open := HeldBy(seqs, seqs.Keys, total), Lost(free, seqs, total), SetOf(free);
    SetOfSize(free);
    forall p: nat
      ensures HeldIn(seqs, seqs.Keys, p) <==> Held(seqs, p)
      ensures p in free ==> !Held(seqs, p)
    {
      HeldNotFree(free, seqs, p);
    }
    ThreeParts(open, held, lost, Below(total));
  }

  lemma ThreeParts(a: set<nat>, b: set<nat>, c: set<nat>, whole: set<nat>)
    requires a !! b && (a + b) !! c && (forall p :: p in a + b + c <==> p in whole)
    ensures |a| + |b| + |c| == |whole|
  {
    assert a + b + c == whole;
  }

  lemma SoundMeansApart(free: seq<nat>, seqs: map<nat, SeqPages>, pageTokens: nat, limit: nat, total: nat)
    requires Sound(free, seqs, pageTokens, limit, total)
    ensures NoDuplicates(free) && Within(free, total) && Apart(free, seqs)
  {
  }

  lemma OverwriteLoses(free: seq<nat>, seqs: map<nat, SeqPages>, total: nat, id: nat)
    requires id in seqs
    ensures Lost(free, seqs, total) + SetOf(seqs[id].pages) == Lost(free, seqs, total) <==> seqs[id].pages == []
  {
    if seqs[id].pages != [] {
      var p := seqs[id].pages[0];
      assert Held(seqs, p) && p !in Lost(free, seqs, total);
      assert p in SetOf(seqs[id].pages);
    }
  }

  lemma NothingCounted(seqs: map<nat, SeqPages>, pageTokens: nat, total: nat)
    ensures HeldBy(seqs, {}, total) == {} && Unwritten(seqs, pageTokens, {}) == {}
  {
  }

  class PagedKvCache {
    const totalPages: nat
    const pageTokens: nat
    const contextLimit: nat
    var free: seq<nat>
    var seqs: map<nat, SeqPages>

    ghost predicate Valid()
      reads this
    {
      totalPages > 0 && Sound(free, seqs, pageTokens, contextLimit, totalPages)
    }

    ghost function LostPages(): set<nat>
      reads this
    {
      Lost(free, seqs, totalPages)
    }

    /** A sequence of that many tokens fits the context and the free pages. */
    ghost predicate Admits(tokens: nat)
      requires pageTokens > 0
      reads this
    {
      tokens <= contextLimit && CeilDiv(tokens, pageTokens) <= |free|
    }

    /** A live sequence below the limit whose next token has a place: in its last page or in a free one. */
    ghost predicate CanAppend(id: nat)
      requires pageTokens > 0
      reads this
    {
      && id in seqs && seqs[id].tokens < contextLimit
      && (seqs[id].tokens % pageTokens == 0 ==> free != [])
    }

    constructor Pool(totalPages: nat, pageTokens: nat, contextLimit: nat)
      requires totalPages > 0 && pageTokens > 0
      ensures Valid() && LostPages() == {} && seqs == map[]
      ensures this.totalPages == totalPages && this.pageTokens == pageTokens && this.contextLimit == contextLimit
      ensures |free| == totalPages && forall k :: 0 <= k < totalPages ==> free[k] == totalPages - 1 - k
    {
      this.totalPages := totalPages;
      this.pageTokens := pageTokens;
      this.contextLimit := contextLimit;
      free := seq(totalPages, k requires 0 <= k < totalPages => totalPages - 1 - k);
      seqs := map[];
      new;
      forall p | 0 <= p < totalPages ensures p in free {
        assert free[totalPages - 1 - p] == p;
      }
    }

    static method New(totalPages: nat, pageTokens: nat, contextLimit: nat) returns (r: Result<PagedKvCache, KvError>)
      ensures r.Ok? <==> totalPages > 0 && pageTokens > 0
      ensures r.Err? ==> r.error == InvalidGeometry(totalPages == 0)
      ensures r.Ok? ==> fresh(r.value) && r.value.Valid() && r.value.LostPages() == {} && r.value.seqs == map[]
      ensures r.Ok? ==> r.value.totalPages == totalPages && r.value.pageTokens == pageTokens
      ensures r.Ok? ==> r.value.contextLimit == contextLimit && |r.value.free| == totalPages
      ensures r.Ok? ==> forall k :: 0 <= k < totalPages ==> r.value.free[k] == totalPages - 1 - k
    {
      if totalPages == 0 {
        return Err(InvalidGeometry(true));
      }
      if pageTokens == 0 {
        return Err(InvalidGeometry(false));
      }
      var c := new PagedKvCache.Pool(totalPages, pageTokens, contextLimit);
      return Ok(c);
    }

    /**
     Begins a sequence. The new table takes pages off the back of the free list. Pages are lost exactly
     when the id was live and its old table held some: the old entry is overwritten, not returned.
     */
    method Begin(id: nat, promptTokens: nat) returns (r: Result<SeqPages, KvError>)
      requires Valid()
      modifies `free, `seqs
      ensures Valid()
      ensures r.Ok? <==> old(Admits(promptTokens))
      ensures r.Err? ==> free == old(free) && seqs == old(seqs)
      ensures r.Err? && promptTokens > contextLimit ==> r.error == ContextLimit(id, promptTokens, contextLimit)
      ensures r.Err? && promptTokens <= contextLimit ==>
        r.error == Exhausted(CeilDiv(promptTokens, pageTokens), |free|)
      ensures r.Ok? ==> seqs == old(seqs)[id := r.value] && r.value.tokens == promptTokens
      ensures r.Ok? ==> old(free) == free + Reversed(r.value.pages)
      ensures r.Ok? && id !in old(seqs) ==> LostPages() == old(LostPages())
      ensures r.Ok? && id in old(seqs) ==> LostPages() == old(LostPages()) + SetOf(old(seqs)[id].pages)
      ensures r.Ok? ==> (LostPages() == old(LostPages()) <==> id !in old(seqs) || old(seqs)[id].pages == [])
    {
      if promptTokens > contextLimit {
        return Err(ContextLimit(id, promptTokens, contextLimit));
      }
      var needed := CeilDiv(promptTokens, pageTokens);
      if needed > |free| {
        return Err(Exhausted(needed, |free|));
      }
      var pages: seq<nat> := [];
      while |pages| < needed
        invariant |pages| <= needed <= |pages| + |free|
        invariant old(free) == free + Reversed(pages)
        invariant seqs == old(seqs)
      {
        hide *;
        var page := free[|free| - 1];
        ReversedAppend(pages, page);
        assert free == free[..|free| - 1] + [page];
        free := free[..|free| - 1];
        pages := pages + [page];
        assert old(free) == free + Reversed(pages);
      }
      hide Sound, Lost, Reversed, CeilDiv, SetOf;
      TakeForTable(old(free), seqs, pageTokens, contextLimit, totalPages, id, promptTokens, pages, free);
      if id in seqs {
        OverwriteLoses(old(free), seqs, totalPages, id);
      }
      seqs := seqs[id := SeqPages(pages, promptTokens)];
      return Ok(seqs[id]);
    }

    /** Appends one token and says where it goes; a page is opened only when the last one is full. */
    method Append(id: nat) returns (r: Result<(nat, nat), KvError>)
      requires Valid()
      modifies `free, `seqs
      ensures Valid() && LostPages() == old(LostPages())
      ensures r.Err? ==> free == old(free) && seqs == old(seqs)
      ensures r.Ok? <==> old(CanAppend(id))
      ensures r.Err? && id !in seqs ==> r.error == UnknownSequence(id)
      ensures r.Err? && id in seqs && seqs[id].tokens >= contextLimit ==>
        r.error == ContextLimit(id, seqs[id].tokens, contextLimit)
      ensures r.Err? && id in seqs && seqs[id].tokens < contextLimit ==> r.error == Exhausted(1, 0)
      ensures r.Ok? ==> id in old(seqs) && id in seqs
      ensures r.Ok? ==> seqs == old(seqs)[id := seqs[id]] && seqs[id].tokens == old(seqs)[id].tokens + 1
      ensures r.Ok? && old(seqs)[id].tokens % pageTokens != 0 ==>
        free == old(free) && seqs[id].pages == old(seqs)[id].pages
      ensures r.Ok? && old(seqs)[id].tokens % pageTokens == 0 ==>
        exists page :: old(free) == free + [page] && seqs[id].pages == old(seqs)[id].pages + [page]
      ensures r.Ok? ==> var t := old(seqs)[id].tokens;
        && PageNo(t, pageTokens) == |seqs[id].pages| - 1
        && r.value == (seqs[id].pages[PageNo(t, pageTokens)], SlotNo(t, pageTokens))
    {
      if id !in seqs {
        return Err(UnknownSequence(id));
      }
      var s := seqs[id];
      if s.tokens >= contextLimit {
        return Err(ContextLimit(id, s.tokens, contextLimit));
      }
      hide Sound, Lost, CeilDiv;
      TableFacts(free, seqs, pageTokens, contextLimit, totalPages, id);
      PageIsNeeded(s, pageTokens);
      var indexInPage := s.tokens % pageTokens;
      var needNewPage := indexInPage == 0 && s.tokens >= |s.pages| * pageTokens;
      ghost var table := s;
      if needNewPage {
        if free == [] {
          return Err(Exhausted(1, 0));
        }
        AppendPage(free, seqs, pageTokens, contextLimit, totalPages, id);
        var page := free[|free| - 1];
        free := free[..|free| - 1];
        assert old(free) == free + [page];
        s := s.(pages := s.pages + [page]);
      } else {
        AppendInPlace(free, seqs, pageTokens, contextLimit, totalPages, id);
      }
      var page := s.pages[s.tokens / pageTokens];
      var slot := s.tokens % pageTokens;
      seqs := seqs[id := s.(tokens := s.tokens + 1)];
      return Ok((page, slot));
    }

    /** Releases a sequence's pages, the most recently allocated to be reused first. */
    method End(id: nat) returns (r: Result<nat, KvError>)
      requires Valid()
      modifies `free, `seqs
      ensures Valid() && LostPages() == old(LostPages())
      ensures r.Err? <==> id !in old(seqs)
      ensures r.Err? ==> r.error == UnknownSequence(id) && free == old(free) && seqs == old(seqs)
      ensures r.Ok? ==> seqs == old(seqs) - {id} && r.value == |old(seqs)[id].pages|
      ensures r.Ok? ==> free == old(free) + Reversed(old(seqs)[id].pages)
    {
      if id !in seqs {
        return Err(UnknownSequence(id));
      }
      var s := seqs[id];
      ReturnTable(free, seqs, pageTokens, contextLimit, totalPages, id);
      seqs := seqs - {id};
      var k := |s.pages|;
      while k > 0
        invariant 0 <= k <= |s.pages|
        invariant free == old(free) + Reversed(s.pages[k..])
        invariant seqs == old(seqs) - {id}
      {
        hide *;
        k := k - 1;
        ReversedFront(s.pages, k);
        free := free + [s.pages[k]];
        assert free == old(free) + (Reversed(s.pages[k + 1..]) + [s.pages[k]]);
      }
      assert s.pages[0..] == s.pages;
      return Ok(|s.pages|);
    }

    method PagesOf(id: nat) returns (r: Result<SeqPages, KvError>)
      ensures r == if id in seqs then Ok(seqs[id]) else Err(UnknownSequence(id))
    {
      if id !in seqs {
        return Err(UnknownSequence(id));
      }
      return Ok(seqs[id]);
    }

    /** True exactly when `Begin` with that many tokens, under any id, would succeed now. */
    method CanAdmit(tokens: nat) returns (ok: bool)
      requires Valid()
      ensures ok <==> Admits(tokens)
    {
      ok := tokens <= contextLimit && CeilDiv(tokens, pageTokens) <= |free|;
    }

    /** How full the pool is, whatever order the tables are visited in. */
    method Usage() returns (u: KvUsage)
      requires Valid()
      ensures u.totalPages == totalPages && u.sequences == |seqs|
      ensures u.usedPages == |HeldBy(seqs, seqs.Keys, totalPages)|
      ensures u.usedPages + |free| + |LostPages()| == totalPages
      ensures u.slackTokens == |Unwritten(seqs, pageTokens, seqs.Keys)|
      ensures u.slackTokens <= |seqs| * (pageTokens - 1)
    {
      hide Sound, HeldBy, Unwritten, Lost, Capacity;
      var used, slack := 0, 0;
      var rest := seqs.Keys;
      ghost var done: set<nat> := {};
      NothingCounted(seqs, pageTokens, totalPages);
      while rest != {}
        invariant done !! rest && done + rest == seqs.Keys
        invariant used == |HeldBy(seqs, done, totalPages)|
        invariant slack == |Unwritten(seqs, pageTokens, done)| <= |done| * (pageTokens - 1)
        decreases |rest|
      {
        hide *;
        var id :| id in rest;
        CountOneMore(free, seqs, pageTokens, contextLimit, totalPages, done, id);
        var capacity := Capacity(seqs[id], pageTokens);
        used := used + |seqs[id].pages|;
        slack := slack + (if capacity >= seqs[id].tokens then capacity - seqs[id].tokens else 0);
        OneMoreProduct(|done|, pageTokens);
        done, rest := done + {id}, rest - {id};
      }
      assert done == seqs.Keys;
      SoundMeansApart(free, seqs, pageTokens, contextLimit, totalPages);
      Conservation(free, seqs, totalPages);
      return KvUsage(totalPages, used, |seqs|, slack);
    }
  }

  /** The next token of a table needs a page exactly when it would be the first of one, and lands in the last page. */
  lemma PageIsNeeded(s: SeqPages, pageTokens: nat)
    requires pageTokens > 0 && |s.pages| == CeilDiv(s.tokens, pageTokens)
    ensures s.tokens % pageTokens == 0 ==> s.tokens >= |s.pages| * pageTokens
    ensures s.tokens / pageTokens == |s.pages| - if s.tokens % pageTokens == 0 then 0 else 1
  {
    hide CeilDiv;
    NextToken(s.tokens, pageTokens);
  }

  /** Two begins under one id: the first page is out of reach for good. */
  method BeginTwice() returns (c: PagedKvCache, first: Result<SeqPages, KvError>, second: Result<SeqPages, KvError>)
    ensures fresh(c) && c.Valid() && first.Ok? && second.Ok?
    ensures |first.value.pages| == 1 && c.LostPages() == {first.value.pages[0]}
  {
    c := new PagedKvCache.Pool(2, 1, 2);
    assert CeilDiv(1, 1) == 1;
    first := c.Begin(0, 1);
    assert c.Admits(1);
    second := c.Begin(0, 1);
  }

  lemma OneMoreProduct(n: nat, p: nat)
    requires p > 0
    ensures (n + 1) * (p - 1) == n * (p - 1) + p - 1
  {
  }
}
