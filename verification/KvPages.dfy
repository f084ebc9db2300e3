/** Page tables over a shared pool: what a sound division of the pages is, and what each operation does to it. */
module KvPages {
  import opened FiniteSets
  import opened Sums
  import Tasks

  /** One sequence's page table: token t lives in pages[t / page_tokens]. */
  datatype SeqPages = SeqPages(pages: seq<nat>, tokens: nat)

  ghost predicate Disjoint(a: seq<nat>, b: seq<nat>) {
    forall p :: p in a ==> p !in b
  }

  ghost predicate Within(s: seq<nat>, total: nat) {
    forall p :: p in s ==> p < total
  }

  /** No page is in two places. */
  ghost predicate Apart(free: seq<nat>, seqs: map<nat, SeqPages>) {
    && (forall id :: id in seqs ==> Disjoint(free, seqs[id].pages))
    && (forall id1, id2 :: id1 in seqs && id2 in seqs && id1 != id2 ==> Disjoint(seqs[id1].pages, seqs[id2].pages))
  }

  /** No page is in two places, and every sequence has just the pages its tokens need. */
  ghost predicate Sound(free: seq<nat>, seqs: map<nat, SeqPages>, pageTokens: nat, limit: nat, total: nat) {
    && pageTokens > 0
    && NoDuplicates(free) && Within(free, total)
    && (forall id :: id in seqs ==> SoundTable(seqs[id], pageTokens, limit, total))
    && Apart(free, seqs)
  }

  ghost predicate SoundTable(s: SeqPages, pageTokens: nat, limit: nat, total: nat)
    requires pageTokens > 0
  {
    && NoDuplicates(s.pages) && Within(s.pages, total)
    && |s.pages| == CeilDiv(s.tokens, pageTokens) && s.tokens <= limit
  }

  ghost predicate Held(seqs: map<nat, SeqPages>, p: nat) {
    exists id :: id in seqs && p in seqs[id].pages
  }

  /** The pages of the pool that nobody can reach any more. */
  ghost function Lost(free: seq<nat>, seqs: map<nat, SeqPages>, total: nat): set<nat> {
    set p | 0 <= p < total && p !in free && !Held(seqs, p)
  }

  function Reversed(s: seq<nat>): (r: seq<nat>)
    ensures |r| == |s| && forall k :: 0 <= k < |s| ==> r[k] == s[|s| - 1 - k]
  {
    if s == [] then [] else Reversed(s[1..]) + [s[0]]
  }

  lemma {:induction false} ReversedAppend(s: seq<nat>, p: nat)
    ensures Reversed(s + [p]) == [p] + Reversed(s)
  {
    if s != [] {
      assert (s + [p])[1..] == s[1..] + [p];
      ReversedAppend(s[1..], p);
    }
  }

  lemma ReversedFront(s: seq<nat>, k: nat)
    requires k < |s|
    ensures Reversed(s[k..]) == Reversed(s[k + 1..]) + [s[k]]
  {
    assert s[k..][1..] == s[k + 1..];
  }

  // ---- arithmetic of pages -----------------------------------------------------------------------

  /** One more token needs one more page exactly when the last page is full, and then lands in it. */
  lemma NextToken(tokens: nat, pageTokens: nat)
    requires pageTokens > 0
    ensures CeilDiv(tokens + 1, pageTokens) == CeilDiv(tokens, pageTokens) + if tokens % pageTokens == 0 then 1 else 0
    ensures tokens / pageTokens == CeilDiv(tokens + 1, pageTokens) - 1
    ensures tokens % pageTokens == 0 ==> CeilDiv(tokens, pageTokens) * pageTokens == tokens
  {
    var q, r := tokens / pageTokens, tokens % pageTokens;
    assert tokens == pageTokens * q + r;
    CeilIs(tokens + 1, pageTokens, q + 1);
    CeilIs(tokens, pageTokens, if r == 0 then q else q + 1);
    assert q * pageTokens == pageTokens * q;
  }

  lemma CeilIs(a: nat, b: nat, q: nat)
    requires b > 0 && b * q >= a && (a == 0 ==> q == 0) && (q > 0 ==> b * (q - 1) < a)
    ensures CeilDiv(a, b) == q
  {
    var c := CeilDiv(a, b);
    Tasks.MulLe(b, c, q - 1);
    if c > q {
      Tasks.MulLe(b, q, c - 1);
    }
  }

  /** Where a page table puts token t: which of its pages, and which slot of that. */
  function PageNo(t: nat, pageTokens: nat): nat
    requires pageTokens > 0
  {
    t / pageTokens
  }

  function SlotNo(t: nat, pageTokens: nat): (slot: nat)
    requires pageTokens > 0
    ensures slot < pageTokens
  {
    t % pageTokens
  }

  /** A written token is in one of its sequence's pages. */
  lemma TokenPage(t: nat, tokens: nat, pageTokens: nat)
    requires pageTokens > 0 && t < tokens
    ensures PageNo(t, pageTokens) < CeilDiv(tokens, pageTokens)
  {
    var q := t / pageTokens;
    assert t == pageTokens * q + t % pageTokens;
    Tasks.MulLe(pageTokens, CeilDiv(tokens, pageTokens), q);
  }

  lemma TableFacts(free: seq<nat>, seqs: map<nat, SeqPages>, pageTokens: nat, limit: nat, total: nat, id: nat)
    requires Sound(free, seqs, pageTokens, limit, total) && id in seqs
    ensures pageTokens > 0 && NoDuplicates(seqs[id].pages) && Within(seqs[id].pages, total)
    ensures |seqs[id].pages| == CeilDiv(seqs[id].tokens, pageTokens)
  {
    hide CeilDiv;
    assert SoundTable(seqs[id], pageTokens, limit, total);
  }

  // ---- what each operation leaves ----------------------------------------------------------------

  /** Pages popped off the back of the free list. */
  lemma SplitFree(free: seq<nat>, free': seq<nat>, pages: seq<nat>)
    requires NoDuplicates(free) && free == free' + Reversed(pages)
    ensures NoDuplicates(free') && NoDuplicates(pages) && Disjoint(free', pages)
    ensures forall p :: p in free <==> p in free' || p in pages
  {
    var n := |free'|;
    forall k | 0 <= k < |pages| ensures pages[k] == free[|free| - 1 - k] {
      assert Reversed(pages)[|pages| - 1 - k] == pages[k];
    }
    forall k | 0 <= k < n ensures free'[k] == free[k] {
    }
    forall k | n <= k < |free| ensures free[k] == pages[|free| - 1 - k] {
    }
  }

  lemma ApartTake(free: seq<nat>, seqs: map<nat, SeqPages>, id: nat, s: SeqPages, free': seq<nat>)
    requires Apart(free, seqs) && Disjoint(free', s.pages)
    requires forall p :: p in free <==> p in free' || p in s.pages
    ensures Apart(free', seqs[id := s])
  {
    var m := seqs[id := s];
    forall id1, id2 | id1 in m && id2 in m && id1 != id2 ensures Disjoint(m[id1].pages, m[id2].pages) {
      if id1 == id {
        assert Disjoint(free, seqs[id2].pages);
      } else if id2 == id {
        assert Disjoint(free, seqs[id1].pages);
      }
    }
    forall id' | id' in m ensures Disjoint(free', m[id'].pages) {
      assert id' != id ==> Disjoint(free, seqs[id'].pages);
    }
  }

  /** The pages of an entry that `begin` overwrites are lost; a fresh id loses nothing. */
  lemma LostTake(free: seq<nat>, seqs: map<nat, SeqPages>, total: nat, id: nat, s: SeqPages, free': seq<nat>)
    requires Apart(free, seqs)
    requires forall p :: p in free <==> p in free' || p in s.pages
    requires forall i :: i in seqs ==> Within(seqs[i].pages, total)
    ensures Lost(free', seqs[id := s], total) == Lost(free, seqs, total) + (if id in seqs then SetOf(seqs[id].pages) else {})
  {
    hide Held;
    var was, now := Lost(free, seqs, total), Lost(free', seqs[id := s], total);
    forall p: nat ensures p in now <==> p in was || (id in seqs && p in seqs[id].pages) {
      HeldPut(seqs, id, s, p);
      HeldDrop(seqs, id, p);
      if id in seqs && p in seqs[id].pages {
        HeldOnce(free, seqs, id, p);
      } else if p in s.pages {
        assert p in free;
      }
    }
  }

  lemma HeldPut(seqs: map<nat, SeqPages>, id: nat, s: SeqPages, p: nat)
    ensures Held(seqs[id := s], p) <==> p in s.pages || Held(seqs - {id}, p)
  {
    var m := seqs[id := s];
    if p in s.pages {
      assert id in m && p in m[id].pages;
    }
    if i :| i in seqs - {id} && p in (seqs - {id})[i].pages {
      assert i in m && p in m[i].pages;
    }
    if i :| i in m && p in m[i].pages && i != id {
      assert i in seqs - {id} && p in (seqs - {id})[i].pages;
    }
  }

  lemma HeldDrop(seqs: map<nat, SeqPages>, id: nat, p: nat)
    ensures Held(seqs, p) <==> (id in seqs && p in seqs[id].pages) || Held(seqs - {id}, p)
  {
    if id in seqs {
      HeldPut(seqs, id, seqs[id], p);
      assert seqs[id := seqs[id]] == seqs;
    } else {
      assert seqs - {id} == seqs;
    }
  }

  lemma HeldOnce(free: seq<nat>, seqs: map<nat, SeqPages>, id: nat, p: nat)
    requires Apart(free, seqs) && id in seqs && p in seqs[id].pages
    ensures p !in free && !Held(seqs - {id}, p)
  {
  }

  /** Taking pages off the back of the free list for a table that is new or replaces a live one. */
  lemma TakeForTable(free: seq<nat>, seqs: map<nat, SeqPages>, pageTokens: nat, limit: nat, total: nat,
                     id: nat, tokens: nat, pages: seq<nat>, free': seq<nat>)
    requires Sound(free, seqs, pageTokens, limit, total)
    requires free == free' + Reversed(pages) && |pages| == CeilDiv(tokens, pageTokens) && tokens <= limit
    ensures Sound(free', seqs[id := SeqPages(pages, tokens)], pageTokens, limit, total)
    ensures Lost(free', seqs[id := SeqPages(pages, tokens)], total)
      == Lost(free, seqs, total) + (if id in seqs then SetOf(seqs[id].pages) else {})
  {
    hide CeilDiv, NoDuplicates, Reversed, Disjoint, Apart, Lost;
    SplitFree(free, free', pages);
    ApartTake(free, seqs, id, SeqPages(pages, tokens), free');
    LostTake(free, seqs, total, id, SeqPages(pages, tokens), free');
  }

  /** Moving pages between the free list and one live table keeps the pool sound and loses nothing. */
  lemma Retable(free: seq<nat>, seqs: map<nat, SeqPages>, pageTokens: nat, limit: nat, total: nat,
                id: nat, s: SeqPages, free': seq<nat>)
    requires Sound(free, seqs, pageTokens, limit, total) && id in seqs
    requires NoDuplicates(free') && SoundTable(s, pageTokens, limit, total) && Disjoint(free', s.pages)
    requires forall p :: p in free' || p in s.pages <==> p in free || p in seqs[id].pages
    ensures Sound(free', seqs[id := s], pageTokens, limit, total)
    ensures Lost(free', seqs[id := s], total) == Lost(free, seqs, total)
  {
    hide CeilDiv, NoDuplicates, Held;
    var m := seqs[id := s];
    forall id1, id2 | id1 in m && id2 in m && id1 != id2 ensures Disjoint(m[id1].pages, m[id2].pages) {
      assert id1 in seqs && id2 in seqs && Disjoint(seqs[id1].pages, seqs[id2].pages);
      if id1 == id {
        assert Disjoint(free, seqs[id2].pages);
      } else if id2 == id {
        assert Disjoint(free, seqs[id1].pages);
        assert Disjoint(seqs[id].pages, seqs[id1].pages);
      }
    }
    forall id' | id' in m ensures Disjoint(free', m[id'].pages) {
      if id' != id {
        assert Disjoint(free, seqs[id'].pages) && Disjoint(seqs[id].pages, seqs[id'].pages);
      }
    }
    forall p: nat ensures p in Lost(free', m, total) <==> p in Lost(free, seqs, total) {
      HeldPut(seqs, id, s, p);
      HeldDrop(seqs, id, p);
    }
  }

  /** An append that opens a page: the newest free page goes to the end of the table. */
  lemma AppendPage(free: seq<nat>, seqs: map<nat, SeqPages>, pageTokens: nat, limit: nat, total: nat, id: nat)
    requires Sound(free, seqs, pageTokens, limit, total) && id in seqs && free != []
    requires seqs[id].tokens < limit && seqs[id].tokens % pageTokens == 0
    ensures var n := |free| - 1;
      var s := SeqPages(seqs[id].pages + [free[n]], seqs[id].tokens + 1);
      && Sound(free[..n], seqs[id := s], pageTokens, limit, total)
      && Lost(free[..n], seqs[id := s], total) == Lost(free, seqs, total)
  {
    hide Held, Lost, CeilDiv;
    var n := |free| - 1;
    var s := SeqPages(seqs[id].pages + [free[n]], seqs[id].tokens + 1);
    NextToken(seqs[id].tokens, pageTokens);
    assert free == free[..n] + [free[n]];
    assert free[n] in free && free[n] !in seqs[id].pages;
    assert SoundTable(s, pageTokens, limit, total);
    Retable(free, seqs, pageTokens, limit, total, id, s, free[..n]);
  }

  /** An append into the last page. */
  lemma AppendInPlace(free: seq<nat>, seqs: map<nat, SeqPages>, pageTokens: nat, limit: nat, total: nat, id: nat)
    requires Sound(free, seqs, pageTokens, limit, total) && id in seqs
    requires seqs[id].tokens < limit && seqs[id].tokens % pageTokens != 0
    ensures var s := seqs[id].(tokens := seqs[id].tokens + 1);
      && Sound(free, seqs[id := s], pageTokens, limit, total)
      && Lost(free, seqs[id := s], total) == Lost(free, seqs, total)
  {
    hide Held, Lost, CeilDiv;
    var s := seqs[id].(tokens := seqs[id].tokens + 1);
    NextToken(seqs[id].tokens, pageTokens);
    assert SoundTable(s, pageTokens, limit, total);
    Retable(free, seqs, pageTokens, limit, total, id, s, free);
  }

  lemma JoinFree(free: seq<nat>, pages: seq<nat>)
    requires NoDuplicates(free) && NoDuplicates(pages) && Disjoint(free, pages)
    ensures NoDuplicates(free + Reversed(pages))
    ensures forall p :: p in free + Reversed(pages) <==> p in free || p in pages
  {
    var all, n := free + Reversed(pages), |free|;
    forall k | 0 <= k < n ensures all[k] == free[k] && all[k] in free {
    }
    forall k | n <= k < |all| ensures all[k] == pages[|all| - 1 - k] && all[k] in pages {
      assert all[k] == Reversed(pages)[k - n];
    }
    forall k | 0 <= k < |pages| ensures pages[k] in all {
      assert all[|all| - 1 - k] == pages[k];
    }
    forall i, j | 0 <= i < j < |all| ensures all[i] != all[j] {
      if i >= n {
        assert pages[|all| - 1 - j] != pages[|all| - 1 - i];
      } else if j >= n {
        assert all[i] in free && all[j] in pages;
      }
    }
  }

  /** Ending a sequence gives every one of its pages back. */
  lemma ReturnTable(free: seq<nat>, seqs: map<nat, SeqPages>, pageTokens: nat, limit: nat, total: nat, id: nat)
    requires Sound(free, seqs, pageTokens, limit, total) && id in seqs
    ensures Sound(free + Reversed(seqs[id].pages), seqs - {id}, pageTokens, limit, total)
    ensures Lost(free + Reversed(seqs[id].pages), seqs - {id}, total) == Lost(free, seqs, total)
  {
    hide CeilDiv, NoDuplicates, Held, Reversed;
    assert Disjoint(free, seqs[id].pages);
    JoinFree(free, seqs[id].pages);
    forall i | i in seqs - {id} ensures Disjoint(free + Reversed(seqs[id].pages), seqs[i].pages) {
      assert Disjoint(free, seqs[i].pages) && Disjoint(seqs[id].pages, seqs[i].pages);
    }
    forall p: nat
      ensures p in Lost(free + Reversed(seqs[id].pages), seqs - {id}, total) <==> p in Lost(free, seqs, total)
    {
      HeldDrop(seqs, id, p);
    }
  }
}
