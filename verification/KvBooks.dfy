/** What a run of operations does to private arrays, and which operations a pool of pages must accept. */
module KvBooks {
  import opened Wrappers
  import opened FiniteSets
  import opened Sums
  import opened KvPages
  import opened PagedKv
  import opened KvMemory

  /** An operation on one sequence of the store. */
  datatype KvOp =
    | Begin(id: nat, tokens: nat)
    | Fill(id: nat, t: nat, token: Token)
    | Append(id: nat, token: Token)
    | End(id: nat)

  /** The fixed sizes of a pool. */
  datatype Limits = Limits(totalPages: nat, pageTokens: nat, contextLimit: nat)

  /** The private arrays, and how many pages of the pool nobody can reach any more. */
  datatype Books = Books(view: Private, lost: nat)

  /** One mark for every page that some private arrays take up. */
  ghost function PageMarks(view: Private, pageTokens: nat, ids: set<nat>): set<(nat, nat)>
    requires pageTokens > 0
  {
    set id, q | id in ids && id in view && 0 <= q < CeilDiv(|view[id]|, pageTokens) :: (id, q)
  }

  /** The pages left over by the arrays and the losses. */
  ghost function Spare(lim: Limits, b: Books): int
    requires lim.pageTokens > 0
  {
    lim.totalPages - |PageMarks(b.view, lim.pageTokens, b.view.Keys)| - b.lost
  }

  /** Whether an operation is to be accepted, on the private arrays alone: no page table is mentioned. */
  ghost predicate Accepts(lim: Limits, b: Books, op: KvOp)
    requires lim.pageTokens > 0
  {
    match op
    case Begin(_, tokens) => tokens <= lim.contextLimit && CeilDiv(tokens, lim.pageTokens) <= Spare(lim, b)
    case Fill(id, t, _) => id in b.view && t < |b.view[id]|
    case Append(id, _) =>
      && id in b.view && |b.view[id]| < lim.contextLimit
      && (|b.view[id]| % lim.pageTokens == 0 ==> Spare(lim, b) > 0)
    case End(id) => id in b.view
  }

  /** What an operation does: nothing if it is not accepted. Only a begin under a live id loses pages. */
  ghost function StepBooks(lim: Limits, b: Books, op: KvOp): Books
    requires lim.pageTokens > 0
  {
    if !Accepts(lim, b, op) then b
    else
      match op
      case Begin(id, tokens) =>
        Books(b.view[id := Blank(tokens)],
              b.lost + if id in b.view then CeilDiv(|b.view[id]|, lim.pageTokens) else 0)
      case Fill(id, t, token) => b.(view := Write(b.view, id, t, token))
      case Append(id, token) => b.(view := b.view[id := b.view[id] + [Some(token)]])
      case End(id) => b.(view := b.view - {id})
  }

  ghost function RunBooks(lim: Limits, b: Books, ops: seq<KvOp>): Books
    requires lim.pageTokens > 0
  {
    if ops == [] then b
    else StepBooks(lim, RunBooks(lim, b, ops[..|ops| - 1]), ops[|ops| - 1])
  }

  /** The first n operations were each accepted just when the books before them say so. */
  ghost predicate Judged(lim: Limits, b: Books, ops: seq<KvOp>, accepted: seq<bool>, n: nat)
    requires lim.pageTokens > 0
  {
    n <= |ops| && n <= |accepted| &&
    forall k :: 0 <= k < n ==> accepted[k] == Accepts(lim, RunBooks(lim, b, ops[..k]), ops[k])
  }

  lemma NoneJudged(lim: Limits, b: Books, ops: seq<KvOp>)
    requires lim.pageTokens > 0
    ensures Judged(lim, b, ops, [], 0) && RunBooks(lim, b, ops[..0]) == b
  {
  }

  lemma JudgedNext(lim: Limits, b: Books, ops: seq<KvOp>, accepted: seq<bool>, n: nat, ok: bool, after: Books)
    requires lim.pageTokens > 0 && n < |ops| && |accepted| == n && Judged(lim, b, ops, accepted, n)
    requires ok == Accepts(lim, RunBooks(lim, b, ops[..n]), ops[n])
    requires after == StepBooks(lim, RunBooks(lim, b, ops[..n]), ops[n])
    ensures Judged(lim, b, ops, accepted + [ok], n + 1)
    ensures after == RunBooks(lim, b, ops[..n + 1])
  {
    hide Accepts, StepBooks;
    assert ops[..n + 1][..n] == ops[..n];
  }

  // ---- losses ------------------------------------------------------------------------------------

  /** An accepted begin that overwrites an array with something in it. */
  ghost predicate Overwrites(lim: Limits, b: Books, op: KvOp)
    requires lim.pageTokens > 0
  {
    Accepts(lim, b, op) && op.Begin? && op.id in b.view && b.view[op.id] != []
  }

  /** Operation k of the run is one. */
  ghost predicate OverwritesAt(lim: Limits, b: Books, ops: seq<KvOp>, k: nat)
    requires lim.pageTokens > 0
  {
    k < |ops| && Overwrites(lim, RunBooks(lim, b, ops[..k]), ops[k])
  }

  lemma PrefixOverwrites(lim: Limits, b: Books, ops: seq<KvOp>, n: nat, k: nat)
    requires lim.pageTokens > 0 && k < n <= |ops|
    ensures OverwritesAt(lim, b, ops[..n], k) <==> OverwritesAt(lim, b, ops, k)
  {
    hide Overwrites, RunBooks;
    assert ops[..n][..k] == ops[..k];
  }

  /** A run loses pages exactly when one of its begins overwrites a live array that holds a token. */
  lemma {:induction false} LosesIffOverwrites(lim: Limits, b: Books, ops: seq<KvOp>)
    requires lim.pageTokens > 0
    ensures RunBooks(lim, b, ops).lost >= b.lost
    ensures RunBooks(lim, b, ops).lost > b.lost <==> exists k: nat :: k < |ops| && OverwritesAt(lim, b, ops, k)
  {
    if ops != [] {
      var n := |ops| - 1;
      var before := RunBooks(lim, b, ops[..n]);
      LosesIffOverwrites(lim, b, ops[..n]);
      StepLoses(lim, before, ops[n]);
      assert RunBooks(lim, b, ops) == StepBooks(lim, before, ops[n]);
      assert OverwritesAt(lim, b, ops, n) <==> Overwrites(lim, before, ops[n]);
      hide StepBooks, Overwrites, OverwritesAt, RunBooks;
      forall k: nat | k < n ensures OverwritesAt(lim, b, ops[..n], k) <==> OverwritesAt(lim, b, ops, k) {
        PrefixOverwrites(lim, b, ops, n, k);
      }
      if OverwritesAt(lim, b, ops, n) {
        assert RunBooks(lim, b, ops).lost > b.lost;
      }
    }
  }

  lemma StepLoses(lim: Limits, b: Books, op: KvOp)
    requires lim.pageTokens > 0
    ensures StepBooks(lim, b, op).lost >= b.lost
    ensures StepBooks(lim, b, op).lost > b.lost <==> Overwrites(lim, b, op)
  {
    hide Accepts, Write;
  }

  /** A begin judged by the spare pages, and what it leaves in the books. */
  lemma BeginStep(lim: Limits, b: Books, id: nat, tokens: nat, ok: bool, after: Books)
    requires lim.pageTokens > 0
    requires ok <==> tokens <= lim.contextLimit && CeilDiv(tokens, lim.pageTokens) <= Spare(lim, b)
    requires !ok ==> after == b
    requires ok ==> after.view == b.view[id := Blank(tokens)]
    requires ok ==> after.lost == b.lost + if id in b.view then CeilDiv(|b.view[id]|, lim.pageTokens) else 0
    ensures ok <==> Accepts(lim, b, Begin(id, tokens))
    ensures after == StepBooks(lim, b, Begin(id, tokens))
  {
    hide Spare, CeilDiv, Blank;
  }

  /** A pool of two one-token pages loses one when a sequence is begun twice. */
  lemma BegunTwice()
    ensures RunBooks(Limits(2, 1, 2), Books(map[], 0), [Begin(0, 1), Begin(0, 1)]).lost == 1
  {
    var lim, b0 := Limits(2, 1, 2), Books(map[], 0);
    var ops := [Begin(0, 1), Begin(0, 1)];
    assert PageMarks(map[], 1, b0.view.Keys) == {};
    CeilIs(1, 1, 1);
    var b1 := StepBooks(lim, b0, Begin(0, 1));
    assert b1 == Books(map[0 := Blank(1)], 0);
    assert b1.view.Keys == {} + {0};
    assert PageMarks(b1.view, 1, {}) == {};
    MarksOneMore(b1.view, 1, {}, 0);
    assert StepBooks(lim, b1, Begin(0, 1)).lost == 1;
    assert ops[..1] == [Begin(0, 1)] && ops[..1][..0] == [];
    assert RunBooks(lim, b0, ops[..1]) == b1;
  }

  // ---- the books are the pool's ------------------------------------------------------------------

  lemma MarksOneMore(view: Private, pageTokens: nat, ids: set<nat>, id: nat)
    requires pageTokens > 0 && id in view && id !in ids
    ensures |PageMarks(view, pageTokens, ids + {id})|
      == |PageMarks(view, pageTokens, ids)| + CeilDiv(|view[id]|, pageTokens)
  {
    hide CeilDiv, Slots;
    var n := CeilDiv(|view[id]|, pageTokens);
    var before, after, mine := PageMarks(view, pageTokens, ids), PageMarks(view, pageTokens, ids + {id}), Slots(id, 0, n);
    forall x ensures x in after <==> x in before || x in mine {
    }
    assert after == before + mine;
    assert before !! mine;
  }

  /** Tables and private arrays take up the same number of pages. */
  lemma {:induction false} HeldAreMarked(free: seq<nat>, seqs: map<nat, SeqPages>, pageTokens: nat, limit: nat,
                                         total: nat, view: Private, ids: set<nat>)
    requires Sound(free, seqs, pageTokens, limit, total) && ids <= seqs.Keys == view.Keys
    requires forall id :: id in view ==> |view[id]| == seqs[id].tokens
    ensures |HeldBy(seqs, ids, total)| == |PageMarks(view, pageTokens, ids)|
  {
    if ids == {} {
      NothingCounted(seqs, pageTokens, total);
      assert PageMarks(view, pageTokens, ids) == {};
    } else {
      var id :| id in ids;
      var rest := ids - {id};
      assert ids == rest + {id};
      hide Sound, PageMarks, HeldBy, CeilDiv;
      HeldAreMarked(free, seqs, pageTokens, limit, total, view, rest);
      TableFacts(free, seqs, pageTokens, limit, total, id);
      SoundMeansApart(free, seqs, pageTokens, limit, total);
      HeldOneMore(free, seqs, total, rest, id);
      MarksOneMore(view, pageTokens, rest, id);
    }
  }

  /** The free list is as long as the books say. */
  lemma FreeIsSpare(free: seq<nat>, seqs: map<nat, SeqPages>, lim: Limits, view: Private)
    requires Sound(free, seqs, lim.pageTokens, lim.contextLimit, lim.totalPages) && seqs.Keys == view.Keys
    requires forall id :: id in view ==> |view[id]| == seqs[id].tokens
    ensures lim.pageTokens > 0
    ensures |free| == Spare(lim, Books(view, |Lost(free, seqs, lim.totalPages)|))
  {
    hide PageMarks, HeldBy, Lost;
    SoundMeansApart(free, seqs, lim.pageTokens, lim.contextLimit, lim.totalPages);
    HeldAreMarked(free, seqs, lim.pageTokens, lim.contextLimit, lim.totalPages, view, seqs.Keys);
    Conservation(free, seqs, lim.totalPages);
  }

  /** Overwriting a table loses as many pages as it had. */
  lemma LossIsTable(free: seq<nat>, seqs: map<nat, SeqPages>, pageTokens: nat, limit: nat, total: nat, id: nat)
    requires Sound(free, seqs, pageTokens, limit, total) && id in seqs
    ensures |Lost(free, seqs, total) + SetOf(seqs[id].pages)|
      == |Lost(free, seqs, total)| + CeilDiv(seqs[id].tokens, pageTokens)
  {
    hide CeilDiv, Lost, SetOf;
    TableFacts(free, seqs, pageTokens, limit, total, id);
    hide Sound;
    var lost, pages := Lost(free, seqs, total), SetOf(seqs[id].pages);
    SetOfSize(seqs[id].pages);
    TableNotLost(free, seqs, total, id);
    assert lost !! pages;
  }

  lemma TableNotLost(free: seq<nat>, seqs: map<nat, SeqPages>, total: nat, id: nat)
    requires id in seqs
    ensures forall p :: p in Lost(free, seqs, total) ==> p !in seqs[id].pages
  {
    forall p | p in Lost(free, seqs, total) ensures p !in seqs[id].pages {
      assert !Held(seqs, p);
    }
  }
}
