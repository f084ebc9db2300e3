/** The KV pages as the kernels address them: sequences scattered over shared pages read like private arrays. */
module KvMemory {
  import opened Wrappers
  import opened FiniteSets
  import opened Sums
  import opened KvPages
  import opened HalfFloat

  datatype KvType = F32 | F16

  /** The element types of a cache by their ggml numbers; the kernels refuse every other. */
  function KvTypeOf(id: nat): Option<KvType> {
    if id == 0 then Some(F32) else if id == 1 then Some(F16) else None
  }

  function KvTypeId(ty: KvType): (id: nat)
    ensures KvTypeOf(id) == Some(ty)
  {
    if ty.F32? then 0 else 1
  }

  /** The pattern a float is kept as: its own bits, or the nearest half. */
  ghost function Stored(ty: KvType, x: nat): nat {
    if ty.F32? then x else Narrow(x)
  }

  /** A float pattern x is what loading the kept pattern c gives. */
  ghost predicate Loads(ty: KvType, c: nat, x: nat) {
    if ty.F32? then x == c else Widens(c, x)
  }

  /** Under the number 0 every 32-bit pattern is kept as it is; under 1 none needs more than 16 bits; others are refused. */
  lemma KeptBits(id: nat, x: nat)
    requires x < 0x1_0000_0000
    ensures KvTypeOf(id).Some? <==> id <= 1
    ensures id == 0 ==> Stored(KvTypeOf(id).value, x) == x
    ensures id == 1 ==> Stored(KvTypeOf(id).value, x) < 0x1_0000
  {
    hide Narrow;
    if id == 1 {
      NarrowFits(x);
    }
  }

  method StoreCell(ty: KvType, x: nat) returns (c: nat)
    requires x < 0x1_0000_0000
    ensures c == Stored(ty, x)
  {
    if ty.F32? {
      return x;
    }
    c := F32ToF16(x);
  }

  /** The number the kernel loads from a kept pattern. */
  ghost function CellValue(ty: KvType, c: nat): real {
    if ty.F32? then FloatValue(c) else HalfValue(c)
  }

  /** `kv_load`: the float pattern of a cell, which for every finite cell stands for the cell's number. */
  method LoadCell(ty: KvType, c: nat) returns (x: nat)
    requires c < if ty.F32? then 0x1_0000_0000 else 0x1_0000
    ensures Loads(ty, c, x)
    ensures (ty.F16? ==> Finite16(c)) ==> FloatValue(x) == CellValue(ty, c)
  {
    if ty.F32? {
      return c;
    }
    x := F16ToF32(c);
    hide Widens, HalfValue, FloatValue;
    if Finite16(c) {
      WideningIsExact(c, x);
    }
  }

  // ---- addresses ---------------------------------------------------------------------------------

  /** Entry i of the vector in a slot of a page; a slot holds n entries. */
  function Cell(pageTokens: nat, n: nat, page: nat, slot: nat, i: nat): nat {
    (page * pageTokens + slot) * n + i
  }

  /** Pages, the slots of a page and the entries of a slot lie one after the other, from the start of the buffer. */
  lemma CellsInOrder(pageTokens: nat, n: nat, page: nat, slot: nat, i: nat)
    ensures Cell(pageTokens, n, 0, 0, 0) == 0
    ensures Cell(pageTokens, n, page, slot, i + 1) == Cell(pageTokens, n, page, slot, i) + 1
    ensures Cell(pageTokens, n, page, slot + 1, 0) == Cell(pageTokens, n, page, slot, n)
    ensures Cell(pageTokens, n, page + 1, 0, 0) == Cell(pageTokens, n, page, pageTokens, 0)
  {
    assert (page * pageTokens + slot + 1) * n == (page * pageTokens + slot) * n + n;
    assert (page + 1) * pageTokens == page * pageTokens + pageTokens;
  }

  lemma CellBound(total: nat, pageTokens: nat, n: nat, page: nat, slot: nat, i: nat)
    requires page < total && slot < pageTokens && i < n
    ensures Cell(pageTokens, n, page, slot, i) < total * pageTokens * n
  {
    Tasks.FlatBound(total, pageTokens, page, slot);
    Tasks.FlatBound(total * pageTokens, n, page * pageTokens + slot, i);
  }

  lemma CellInjective(pageTokens: nat, n: nat, p1: nat, s1: nat, i1: nat, p2: nat, s2: nat, i2: nat)
    requires s1 < pageTokens && s2 < pageTokens && i1 < n && i2 < n
    requires Cell(pageTokens, n, p1, s1, i1) == Cell(pageTokens, n, p2, s2, i2)
    ensures p1 == p2 && s1 == s2 && i1 == i2
  {
    Tasks.FlatInjective(n, p1 * pageTokens + s1, i1, p2 * pageTokens + s2, i2);
    Tasks.FlatInjective(pageTokens, p1, s1, p2, s2);
  }

  lemma SameToken(t1: nat, t2: nat, pageTokens: nat)
    requires pageTokens > 0
    ensures PageNo(t1, pageTokens) == PageNo(t2, pageTokens) && SlotNo(t1, pageTokens) == SlotNo(t2, pageTokens) ==> t1 == t2
  {
    assert t1 == pageTokens * (PageNo(t1, pageTokens)) + SlotNo(t1, pageTokens);
    assert t2 == pageTokens * (PageNo(t2, pageTokens)) + SlotNo(t2, pageTokens);
  }

  /** Two tokens never share a place, whichever sequences they belong to. */
  lemma PlacesApart(free: seq<nat>, seqs: map<nat, SeqPages>, pageTokens: nat, limit: nat, total: nat,
                    id1: nat, t1: nat, id2: nat, t2: nat)
    requires Sound(free, seqs, pageTokens, limit, total) && id1 in seqs && id2 in seqs
    requires t1 < seqs[id1].tokens && t2 < seqs[id2].tokens
    ensures PageNo(t1, pageTokens) < |seqs[id1].pages| && PageNo(t2, pageTokens) < |seqs[id2].pages|
    ensures seqs[id1].pages[PageNo(t1, pageTokens)] == seqs[id2].pages[PageNo(t2, pageTokens)] && SlotNo(t1, pageTokens) == SlotNo(t2, pageTokens)
      ==> id1 == id2 && t1 == t2
  {
    hide *;
    TableFacts(free, seqs, pageTokens, limit, total, id1);
    TableFacts(free, seqs, pageTokens, limit, total, id2);
    TokenPage(t1, seqs[id1].tokens, pageTokens);
    TokenPage(t2, seqs[id2].tokens, pageTokens);
    PagesApart(free, seqs, pageTokens, limit, total, id1, PageNo(t1, pageTokens), id2, PageNo(t2, pageTokens));
    SameToken(t1, t2, pageTokens);
  }

  lemma PagesApart(free: seq<nat>, seqs: map<nat, SeqPages>, pageTokens: nat, limit: nat, total: nat,
                   id1: nat, q1: nat, id2: nat, q2: nat)
    requires Sound(free, seqs, pageTokens, limit, total) && id1 in seqs && id2 in seqs
    requires q1 < |seqs[id1].pages| && q2 < |seqs[id2].pages|
    ensures seqs[id1].pages[q1] == seqs[id2].pages[q2] ==> id1 == id2 && q1 == q2
  {
    hide CeilDiv, Within;
    assert seqs[id1].pages[q1] in seqs[id1].pages && seqs[id2].pages[q2] in seqs[id2].pages;
    if id1 == id2 {
      assert SoundTable(seqs[id1], pageTokens, limit, total);
    } else {
      assert Disjoint(seqs[id1].pages, seqs[id2].pages);
    }
  }

  // ---- the private arrays ------------------------------------------------------------------------

  /** One token's key and value vectors, as float patterns. */
  datatype Token = Token(k: seq<nat>, v: seq<nat>) {
    function Part(key: bool): seq<nat> { if key then k else v }
  }

  /** The contents of every live sequence, had each its own array; None for a token not yet written. */
  type Private = map<nat, seq<Option<Token>>>

  /** The vector of logical token t, read through a page table, is `data`. */
  ghost predicate ShowsToken(mem: seq<nat>, pages: seq<nat>, pageTokens: nat, n: nat, ty: KvType, t: nat, data: seq<nat>)
    requires pageTokens > 0
  {
    && PageNo(t, pageTokens) < |pages| && |data| == n
    && (forall i :: 0 <= i < n ==>
      var a := Cell(pageTokens, n, pages[PageNo(t, pageTokens)], SlotNo(t, pageTokens), i);
      a < |mem| && mem[a] == Stored(ty, data[i]))
  }

  /** One of the two page buffers shows everything the private arrays hold. */
  ghost predicate Shows(mem: seq<nat>, seqs: map<nat, SeqPages>, pageTokens: nat, n: nat, ty: KvType,
                        view: Private, key: bool) {
    && pageTokens > 0 && view.Keys == seqs.Keys
    && (forall id :: id in view ==> |view[id]| == seqs[id].tokens)
    && (forall id, t :: id in view && 0 <= t < |view[id]| && view[id][t].Some? ==>
      ShowsToken(mem, seqs[id].pages, pageTokens, n, ty, t, view[id][t].value.Part(key)))
  }

  /** The kernel wrote one vector into one slot and nothing else. */
  ghost predicate Wrote(mem: seq<nat>, was: seq<nat>, pageTokens: nat, n: nat, ty: KvType,
                        page: nat, slot: nat, data: seq<nat>) {
    && |mem| == |was| && |data| == n
    && (forall i :: 0 <= i < n ==>
      Cell(pageTokens, n, page, slot, i) < |mem| && mem[Cell(pageTokens, n, page, slot, i)] == Stored(ty, data[i]))
    && (forall a :: 0 <= a < |mem| && !InSlot(pageTokens, n, page, slot, a) ==> mem[a] == was[a])
  }

  ghost predicate InSlot(pageTokens: nat, n: nat, page: nat, slot: nat, a: nat) {
    exists i :: 0 <= i < n && a == Cell(pageTokens, n, page, slot, i)
  }

  lemma OtherTokensKept(mem: seq<nat>, was: seq<nat>, pages: seq<nat>, pageTokens: nat, n: nat, ty: KvType,
                        page: nat, slot: nat, data: seq<nat>, t: nat, other: seq<nat>)
    requires pageTokens > 0 && slot < pageTokens && Wrote(mem, was, pageTokens, n, ty, page, slot, data)
    requires ShowsToken(was, pages, pageTokens, n, ty, t, other)
    requires pages[PageNo(t, pageTokens)] != page || SlotNo(t, pageTokens) != slot
    ensures ShowsToken(mem, pages, pageTokens, n, ty, t, other)
  {
    hide Cell, Stored;
    forall i | 0 <= i < n
      ensures var a := Cell(pageTokens, n, pages[PageNo(t, pageTokens)], SlotNo(t, pageTokens), i);
        a < |mem| && mem[a] == Stored(ty, other[i])
    {
      var a := Cell(pageTokens, n, pages[PageNo(t, pageTokens)], SlotNo(t, pageTokens), i);
      if j :| 0 <= j < n && a == Cell(pageTokens, n, page, slot, j) {
        CellInjective(pageTokens, n, pages[PageNo(t, pageTokens)], SlotNo(t, pageTokens), i, page, slot, j);
      }
      assert !InSlot(pageTokens, n, page, slot, a);
    }
  }

  /** Writing the place of token t of a sequence writes that token of its private array and no other. */
  lemma WriteShows(mem: seq<nat>, was: seq<nat>, free: seq<nat>, seqs: map<nat, SeqPages>, pageTokens: nat, limit: nat,
                   total: nat, n: nat, ty: KvType, view: Private, key: bool, id: nat, t: nat, token: Token)
    requires Sound(free, seqs, pageTokens, limit, total) && Shows(was, seqs, pageTokens, n, ty, view, key)
    requires id in seqs && t < seqs[id].tokens && PageNo(t, pageTokens) < |seqs[id].pages|
    requires Wrote(mem, was, pageTokens, n, ty, seqs[id].pages[PageNo(t, pageTokens)], SlotNo(t, pageTokens), token.Part(key))
    ensures id in view && t < |view[id]|
    ensures Shows(mem, seqs, pageTokens, n, ty, Write(view, id, t, token), key)
  {
    hide ShowsToken, Wrote, Sound, Write, Token.Part;
    var view': Private := Write(view, id, t, token);
    WriteIs(view, id, t, token);
    forall id', t' | id' in view' && 0 <= t' < |view'[id']| && view'[id'][t'].Some?
      ensures ShowsToken(mem, seqs[id'].pages, pageTokens, n, ty, t', view'[id'][t'].value.Part(key))
    {
      if id' == id && t' == t {
        WroteShows(mem, was, seqs[id].pages, pageTokens, n, ty, t, token.Part(key));
      } else {
        assert view'[id'][t'] == view[id'][t'];
        OtherShows(mem, was, free, seqs, pageTokens, limit, total, n, ty, id, t, token.Part(key),
                   id', t', view[id'][t'].value.Part(key));
      }
    }
  }

  /** Token t of a private array is written. */
  function Write(view: Private, id: nat, t: nat, token: Token): Private
    requires id in view && t < |view[id]|
  {
    view[id := view[id][t := Some(token)]]
  }

  lemma WriteIs(view: Private, id: nat, t: nat, token: Token)
    requires id in view && t < |view[id]|
    ensures var view' := Write(view, id, t, token);
      && view'.Keys == view.Keys
      && (forall i :: i in view ==> |view'[i]| == |view[i]|)
      && view'[id][t] == Some(token)
      && (forall i, u :: i in view && 0 <= u < |view[i]| && (i != id || u != t) ==> view'[i][u] == view[i][u])
  {
  }

  lemma OtherShows(mem: seq<nat>, was: seq<nat>, free: seq<nat>, seqs: map<nat, SeqPages>, pageTokens: nat, limit: nat,
                   total: nat, n: nat, ty: KvType, id: nat, t: nat, data: seq<nat>, id': nat, t': nat, other: seq<nat>)
    requires Sound(free, seqs, pageTokens, limit, total) && id in seqs && id' in seqs
    requires t < seqs[id].tokens && PageNo(t, pageTokens) < |seqs[id].pages| && t' < seqs[id'].tokens
    requires Wrote(mem, was, pageTokens, n, ty, seqs[id].pages[PageNo(t, pageTokens)], SlotNo(t, pageTokens), data)
    requires ShowsToken(was, seqs[id'].pages, pageTokens, n, ty, t', other)
    requires id' != id || t' != t
    ensures ShowsToken(mem, seqs[id'].pages, pageTokens, n, ty, t', other)
  {
    hide Wrote;
    PlacesApart(free, seqs, pageTokens, limit, total, id, t, id', t');
    OtherTokensKept(mem, was, seqs[id'].pages, pageTokens, n, ty, seqs[id].pages[PageNo(t, pageTokens)], SlotNo(t, pageTokens), data,
                    t', other);
  }

  lemma WroteShows(mem: seq<nat>, was: seq<nat>, pages: seq<nat>, pageTokens: nat, n: nat, ty: KvType,
                   t: nat, data: seq<nat>)
    requires pageTokens > 0 && PageNo(t, pageTokens) < |pages|
    requires Wrote(mem, was, pageTokens, n, ty, pages[PageNo(t, pageTokens)], SlotNo(t, pageTokens), data)
    ensures ShowsToken(mem, pages, pageTokens, n, ty, t, data)
  {
  }

  /** A table that only grew still shows what it showed; the new token shows nothing yet. */
  lemma GrownShows(mem: seq<nat>, seqs: map<nat, SeqPages>, pageTokens: nat, n: nat, ty: KvType, view: Private,
                   key: bool, id: nat, s: SeqPages)
    requires Shows(mem, seqs, pageTokens, n, ty, view, key) && id in seqs
    requires seqs[id].pages <= s.pages && s.tokens == seqs[id].tokens + 1
    ensures Shows(mem, seqs[id := s], pageTokens, n, ty, view[id := view[id] + [None]], key)
  {
    hide Cell, Stored;
    var view': Private := view[id := view[id] + [None]];
    var seqs' := seqs[id := s];
    forall id', t' | id' in view' && 0 <= t' < |view'[id']| && view'[id'][t'].Some?
      ensures ShowsToken(mem, seqs'[id'].pages, pageTokens, n, ty, t', view'[id'][t'].value.Part(key))
    {
      assert t' < |view[id']| && view'[id'][t'] == view[id'][t'];
      assert ShowsToken(mem, seqs[id'].pages, pageTokens, n, ty, t', view[id'][t'].value.Part(key));
    }
  }

  lemma BegunShows(mem: seq<nat>, seqs: map<nat, SeqPages>, pageTokens: nat, n: nat, ty: KvType, view: Private,
                   key: bool, id: nat, s: SeqPages)
    requires Shows(mem, seqs, pageTokens, n, ty, view, key)
    ensures Shows(mem, seqs[id := s], pageTokens, n, ty, view[id := Blank(s.tokens)], key)
  {
    hide ShowsToken;
  }

  lemma EndedShows(mem: seq<nat>, seqs: map<nat, SeqPages>, pageTokens: nat, n: nat, ty: KvType, view: Private,
                   key: bool, id: nat)
    requires Shows(mem, seqs, pageTokens, n, ty, view, key)
    ensures Shows(mem, seqs - {id}, pageTokens, n, ty, view - {id}, key)
  {
    hide ShowsToken;
  }

  function Blank(tokens: nat): (r: seq<Option<Token>>)
    ensures |r| == tokens && forall t :: 0 <= t < tokens ==> r[t].None?
  {
    seq(tokens, t => None)
  }

  // ---- moearc_kv_append --------------------------------------------------------------------------

  /** Every work-item but those still to do has stored its entry, and nothing outside the slot has changed. */
  ghost predicate WroteBut(mem: seq<nat>, was: seq<nat>, pageTokens: nat, n: nat, ty: KvType,
                           page: nat, slot: nat, data: seq<nat>, todo: set<nat>) {
    && |mem| == |was| && |data| == n
    && (forall i :: 0 <= i < n ==> Cell(pageTokens, n, page, slot, i) < |mem|)
    && (forall i :: 0 <= i < n && i !in todo ==> mem[Cell(pageTokens, n, page, slot, i)] == Stored(ty, data[i]))
    && (forall a :: 0 <= a < |mem| && !InSlot(pageTokens, n, page, slot, a) ==> mem[a] == was[a])
  }

  lemma WroteBegins(mem: seq<nat>, total: nat, pageTokens: nat, n: nat, ty: KvType, page: nat, slot: nat,
                    data: seq<nat>, todo: set<nat>)
    requires |mem| == total * pageTokens * n && page < total && slot < pageTokens && |data| == n
    requires forall i :: 0 <= i < n ==> i in todo
    ensures WroteBut(mem, mem, pageTokens, n, ty, page, slot, data, todo)
  {
    forall i | 0 <= i < n ensures Cell(pageTokens, n, page, slot, i) < |mem| {
      CellBound(total, pageTokens, n, page, slot, i);
    }
  }

  lemma WroteStep(mem: seq<nat>, was: seq<nat>, pageTokens: nat, n: nat, ty: KvType, page: nat, slot: nat,
                  data: seq<nat>, todo: set<nat>, i: nat, c: nat)
    requires WroteBut(mem, was, pageTokens, n, ty, page, slot, data, todo)
    requires i < n && slot < pageTokens && c == Stored(ty, data[i])
    ensures Cell(pageTokens, n, page, slot, i) < |mem|
    ensures WroteBut(mem[Cell(pageTokens, n, page, slot, i) := c], was, pageTokens, n, ty, page, slot, data, todo - {i})
  {
    hide Cell, Stored;
    var a := Cell(pageTokens, n, page, slot, i);
    assert InSlot(pageTokens, n, page, slot, a);
    forall j | 0 <= j < n && j != i ensures Cell(pageTokens, n, page, slot, j) != a {
      if Cell(pageTokens, n, page, slot, j) == a {
        CellInjective(pageTokens, n, page, slot, i, page, slot, j);
      }
    }
  }

  lemma WroteEnds(mem: seq<nat>, was: seq<nat>, pageTokens: nat, n: nat, ty: KvType, page: nat, slot: nat,
                  data: seq<nat>)
    requires WroteBut(mem, was, pageTokens, n, ty, page, slot, data, {})
    ensures Wrote(mem, was, pageTokens, n, ty, page, slot, data)
  {
  }

  ghost predicate Floats(data: seq<nat>) {
    forall i :: 0 <= i < |data| ==> data[i] < 0x1_0000_0000
  }

  /** The append kernel; its work-items, one per entry, run in any order. */
  method AppendKernel(kPages: array<nat>, vPages: array<nat>, k: seq<nat>, v: seq<nat>, page: nat, slot: nat,
                      n: nat, pageTokens: nat, ty: KvType, ghost total: nat)
    requires kPages != vPages && |k| == n == |v| && Floats(k) && Floats(v)
    requires page < total && slot < pageTokens
    requires kPages.Length == total * pageTokens * n == vPages.Length
    modifies kPages, vPages
    ensures Wrote(kPages[..], old(kPages[..]), pageTokens, n, ty, page, slot, k)
    ensures Wrote(vPages[..], old(vPages[..]), pageTokens, n, ty, page, slot, v)
  {
    hide WroteBut, Wrote, Cell, Stored, Below;
    ghost var k0, v0 := kPages[..], vPages[..];
    var todo: set<nat> := Below(n);
    WroteBegins(k0, total, pageTokens, n, ty, page, slot, k, todo);
    WroteBegins(v0, total, pageTokens, n, ty, page, slot, v, todo);
    while todo != {}
      invariant forall i :: i in todo ==> i < n
      invariant WroteBut(kPages[..], k0, pageTokens, n, ty, page, slot, k, todo)
      invariant WroteBut(vPages[..], v0, pageTokens, n, ty, page, slot, v, todo)
      decreases |todo|
    {
      var i :| i in todo;
      ghost var k1, v1 := kPages[..], vPages[..];
      var ck := StoreCell(ty, k[i]);
      var cv := StoreCell(ty, v[i]);
      WroteStep(k1, k0, pageTokens, n, ty, page, slot, k, todo, i, ck);
      WroteStep(v1, v0, pageTokens, n, ty, page, slot, v, todo, i, cv);
      var a := Cell(pageTokens, n, page, slot, i);
      kPages[a] := ck;
      vPages[a] := cv;
      assert kPages[..] == k1[a := ck] && vPages[..] == v1[a := cv];
      todo := todo - {i};
    }
    WroteEnds(kPages[..], k0, pageTokens, n, ty, page, slot, k);
    WroteEnds(vPages[..], v0, pageTokens, n, ty, page, slot, v);
  }

  datatype Status = Done | BadArgument

  /** `moearc_kv_append`: refuses an unknown element type, an empty geometry or a slot outside its page, else writes the slot. */
  method KvAppend(kPages: array<nat>, vPages: array<nat>, k: seq<nat>, v: seq<nat>, page: nat, slot: nat,
                  nKvHeads: nat, headDim: nat, pageTokens: nat, kvType: nat, ghost total: nat)
    returns (rc: Status)
    requires kPages != vPages && |k| == nKvHeads * headDim == |v| && Floats(k) && Floats(v)
    requires page < total && kPages.Length == total * pageTokens * (nKvHeads * headDim) == vPages.Length
    modifies kPages, vPages
    ensures rc.BadArgument? <==> KvTypeOf(kvType).None? || pageTokens == 0 || slot >= pageTokens || nKvHeads == 0 || headDim == 0
    ensures rc.BadArgument? ==> kPages[..] == old(kPages[..]) && vPages[..] == old(vPages[..])
    ensures rc.Done? ==>
      Wrote(kPages[..], old(kPages[..]), pageTokens, nKvHeads * headDim, KvTypeOf(kvType).value, page, slot, k)
    ensures rc.Done? ==>
      Wrote(vPages[..], old(vPages[..]), pageTokens, nKvHeads * headDim, KvTypeOf(kvType).value, page, slot, v)
  {
    hide *;
    if KvTypeOf(kvType).None? {
      return BadArgument;
    }
    if pageTokens == 0 || slot >= pageTokens {
      return BadArgument;
    }
    if nKvHeads == 0 || headDim == 0 {
      return BadArgument;
    }
    AppendKernel(kPages, vPages, k, v, page, slot, nKvHeads * headDim, pageTokens, KvTypeOf(kvType).value,
                 total);
    return Done;
  }

  lemma ShowsKeys(mem: seq<nat>, seqs: map<nat, SeqPages>, pageTokens: nat, n: nat, ty: KvType, view: Private, key: bool)
    requires Shows(mem, seqs, pageTokens, n, ty, view, key)
    ensures pageTokens > 0 && view.Keys == seqs.Keys
    ensures forall id :: id in view ==> |view[id]| == seqs[id].tokens
  {
  }

  /** Growing a private array and writing its last token is appending to it. */
  lemma WriteLast(view: Private, id: nat, token: Token)
    requires id in view
    ensures var grown: Private := view[id := view[id] + [None]];
      Write(grown, id, |view[id]|, token) == view[id := view[id] + [Some(token)]]
  {
    assert (view[id] + [None])[|view[id]| := Some(token)] == view[id] + [Some(token)];
  }
}
