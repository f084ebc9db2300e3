/** From the experts asked for to their products: cache, staging and the batched kernels put together. */
module ServedExperts {
  import opened Wrappers
  import opened Bytes
  import opened Tasks
  import opened Quant
  import opened LruSpec
  import opened ExpertCaching
  import opened Gathering
  import opened HostExperts
  import opened DeviceDispatch
  import E = DeviceExperts
  import M = DeviceMatvec

  /** The bytes of a run of words, low byte first. */
  function Unpacked(ws: seq<Word>): (b: seq<byte>)
    ensures |b| == 4 * |ws|
  {
    if ws == [] then []
    else
      var w := ws[|ws| - 1];
      Unpacked(ws[..|ws| - 1]) + [w % 0x100, w / 0x100 % 0x100, w / 0x1_0000 % 0x100, w / 0x100_0000]
  }

  /** The words of slot s. */
  function SlotWords(pool: seq<Word>, words: nat, s: nat): seq<Word> {
    if Flat(words, s, 0) + words <= |pool| then pool[Flat(words, s, 0)..Flat(words, s, 0) + words] else []
  }

  /** `bank_batch`: the matrices of these slots. */
  function Batch(pool: seq<Word>, words: nat, slots: seq<nat>): (b: seq<seq<byte>>)
    ensures |b| == |slots|
  {
    seq(|slots|, i requires 0 <= i < |slots| => Unpacked(SlotWords(pool, words, slots[i])))
  }

  /** The matrices of the experts themselves. */
  ghost function Matrices(needed: seq<ExpertRef>, weights: map<ExpertRef, seq<Word>>): (b: seq<seq<byte>>)
    requires forall e :: e in needed ==> e in weights
    ensures |b| == |needed|
  {
    seq(|needed|, i requires 0 <= i < |needed| => Unpacked(weights[needed[i]]))
  }

  /** An occupied slot is its occupant's words. */
  lemma SlotIsExpert(pool: seq<Word>, words: nat, occupant: seq<Option<ExpertRef>>, weights: map<ExpertRef, seq<Word>>,
                     s: nat, e: ExpertRef)
    requires PoolHolds(pool, words, occupant, weights) && s < |occupant| && occupant[s] == Some(e)
    ensures e in weights && SlotWords(pool, words, s) == weights[e]
  {
    MulLe(words, s + 1, |occupant|);
    assert (s + 1) * words == s * words + words;
    var got := SlotWords(pool, words, s);
    assert |got| == words == |weights[e]|;
    forall w | 0 <= w < words ensures got[w] == weights[e][w] {
      assert pool[Flat(words, s, w)] == weights[e][w];
    }
  }

  lemma BatchIsMatrices(pool: seq<Word>, words: nat, occupant: seq<Option<ExpertRef>>, weights: map<ExpertRef, seq<Word>>,
                        needed: seq<ExpertRef>, slots: seq<nat>)
    requires PoolHolds(pool, words, occupant, weights) && |slots| == |needed|
    requires forall e :: e in needed ==> e in weights
    requires forall i :: 0 <= i < |needed| ==> slots[i] < |occupant| && occupant[slots[i]] == Some(needed[i])
    ensures Batch(pool, words, slots) == Matrices(needed, weights)
  {
    hide PoolHolds, SlotWords, Unpacked;
    forall i | 0 <= i < |needed| ensures Batch(pool, words, slots)[i] == Matrices(needed, weights)[i] {
      SlotIsExpert(pool, words, occupant, weights, slots[i], needed[i]);
    }
  }

  /**
   A step of one bank: whatever the cache held, and wherever it puts what it loads, product i of the launch is
   that of the i-th expert asked for.
   */
  method ServeProducts(cache: ExpertCache, pool: array<Word>, out: array<real>, dec: Decode, spec: BankSpec,
                       needed: seq<ExpertRef>, x: seq<real>, words: nat, weights: map<ExpertRef, seq<Word>>)
    returns (r: Result<(), CacheError>)
    requires cache.Valid() && PoolHolds(pool[..], words, cache.occupant, weights)
    requires forall e :: e in needed ==> e in weights && |weights[e]| == words
    requires spec.nCols % M.BlockElems(spec.ty) == 0 && |x| == spec.nCols
    requires |needed| <= MAX_BATCHED_MATS && |needed| * spec.nRows <= out.Length
    modifies cache, pool, out
    ensures cache.Valid() && PoolHolds(pool[..], words, cache.occupant, weights)
    ensures r.Err? <==> |LruSpec.Elements(needed)| > cache.capacity
    ensures r.Err? ==> unchanged(cache) && unchanged(pool) && unchanged(out)
    ensures r.Ok? ==> cache.steps == old(cache.steps) + [needed]
    ensures r.Ok? ==>
      E.Holds(out[..], 0, spec.nRows, E.Products(dec, spec, Matrices(needed, weights), E.Same(x, |needed|)))
  {
    hide *;
    var served := ServeSlots(cache, pool, needed, words, weights);
    if served.Err? {
      return Err(served.error);
    }
    BatchIsMatrices(pool[..], words, cache.occupant, weights, needed, served.value);
    E.SameSpreads(x, |needed|);
    E.Project(out, dec, spec, Batch(pool[..], words, served.value), x, 0, E.Same(x, |needed|));
    return Ok(());
  }
}
