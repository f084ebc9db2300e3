/** From a step's plan to the weights the matmul reads: executing the loads, looking up slots, gathering. */
module Gathering {
  import opened Wrappers
  import opened LruSpec
  import opened CacheState
  import opened ExpertCaching
  import opened Tasks

  // ---- slots_for ---------------------------------------------------------------------------------

  /** The slot of an expert once the plan has been executed: a load's if it was loaded, else its hit's. */
  ghost predicate SlotIn(plan: StepPlan, e: ExpertRef, s: nat) {
    || (exists k :: 0 <= k < |plan.loads| && plan.loads[k].expert == e && plan.loads[k].intoSlot == s)
    || (e !in LoadExperts(plan.loads) && Hit(e, s) in plan.hits)
  }

  lemma AllMapped(plan: StepPlan, requested: seq<ExpertRef>, m: map<ExpertRef, nat>)
    requires forall e :: e in requested ==> e in HitExperts(plan.hits) || e in LoadExperts(plan.loads)
    requires forall k :: 0 <= k < |plan.hits| ==> plan.hits[k].expert in m
    requires forall k :: 0 <= k < |plan.loads| ==> plan.loads[k].expert in m
    ensures forall k :: 0 <= k < |requested| ==> requested[k] in m
  {
    forall k | 0 <= k < |requested| ensures requested[k] in m {
      var e := requested[k];
      if e in HitExperts(plan.hits) {
        var k :| 0 <= k < |plan.hits| && HitExperts(plan.hits)[k] == e;
      } else {
        var k :| 0 <= k < |plan.loads| && LoadExperts(plan.loads)[k] == e;
      }
    }
  }

  method SlotsFor(plan: StepPlan, requested: seq<ExpertRef>) returns (slots: seq<nat>)
    requires forall e :: e in requested ==> e in HitExperts(plan.hits) || e in LoadExperts(plan.loads)
    ensures |slots| == |requested|
    ensures forall i :: 0 <= i < |requested| ==> SlotIn(plan, requested[i], slots[i])
  {
    hide SlotIn, HitExperts, LoadExperts;
    var m: map<ExpertRef, nat> := map[];
    var i := 0;
    while i < |plan.hits|
      invariant i <= |plan.hits|
      invariant forall k :: 0 <= k < i ==> plan.hits[k].expert in m
      invariant forall e :: e in m ==> SlotIn(StepPlan(plan.hits, plan.loads[..0]), e, m[e])
    {
      SlotInHit(plan, i);
      m := m[plan.hits[i].expert := plan.hits[i].slot];
      i := i + 1;
    }
    i := 0;
    while i < |plan.loads|
      invariant i <= |plan.loads|
      invariant forall k :: 0 <= k < |plan.hits| ==> plan.hits[k].expert in m
      invariant forall k :: 0 <= k < i ==> plan.loads[k].expert in m
      invariant forall e :: e in m ==> SlotIn(StepPlan(plan.hits, plan.loads[..i]), e, m[e])
    {
      SlotInLoad(plan, i);
      m := m[plan.loads[i].expert := plan.loads[i].intoSlot];
      i := i + 1;
    }
    assert StepPlan(plan.hits, plan.loads[..i]) == plan;
    AllMapped(plan, requested, m);
    slots := [];
    i := 0;
    while i < |requested|
      invariant i <= |requested| == |slots| + |requested| - i
      invariant forall k :: 0 <= k < i ==> SlotIn(plan, requested[k], slots[k])
    {
      hide *;
      slots := slots + [m[requested[i]]];
      i := i + 1;
    }
  }

  lemma SlotInHit(plan: StepPlan, i: nat)
    requires i < |plan.hits|
    ensures SlotIn(StepPlan(plan.hits, plan.loads[..0]), plan.hits[i].expert, plan.hits[i].slot)
  {
  }

  lemma SlotInLoad(plan: StepPlan, i: nat)
    requires i < |plan.loads|
    ensures SlotIn(StepPlan(plan.hits, plan.loads[..i + 1]), plan.loads[i].expert, plan.loads[i].intoSlot)
    ensures forall e, s :: e != plan.loads[i].expert && SlotIn(StepPlan(plan.hits, plan.loads[..i]), e, s) ==>
      SlotIn(StepPlan(plan.hits, plan.loads[..i + 1]), e, s)
  {
    var p, q := StepPlan(plan.hits, plan.loads[..i]), StepPlan(plan.hits, plan.loads[..i + 1]);
    assert q.loads == p.loads + [plan.loads[i]];
    LoadsAppend(p.loads, plan.loads[i]);
    assert q.loads[i] == plan.loads[i];
    forall e, s | e != plan.loads[i].expert && SlotIn(p, e, s) ensures SlotIn(q, e, s) {
      if k :| 0 <= k < |p.loads| && p.loads[k].expert == e && p.loads[k].intoSlot == s {
        assert q.loads[k].expert == e && q.loads[k].intoSlot == s;
      }
    }
  }

  /** A plan that agrees with the index answers with the index. */
  lemma SlotInAgrees(plan: StepPlan, slotOf: map<ExpertRef, nat>, e: ExpertRef, s: nat)
    requires Agrees(plan, slotOf) && SlotIn(plan, e, s)
    ensures e in slotOf && slotOf[e] == s
  {
  }

  // ---- the device pool ---------------------------------------------------------------------------

  /** One 32-bit word of weights. */
  type Word = w: nat | w < 0x1_0000_0000

  /** Every occupied slot of the pool holds its occupant's weights. */
  ghost predicate PoolHolds(pool: seq<Word>, words: nat, occupant: seq<Option<ExpertRef>>,
                            weights: map<ExpertRef, seq<Word>>) {
    && |occupant| * words <= |pool|
    && (forall s :: 0 <= s < |occupant| && occupant[s].Some? ==>
      occupant[s].value in weights && |weights[occupant[s].value]| == words)
    && (forall s, w :: 0 <= s < |occupant| && 0 <= w < words && occupant[s].Some? ==>
      Flat(words, s, w) < |pool| && pool[Flat(words, s, w)] == weights[occupant[s].value][w])
  }

  lemma FlatFacts(cap: nat, words: nat, s: nat, w: nat)
    requires s < cap && w < words
    ensures Flat(words, s, w) < cap * words
    ensures forall s', w' :: 0 <= s' && 0 <= w' < words && Flat(words, s', w') == Flat(words, s, w) ==> s' == s && w' == w
  {
    Tasks.FlatBound(cap, words, s, w);
    forall s': nat, w': nat | w' < words && Flat(words, s', w') == Flat(words, s, w) ensures s' == s && w' == w {
      Tasks.FlatInjective(words, s, w, s', w');
    }
  }

  /** The first n words of a slot are written and no other slot has changed. */
  ghost predicate Staging(now: seq<Word>, was: seq<Word>, cap: nat, words: nat, slot: nat, n: nat, data: seq<Word>) {
    && |now| == |was| && n <= words == |data|
    && (forall k :: 0 <= k < n ==> Flat(words, slot, k) < |now| && now[Flat(words, slot, k)] == data[k])
    && (forall s, k :: 0 <= s < cap && s != slot && 0 <= k < words ==>
      Flat(words, s, k) < |now| && now[Flat(words, s, k)] == was[Flat(words, s, k)])
  }

  lemma StagingBegins(pool: seq<Word>, cap: nat, words: nat, slot: nat, data: seq<Word>)
    requires cap * words <= |pool| && slot < cap && words == |data|
    ensures Staging(pool, pool, cap, words, slot, 0, data)
  {
    forall s: nat, k: nat | s < cap && k < words ensures Flat(words, s, k) < |pool| {
      FlatFacts(cap, words, s, k);
    }
  }

  lemma StagingStep(now: seq<Word>, was: seq<Word>, cap: nat, words: nat, slot: nat, n: nat, data: seq<Word>)
    requires Staging(now, was, cap, words, slot, n, data) && n < words && slot < cap && cap * words <= |now|
    ensures Flat(words, slot, n) < |now|
    ensures Staging(now[Flat(words, slot, n) := data[n]], was, cap, words, slot, n + 1, data)
  {
    hide Flat;
    FlatFacts(cap, words, slot, n);
  }

  lemma StagingEnds(now: seq<Word>, was: seq<Word>, words: nat, slot: nat,
                    before: seq<Option<ExpertRef>>, weights: map<ExpertRef, seq<Word>>, e: ExpertRef)
    requires PoolHolds(was, words, before, weights) && slot < |before|
    requires e in weights && Staging(now, was, |before|, words, slot, words, weights[e])
    ensures PoolHolds(now, words, before[slot := Some(e)], weights)
  {
    hide Flat;
    var after := before[slot := Some(e)];
    forall s, w | 0 <= s < |after| && 0 <= w < words && after[s].Some?
      ensures Flat(words, s, w) < |now| && now[Flat(words, s, w)] == weights[after[s].value][w]
    {
      if s != slot {
        assert after[s] == before[s];
        assert was[Flat(words, s, w)] == weights[before[s].value][w];
        assert now[Flat(words, s, w)] == was[Flat(words, s, w)];
      }
    }
  }

  /** Stages one load: the expert's weights into its slot. */
  method Stage(pool: array<Word>, words: nat, load: Load, ghost before: seq<Option<ExpertRef>>,
               weights: map<ExpertRef, seq<Word>>)
    requires PoolHolds(pool[..], words, before, weights) && load.intoSlot < |before|
    requires load.expert in weights && |weights[load.expert]| == words
    modifies pool
    ensures PoolHolds(pool[..], words, before[load.intoSlot := Some(load.expert)], weights)
  {
    hide Flat, Staging;
    ghost var was := pool[..];
    var data := weights[load.expert];
    var w := 0;
    StagingBegins(was, |before|, words, load.intoSlot, data);
    while w < words
      invariant w <= words
      invariant Staging(pool[..], was, |before|, words, load.intoSlot, w, data)
    {
      ghost var now := pool[..];
      StagingStep(now, was, |before|, words, load.intoSlot, w, data);
      pool[Flat(words, load.intoSlot, w)] := data[w];
      assert pool[..] == now[Flat(words, load.intoSlot, w) := data[w]];
      w := w + 1;
    }
    StagingEnds(pool[..], was, words, load.intoSlot, before, weights, load.expert);
  }

  /** Stages every load of a plan, in order. */
  method StageAll(pool: array<Word>, words: nat, loads: seq<Load>, ghost before: seq<Option<ExpertRef>>,
                  ghost after: seq<Option<ExpertRef>>, weights: map<ExpertRef, seq<Word>>)
    requires PoolHolds(pool[..], words, before, weights) && LoadsLead(before, loads, after)
    requires forall k :: 0 <= k < |loads| ==> loads[k].expert in weights && |weights[loads[k].expert]| == words
    modifies pool
    ensures PoolHolds(pool[..], words, after, weights)
  {
    var i := 0;
    while i < |loads|
      invariant i <= |loads|
      invariant PoolHolds(pool[..], words, After(before, loads[..i]), weights)
    {
      hide PoolHolds;
      assert loads[..i + 1][..i] == loads[..i];
      Stage(pool, words, loads[i], After(before, loads[..i]), weights);
      i := i + 1;
    }
    assert loads[..i] == loads;
  }

  ghost predicate Gathered(dst: seq<Word>, pool: seq<Word>, idx: seq<nat>, words: nat) {
    forall s, w :: 0 <= s < |idx| && 0 <= w < words ==>
      && Flat(words, s, w) < |dst| && Flat(words, idx[s], w) < |pool|
      && dst[Flat(words, s, w)] == pool[Flat(words, idx[s], w)]
  }

  /** Every work-item but those still to do has copied its word, and nothing else has changed. */
  ghost predicate GatheredBut(dst: seq<Word>, was: seq<Word>, pool: seq<Word>, idx: seq<nat>, words: nat,
                              todo: set<(nat, nat)>) {
    && |dst| == |was|
    && (forall it :: it in todo ==> it.0 < |idx| && it.1 < words)
    && (forall s: nat, w: nat :: s < |idx| && w < words && (s, w) !in todo ==>
      && Flat(words, s, w) < |dst| && Flat(words, idx[s], w) < |pool|
      && dst[Flat(words, s, w)] == pool[Flat(words, idx[s], w)])
    && (forall j :: |idx| * words <= j < |dst| ==> dst[j] == was[j])
  }

  lemma GatherBegins(dst: seq<Word>, pool: seq<Word>, idx: seq<nat>, words: nat, todo: set<(nat, nat)>)
    requires todo == set s: nat, w: nat | s < |idx| && w < words :: (s, w)
    ensures GatheredBut(dst, dst, pool, idx, words, todo)
  {
  }

  lemma GatherStep(dst: seq<Word>, was: seq<Word>, pool: seq<Word>, idx: seq<nat>, words: nat,
                   todo: set<(nat, nat)>, it: (nat, nat))
    requires GatheredBut(dst, was, pool, idx, words, todo) && it in todo
    requires |idx| * words <= |dst| && (idx[it.0] + 1) * words <= |pool|
    ensures Flat(words, it.0, it.1) < |dst| && Flat(words, idx[it.0], it.1) < |pool|
    ensures GatheredBut(dst[Flat(words, it.0, it.1) := pool[Flat(words, idx[it.0], it.1)]], was, pool, idx, words,
                        todo - {it})
  {
    hide Flat;
    FlatFacts(|idx|, words, it.0, it.1);
    FlatFacts(idx[it.0] + 1, words, idx[it.0], it.1);
  }

  lemma GatherEnds(dst: seq<Word>, was: seq<Word>, pool: seq<Word>, idx: seq<nat>, words: nat)
    requires GatheredBut(dst, was, pool, idx, words, {})
    ensures Gathered(dst, pool, idx, words)
    ensures forall j :: |idx| * words <= j < |dst| ==> dst[j] == was[j]
  {
    hide Flat;
  }

  /**
   The gather kernel. Its work-items, one per (entry, word), run in any order: each iteration takes an
   arbitrary one that is still to do.
   */
  method GatherKernel(dst: array<Word>, pool: array<Word>, idx: seq<nat>, words: nat)
    requires dst != pool
    requires |idx| * words <= dst.Length
    requires forall k :: 0 <= k < |idx| ==> (idx[k] + 1) * words <= pool.Length
    modifies dst
    ensures Gathered(dst[..], pool[..], idx, words)
    ensures forall j :: |idx| * words <= j < dst.Length ==> dst[j] == old(dst[j])
  {
    hide Flat, GatheredBut;
    ghost var was := dst[..];
    var todo: set<(nat, nat)> := set s: nat, w: nat | s < |idx| && w < words :: (s, w);
    GatherBegins(was, pool[..], idx, words, todo);
    while todo != {}
      invariant forall it :: it in todo ==> it.0 < |idx| && it.1 < words
      invariant GatheredBut(dst[..], was, pool[..], idx, words, todo)
      decreases |todo|
    {
      ghost var now := dst[..];
      var it :| it in todo;
      GatherStep(now, was, pool[..], idx, words, todo, it);
      dst[Flat(words, it.0, it.1)] := pool[Flat(words, idx[it.0], it.1)];
      assert dst[..] == now[Flat(words, it.0, it.1) := pool[..][Flat(words, idx[it.0], it.1)]];
      todo := todo - {it};
    }
    GatherEnds(dst[..], was, pool[..], idx, words);
  }

  datatype KernelError = Misaligned(slotBytes: nat)

  /** The safe wrapper, which refuses slots that are not whole words. */
  method GatherExperts(dst: array<Word>, pool: array<Word>, idx: seq<nat>, slotBytes: nat)
    returns (r: Result<(), KernelError>)
    requires dst != pool
    requires |idx| * (slotBytes / 4) <= dst.Length
    requires forall k :: 0 <= k < |idx| ==> (idx[k] + 1) * (slotBytes / 4) <= pool.Length
    modifies dst
    ensures r == if slotBytes % 4 != 0 then Err(Misaligned(slotBytes)) else Ok(())
    ensures r.Err? ==> dst[..] == old(dst[..])
    ensures r.Ok? ==> Gathered(dst[..], pool[..], idx, slotBytes / 4)
    ensures forall j :: |idx| * (slotBytes / 4) <= j < dst.Length ==> dst[j] == old(dst[j])
  {
    if slotBytes % 4 != 0 {
      return Err(Misaligned(slotBytes));
    }
    GatherKernel(dst, pool, idx, slotBytes / 4);
    return Ok(());
  }

  // ---- end to end --------------------------------------------------------------------------------

  /**
   One step as the decode loop runs it: admit, stage the loads, look up the slots. Slot i of the answer then
   holds the weights of the i-th expert asked for, and the pool is again in step with the cache.
   */
  method ServeSlots(cache: ExpertCache, pool: array<Word>, needed: seq<ExpertRef>, words: nat,
                    weights: map<ExpertRef, seq<Word>>)
    returns (r: Result<seq<nat>, CacheError>)
    requires cache.Valid() && PoolHolds(pool[..], words, cache.occupant, weights)
    requires forall e :: e in needed ==> e in weights && |weights[e]| == words
    modifies cache, pool
    ensures cache.Valid()
    ensures r.Err? <==> |Elements(needed)| > cache.capacity
    ensures r.Err? ==> unchanged(cache) && unchanged(pool)
    ensures r.Ok? ==> cache.steps == old(cache.steps) + [needed]
    ensures PoolHolds(pool[..], words, cache.occupant, weights)
    ensures r.Ok? ==> |r.value| == |needed| && forall i :: 0 <= i < |needed| ==>
      r.value[i] < |cache.occupant| && cache.occupant[r.value[i]] == Some(needed[i])
  {
    hide *;
    var admitted := cache.Admit(needed);
    if admitted.Err? {
      return Err(admitted.error);
    }
    var plan := admitted.value;
    PlanServes(plan, needed, old(cache.occupant), old(cache.slotOf), cache.occupant, cache.slotOf);
    StageAll(pool, words, plan.loads, old(cache.occupant), cache.occupant, weights);
    var slots := SlotsFor(plan, needed);
    cache.IndexIsExact();
    SlotsAreIndexed(plan, cache.occupant, cache.slotOf, needed, slots);
    return Ok(slots);
  }

  /** The same followed by a gather: position i of the packed buffer holds the weights of the i-th expert asked for. */
  method ServeStep(cache: ExpertCache, pool: array<Word>, dst: array<Word>, needed: seq<ExpertRef>,
                   slotBytes: nat, weights: map<ExpertRef, seq<Word>>)
    returns (r: Result<seq<nat>, CacheError>)
    requires cache.Valid() && dst != pool && slotBytes % 4 == 0
    requires PoolHolds(pool[..], slotBytes / 4, cache.occupant, weights)
    requires |needed| * (slotBytes / 4) <= dst.Length
    requires forall e :: e in needed ==> e in weights && |weights[e]| == slotBytes / 4
    modifies cache, pool, dst
    ensures cache.Valid()
    ensures r.Err? <==> |Elements(needed)| > cache.capacity
    ensures r.Err? ==> unchanged(cache) && unchanged(pool) && unchanged(dst)
    ensures r.Ok? ==> cache.steps == old(cache.steps) + [needed]
    ensures PoolHolds(pool[..], slotBytes / 4, cache.occupant, weights)
    ensures r.Ok? ==> Delivers(dst[..], slotBytes / 4, needed, weights)
  {
    hide *;
    var words := slotBytes / 4;
    r := ServeSlots(cache, pool, needed, words, weights);
    if r.Ok? {
      SlotsInPool(pool[..], words, cache.occupant, weights, r.value);
      GatherKernel(dst, pool, r.value, words);
      GatheredWeights(dst[..], pool[..], words, cache.occupant, weights, needed, r.value);
    }
  }

  /** What a committed plan offers its caller. */
  lemma PlanServes(plan: StepPlan, needed: seq<ExpertRef>,
                   occupant0: seq<Option<ExpertRef>>, slotOf0: map<ExpertRef, nat>,
                   occupant: seq<Option<ExpertRef>>, slotOf: map<ExpertRef, nat>)
    requires Plans(plan, needed, Elements(needed), occupant0, slotOf0, occupant, slotOf)
    ensures LoadsLead(occupant0, plan.loads, occupant) && Agrees(plan, slotOf)
    ensures forall k :: 0 <= k < |plan.loads| ==> plan.loads[k].expert in needed
    ensures forall e :: e in needed ==> e in HitExperts(plan.hits) || e in LoadExperts(plan.loads)
  {
    hide LoadsLead, Agrees, Lists;
    ListsElements(plan, needed, Elements(needed), slotOf0.Keys);
  }

  lemma SlotsAreIndexed(plan: StepPlan, occupant: seq<Option<ExpertRef>>, slotOf: map<ExpertRef, nat>,
                        needed: seq<ExpertRef>, slots: seq<nat>)
    requires Agrees(plan, slotOf) && Indexed(occupant, slotOf) && |slots| == |needed|
    requires forall i :: 0 <= i < |needed| ==> SlotIn(plan, needed[i], slots[i])
    ensures forall i :: 0 <= i < |needed| ==> slots[i] < |occupant| && occupant[slots[i]] == Some(needed[i])
  {
    hide SlotIn, Agrees;
    forall i | 0 <= i < |needed| ensures slots[i] < |occupant| && occupant[slots[i]] == Some(needed[i]) {
      SlotInAgrees(plan, slotOf, needed[i], slots[i]);
    }
  }

  lemma SlotsInPool(pool: seq<Word>, words: nat, occupant: seq<Option<ExpertRef>>,
                    weights: map<ExpertRef, seq<Word>>, slots: seq<nat>)
    requires PoolHolds(pool, words, occupant, weights)
    requires forall i :: 0 <= i < |slots| ==> slots[i] < |occupant|
    ensures forall i :: 0 <= i < |slots| ==> (slots[i] + 1) * words <= |pool|
  {
    forall i | 0 <= i < |slots| ensures (slots[i] + 1) * words <= |pool| {
      Tasks.MulLe(words, slots[i] + 1, |occupant|);
    }
  }

  lemma GatheredWeights(dst: seq<Word>, pool: seq<Word>, words: nat, occupant: seq<Option<ExpertRef>>,
                        weights: map<ExpertRef, seq<Word>>, needed: seq<ExpertRef>, slots: seq<nat>)
    requires PoolHolds(pool, words, occupant, weights) && Gathered(dst, pool, slots, words)
    requires |slots| == |needed|
    requires forall i :: 0 <= i < |needed| ==> slots[i] < |occupant| && occupant[slots[i]] == Some(needed[i])
    requires forall e :: e in needed ==> e in weights && |weights[e]| == words
    ensures Delivers(dst, words, needed, weights)
  {
    hide Flat;
    forall i, w | 0 <= i < |needed| && 0 <= w < words
      ensures Flat(words, i, w) < |dst| && dst[Flat(words, i, w)] == weights[needed[i]][w]
    {
      var s := slots[i];
      assert occupant[s].Some? && occupant[s].value == needed[i];
      assert pool[Flat(words, s, w)] == weights[needed[i]][w];
      assert dst[Flat(words, i, w)] == pool[Flat(words, slots[i], w)];
    }
  }

  /** Entry i of the packed buffer is the weights of the i-th expert asked for. */
  ghost predicate Delivers(dst: seq<Word>, words: nat, needed: seq<ExpertRef>, weights: map<ExpertRef, seq<Word>>) {
    && (forall i :: 0 <= i < |needed| ==> needed[i] in weights && |weights[needed[i]]| == words)
    && (forall i, w :: 0 <= i < |needed| && 0 <= w < words ==>
      Flat(words, i, w) < |dst| && dst[Flat(words, i, w)] == weights[needed[i]][w])
  }

  /**
   Two caches that were given the same steps and zeroed at the same one: the smaller's residents are among
   the larger's, and the larger has missed no more since.
   */
  lemma CapacityMonotone(small: ExpertCache, large: ExpertCache)
    requires small.Valid() && large.Valid() && small.capacity <= large.capacity
    requires small.steps == large.steps && small.since == large.since
    ensures small.slotOf.Keys <= large.slotOf.Keys
    ensures large.stats.misses <= small.stats.misses
  {
    small.ResidentsAreMostRecent();
    large.ResidentsAreMostRecent();
    LargerCacheNeverWorse(small.steps, small.since, small.capacity, large.capacity);
  }
}
