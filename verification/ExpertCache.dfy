/** The live expert cache: a slot array, its reverse index and recency stamps, updated one step at a time. */
module ExpertCaching {
  import opened Wrappers
  import opened LruSpec
  import opened CacheState

  datatype CacheError = StepExceedsCapacity(needed: nat, capacity: nat) | ZeroCapacity

  datatype CacheStats = CacheStats(steps: nat, demands: nat, hits: nat, misses: nat, evictions: nat)

  const NO_STATS := CacheStats(0, 0, 0, 0, 0)

  /**
   The counters since step number `since` of a run: misses is what the declarative policy charges, every
   demand is a hit or a miss, and every miss that did not grow the resident set was an eviction.
   */
  ghost predicate Counted(stats: CacheStats, steps: seq<seq<ExpertRef>>, since: nat, capacity: nat) {
    && since <= |steps|
    && stats.steps == |steps| - since
    && stats.demands == |Demands(steps)| - |Demands(steps[..since])|
    && stats.misses == Misses(steps, capacity) - Misses(steps[..since], capacity)
    && stats.hits + stats.misses == stats.demands
    && stats.evictions == stats.misses
      - (|MostRecent(Demands(steps), capacity)| - |MostRecent(Demands(steps[..since]), capacity)|)
  }

  lemma CountedReset(steps: seq<seq<ExpertRef>>, capacity: nat)
    ensures Counted(NO_STATS, steps, |steps|, capacity)
  {
    assert steps[..|steps|] == steps;
  }

  lemma CountedStep(stats: CacheStats, steps: seq<seq<ExpertRef>>, since: nat, capacity: nat,
                    step: seq<ExpertRef>, misses: nat, stats': CacheStats)
    requires Counted(stats, steps, since, capacity)
    requires misses == |Elements(step) - MostRecent(Demands(steps), capacity)|
    requires stats'.steps == stats.steps + 1 && stats'.demands == stats.demands + |step|
    requires stats'.misses == stats.misses + misses && stats'.hits == stats.hits + |step| - misses
    requires stats'.evictions == stats.evictions + misses
      - (|MostRecent(Demands(steps + [step]), capacity)| - |MostRecent(Demands(steps), capacity)|)
    ensures Counted(stats', steps + [step], since, capacity)
  {
    assert (steps + [step])[..since] == steps[..since];
    DemandsAppend(steps, step);
    MissesAppend(steps, step, capacity);
  }

  /** A finished loop over a step's demands leaves a valid cache whose counters charge the declarative misses. */
  lemma StepCommits(occupant: seq<Option<ExpertRef>>, slotOf: map<ExpertRef, nat>, lastUsed: map<ExpertRef, nat>,
                    clock: nat, steps: seq<seq<ExpertRef>>, step: seq<ExpertRef>, plan: StepPlan,
                    occupant0: seq<Option<ExpertRef>>, slotOf0: map<ExpertRef, nat>,
                    stats: CacheStats, since: nat, stats': CacheStats)
    requires Mid(occupant, slotOf, lastUsed, clock, Demands(steps) + step, Elements(step))
    requires Plans(plan, step, Elements(step), occupant0, slotOf0, occupant, slotOf)
    requires slotOf0.Keys == MostRecent(Demands(steps), |occupant|)
    requires Counted(stats, steps, since, |occupant|)
    requires stats'.steps == stats.steps + 1 && stats'.demands == stats.demands + |step|
    requires stats'.misses == stats.misses + |plan.loads| && stats'.hits == stats.hits + |step| - |plan.loads|
    requires stats'.evictions == stats.evictions + |plan.loads| - (|slotOf| - |slotOf0|)
    ensures Mid(occupant, slotOf, lastUsed, clock, Demands(steps + [step]), {})
    ensures Counted(stats', steps + [step], since, |occupant|)
  {
    hide Counted, Demands, LastUse, FirstUses, LoadsLead, Agrees, Kept, MostRecent;
    DemandsAppend(steps, step);
    StepEnds(occupant, slotOf, lastUsed, clock, Demands(steps), step, plan, occupant0, slotOf0);
    assert slotOf.Keys == MostRecent(Demands(steps + [step]), |occupant|) by {
      ResidentsOf(occupant, slotOf, lastUsed, clock, Demands(steps + [step]));
    }
    var missed := Elements(step) - slotOf0.Keys;
    assert missed == Elements(step) * missed;
    FirstUsesElements(step, missed);
    CountedStep(stats, steps, since, |occupant|, step, |plan.loads|, stats');
  }

  lemma ResidentsOf(occupant: seq<Option<ExpertRef>>, slotOf: map<ExpertRef, nat>, lastUsed: map<ExpertRef, nat>,
                    clock: nat, t: seq<ExpertRef>)
    requires Mid(occupant, slotOf, lastUsed, clock, t, {})
    ensures slotOf.Keys == MostRecent(t, |occupant|)
    ensures |slotOf| == |occupant| || slotOf.Keys == Elements(t)
    ensures |slotOf| <= |occupant|
  {
    hide MostRecent, Indexed;
    ResidentCount(occupant, slotOf);
    ClosedIsMostRecent(t, |occupant|, slotOf.Keys);
  }

  class ExpertCache {
    const capacity: nat
    var occupant: seq<Option<ExpertRef>>
    var slotOf: map<ExpertRef, nat>
    var lastUsed: map<ExpertRef, nat>
    var clock: nat
    var stats: CacheStats
    /** Every step admitted so far, and how many had been when the counters were last zeroed. */
    ghost var steps: seq<seq<ExpertRef>>
    ghost var since: nat

    ghost predicate Valid()
      reads this
    {
      && 0 < capacity == |occupant|
      && Mid(occupant, slotOf, lastUsed, clock, Demands(steps), {})
      && Counted(stats, steps, since, capacity)
    }

    /** The resident experts are the `capacity` most recently demanded ones, or all ever demanded if fewer. */
    lemma ResidentsAreMostRecent()
      requires Valid()
      ensures slotOf.Keys == MostRecent(Demands(steps), capacity)
      ensures |slotOf| == capacity || slotOf.Keys == Elements(Demands(steps))
      ensures |slotOf| <= capacity
    {
      hide Mid, Demands, MostRecent, Elements;
      ResidentsOf(occupant, slotOf, lastUsed, clock, Demands(steps));
    }

    lemma IndexIsExact()
      requires Valid()
      ensures Indexed(occupant, slotOf)
    {
    }

    constructor Empty(capacity: nat)
      requires capacity != 0
      ensures Valid() && this.capacity == capacity && steps == [] && since == 0
      ensures occupant == seq(capacity, i => None) && stats == NO_STATS
    {
      this.capacity := capacity;
      occupant := seq(capacity, i => None);
      slotOf := map[];
      lastUsed := map[];
      clock := 0;
      stats := NO_STATS;
      steps := [];
      since := 0;
      new;
      CountedReset([], capacity);
      assert slotOf.Keys == Elements([]);
    }

    static method New(capacity: nat) returns (r: Result<ExpertCache, CacheError>)
      ensures r.Err? <==> capacity == 0
      ensures r.Err? ==> r.error == ZeroCapacity
      ensures r.Ok? ==> fresh(r.value) && r.value.Valid() && r.value.capacity == capacity
      ensures r.Ok? ==> r.value.steps == [] && r.value.since == 0
    {
      if capacity == 0 {
        return Err(ZeroCapacity);
      }
      var c := new ExpertCache.Empty(capacity);
      return Ok(c);
    }

    method ResetStats()
      requires Valid()
      modifies `stats, `since
      ensures Valid() && stats == NO_STATS && since == |steps|
    {
      stats := NO_STATS;
      since := |steps|;
      CountedReset(steps, capacity);
    }

    method FirstEmptySlot() returns (s: Option<nat>)
      ensures s.Some? ==> s.value < |occupant| && occupant[s.value].None? && Full(occupant[..s.value])
      ensures s.None? ==> Full(occupant)
    {
      var i := 0;
      while i < |occupant|
        invariant i <= |occupant| && Full(occupant[..i])
      {
        if occupant[i].None? {
          return Some(i);
        }
        i := i + 1;
      }
      assert occupant[..i] == occupant;
      return None;
    }

    /** The least recently used resident that is not pinned, whatever order the residents come in. */
    method LruVictim(pinned: set<ExpertRef>) returns (v: Option<ExpertRef>)
      requires lastUsed.Keys == slotOf.Keys
      ensures v.None? <==> slotOf.Keys <= pinned
      ensures v.Some? ==> v.value in slotOf && v.value !in pinned
      ensures v.Some? ==> forall x :: x in lastUsed && x !in pinned ==> lastUsed[v.value] <= lastUsed[x]
    {
      v := None;
      var rest := slotOf.Keys;
      while rest != {}
        invariant rest <= slotOf.Keys
        invariant v.None? <==> slotOf.Keys - rest <= pinned
        invariant v.Some? ==> v.value in slotOf && v.value !in pinned
        invariant v.Some? ==> forall x :: x in lastUsed && x !in pinned && x !in rest ==> lastUsed[v.value] <= lastUsed[x]
        decreases |rest|
      {
        var e :| e in rest;
        rest := rest - {e};
        if e !in pinned {
          if v.None? || lastUsed[e] < lastUsed[v.value] {
            v := Some(e);
          }
        }
      }
    }

    /** A slot for an absent expert of the step: an empty one, or the one of the victim, who is dropped. */
    method ClaimSlot(pinned: set<ExpertRef>, e: ExpertRef) returns (slot: nat, evicted: Option<ExpertRef>)
      requires Indexed(occupant, slotOf) && lastUsed.Keys == slotOf.Keys
      requires |pinned| <= |occupant| && e in pinned && e !in slotOf
      modifies `slotOf, `lastUsed, `stats
      ensures slot < |occupant| && occupant[slot] == evicted
      ensures evicted.None? ==> slotOf == old(slotOf) && lastUsed == old(lastUsed) && stats == old(stats)
      ensures evicted.Some? ==> IsVictim(old(slotOf), old(lastUsed), pinned, evicted.value)
      ensures evicted.Some? ==> evicted.value in old(slotOf) && evicted.value !in pinned
      ensures slotOf == Dropped(old(slotOf), evicted)
      ensures evicted.Some? ==> Full(occupant) && old(slotOf)[evicted.value] == slot
      ensures evicted.Some? ==> slotOf == old(slotOf) - {evicted.value} && lastUsed == old(lastUsed) - {evicted.value}
      ensures evicted.Some? ==> stats == old(stats).(evictions := old(stats).evictions + 1)
    {
      var empty := FirstEmptySlot();
      if empty.Some? {
        return empty.value, None;
      }
      UnpinnedResidentExists(occupant, slotOf, pinned, e);
      var victim := LruVictim(pinned);
      slot := slotOf[victim.value];
      slotOf := slotOf - {victim.value};
      lastUsed := lastUsed - {victim.value};
      stats := stats.(evictions := stats.evictions + 1);
      evicted := victim;
    }

    /** One demand of a step, whose experts are pinned; `done` are the demands of the step before it. */
    method Demand(e: ExpertRef, pinned: set<ExpertRef>, plan: StepPlan, fetched: seq<ExpertRef>,
                  ghost done: seq<ExpertRef>, ghost t: seq<ExpertRef>,
                  ghost occupant0: seq<Option<ExpertRef>>, ghost slotOf0: map<ExpertRef, nat>)
      returns (plan': StepPlan, fetched': seq<ExpertRef>)
      requires e in pinned && |pinned| <= |occupant|
      requires Mid(occupant, slotOf, lastUsed, clock, t, pinned)
      requires Plans(plan, done, pinned, occupant0, slotOf0, occupant, slotOf)
      requires fetched == LoadExperts(plan.loads)
      modifies `occupant, `slotOf, `lastUsed, `clock, `stats
      ensures |occupant| == |old(occupant)|
      ensures Mid(occupant, slotOf, lastUsed, clock, t + [e], pinned)
      ensures Plans(plan', done + [e], pinned, occupant0, slotOf0, occupant, slotOf)
      ensures fetched' == LoadExperts(plan'.loads)
      ensures stats.steps == old(stats).steps && stats.demands == old(stats).demands + 1
      ensures stats.misses == old(stats).misses + |plan'.loads| - |plan.loads|
      ensures stats.hits == old(stats).hits + 1 - (|plan'.loads| - |plan.loads|)
      ensures stats.evictions - old(stats).evictions == |plan'.loads| - |plan.loads| - (|slotOf| - |old(slotOf)|)
    {
      hide *;
      plan', fetched' := plan, fetched;
      stats := stats.(demands := stats.demands + 1);
      clock := clock + 1;
      if e in slotOf {
        MidHit(occupant, slotOf, lastUsed, clock - 1, t, pinned, e);
        PlansHit(plan, done, pinned, occupant0, slotOf0, occupant, slotOf, e);
        HitListed(plan.hits, e);
        var slot := slotOf[e];
        lastUsed := lastUsed[e := clock];
        if e in fetched {
          stats := stats.(hits := stats.hits + 1);
        } else if exists h :: h in plan.hits && h.expert == e {
          stats := stats.(hits := stats.hits + 1);
        } else {
          plan' := plan.(hits := plan.hits + [Hit(e, slot)]);
          stats := stats.(hits := stats.hits + 1);
        }
      } else {
        stats := stats.(misses := stats.misses + 1);
        fetched' := fetched + [e];
        MidKeys(occupant, slotOf, lastUsed, clock - 1, t, pinned);
        ghost var slotOf1 := slotOf;
        ghost var lastUsed1 := lastUsed;
        var slot, evicted := ClaimSlot(pinned, e);
        MapSizes(slotOf, e, slot);
        if evicted.None? {
          MidFill(occupant, slotOf, lastUsed, clock - 1, t, pinned, e, slot);
        } else {
          MidEvict(occupant, slotOf1, lastUsed1, clock - 1, t, pinned, e, evicted.value);
          MapSizes(slotOf1, evicted.value, slot);
        }
        var load := Load(e, slot, evicted);
        PlansLoad(plan, done, pinned, occupant0, slotOf0, occupant, slotOf1, load, slotOf[e := slot]);
        LoadsAppend(plan.loads, load);
        occupant := occupant[slot := Some(e)];
        slotOf := slotOf[e := slot];
        lastUsed := lastUsed[e := clock];
        plan' := plan.(loads := plan.loads + [load]);
      }
    }

    /** Plans and commits one step. */
    method Admit(needed: seq<ExpertRef>) returns (r: Result<StepPlan, CacheError>)
      requires Valid()
      modifies this
      ensures Valid() && since == old(since)
      ensures r.Err? <==> |Elements(needed)| > capacity
      ensures r.Err? ==> r.error == StepExceedsCapacity(|Elements(needed)|, capacity)
      ensures r.Err? ==> unchanged(this)
      ensures r.Ok? ==> steps == old(steps) + [needed]
      ensures r.Ok? ==> Plans(r.value, needed, Elements(needed), old(occupant), old(slotOf), occupant, slotOf)
    {
      hide Mid, Plans, Counted, Demands, MostRecent, LoadExperts;
      var distinct := set e | e in needed;
      assert distinct == Elements(needed);
      if |distinct| > capacity {
        return Err(StepExceedsCapacity(|distinct|, capacity));
      }
      ghost var t0 := Demands(steps);
      ResidentsAreMostRecent();
      StepBegins(occupant, slotOf, lastUsed, clock, t0, distinct);

      stats := stats.(steps := stats.steps + 1);
      var plan := StepPlan([], []);
      var fetchedThisStep: seq<ExpertRef> := [];
      var i := 0;
      assert t0 + needed[..0] == t0;
      while i < |needed|
        invariant i <= |needed|
        invariant 0 < capacity == |occupant|
        invariant steps == old(steps) && since == old(since)
        invariant Mid(occupant, slotOf, lastUsed, clock, t0 + needed[..i], distinct)
        invariant Plans(plan, needed[..i], distinct, old(occupant), old(slotOf), occupant, slotOf)
        invariant fetchedThisStep == LoadExperts(plan.loads)
        invariant stats.steps == old(stats).steps + 1 && stats.demands == old(stats).demands + i
        invariant stats.misses == old(stats).misses + |plan.loads|
        invariant stats.hits == old(stats).hits + i - |plan.loads|
        invariant stats.evictions == old(stats).evictions + |plan.loads| - (|slotOf| - |old(slotOf)|)
      {
        hide *;
        assert needed[..i + 1] == needed[..i] + [needed[i]];
        assert (t0 + needed[..i]) + [needed[i]] == t0 + needed[..i + 1];
        plan, fetchedThisStep := Demand(needed[i], distinct, plan, fetchedThisStep,
                                        needed[..i], t0 + needed[..i], old(occupant), old(slotOf));
        i := i + 1;
      }
      assert needed[..i] == needed;
      StepCommits(occupant, slotOf, lastUsed, clock, steps, needed, plan, old(occupant), old(slotOf),
                  old(stats), since, stats);
      steps := steps + [needed];
      return Ok(plan);
    }
  }
}
