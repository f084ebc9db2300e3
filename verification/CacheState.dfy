/** What a step does to the cache's indexes: the facts every demand keeps, and the plan as a list of writes. */
module CacheState {
  import opened Wrappers
  import opened FiniteSets
  import opened LruSpec

  datatype Hit = Hit(expert: ExpertRef, slot: nat)
  datatype Load = Load(expert: ExpertRef, intoSlot: nat, evicted: Option<ExpertRef>)
  datatype StepPlan = StepPlan(hits: seq<Hit>, loads: seq<Load>)

  /** The reverse index names exactly the occupied slots. */
  ghost predicate Indexed(occupant: seq<Option<ExpertRef>>, slotOf: map<ExpertRef, nat>) {
    && (forall e :: e in slotOf ==> slotOf[e] < |occupant| && occupant[slotOf[e]] == Some(e))
    && (forall s :: 0 <= s < |occupant| && occupant[s].Some? ==>
      occupant[s].value in slotOf && slotOf[occupant[s].value] == s)
  }

  /** The recency stamp of a resident expert is the time of its last demand in the trace t. */
  ghost predicate Stamped(slotOf: map<ExpertRef, nat>, lastUsed: map<ExpertRef, nat>, clock: nat, t: seq<ExpertRef>) {
    && lastUsed.Keys == slotOf.Keys <= Elements(t)
    && clock == |t|
    && (forall e :: e in lastUsed ==> e in t && lastUsed[e] == LastUse(t, e) + 1)
  }

  /** Everyone demanded more recently than an unpinned resident is resident. */
  ghost predicate Closed(t: seq<ExpertRef>, res: set<ExpertRef>, pinned: set<ExpertRef>) {
    forall a, b :: a in t && b in t && b in res && b !in pinned && LastUse(t, a) > LastUse(t, b) ==> a in res
  }

  ghost predicate Full(occupant: seq<Option<ExpertRef>>) {
    forall s :: 0 <= s < |occupant| ==> occupant[s].Some?
  }

  /** What holds between two demands of a step whose experts are pinned. */
  ghost predicate Mid(occupant: seq<Option<ExpertRef>>, slotOf: map<ExpertRef, nat>, lastUsed: map<ExpertRef, nat>,
                      clock: nat, t: seq<ExpertRef>, pinned: set<ExpertRef>) {
    && Indexed(occupant, slotOf)
    && Stamped(slotOf, lastUsed, clock, t)
    && Closed(t, slotOf.Keys, pinned)
    && (Full(occupant) || slotOf.Keys == Elements(t))
  }

  // ---- occupancy ---------------------------------------------------------------------------------

  ghost predicate Distinct(o: seq<Option<ExpertRef>>) {
    forall i, j :: 0 <= i < j < |o| && o[i].Some? ==> o[i] != o[j]
  }

  ghost function Occupants(o: seq<Option<ExpertRef>>): (r: set<ExpertRef>)
    ensures forall e :: e in r <==> Some(e) in o
  {
    if o == [] then {}
    else
      var n := |o| - 1;
      assert o == o[..n] + [o[n]];
      Occupants(o[..n]) + (if o[n].Some? then {o[n].value} else {})
  }

  lemma LastSlot(o: seq<Option<ExpertRef>>)
    requires o != [] && Distinct(o)
    ensures var n := |o| - 1; Distinct(o[..n]) && (o[n].Some? ==> o[n] !in o[..n])
    ensures var n := |o| - 1; Full(o) <==> Full(o[..n]) && o[n].Some?
  {
    var n := |o| - 1;
    assert forall i :: 0 <= i < n ==> o[..n][i] == o[i];
  }

  lemma {:induction false} OccupantsCount(o: seq<Option<ExpertRef>>)
    requires Distinct(o)
    ensures |Occupants(o)| <= |o|
    ensures Full(o) <==> |Occupants(o)| == |o|
  {
    if o == [] {
      assert Full(o);
    } else {
      hide Full, Distinct;
      var n := |o| - 1;
      LastSlot(o);
      OccupantsCount(o[..n]);
      assert o[n].Some? ==> o[n].value !in Occupants(o[..n]);
    }
  }

  lemma ResidentCount(occupant: seq<Option<ExpertRef>>, slotOf: map<ExpertRef, nat>)
    requires Indexed(occupant, slotOf)
    ensures |slotOf| <= |occupant|
    ensures Full(occupant) <==> |slotOf| == |occupant|
  {
    assert Distinct(occupant);
    OccupantsCount(occupant);
    assert slotOf.Keys == Occupants(occupant);
  }

  /** With every slot full, a step that fits and still misses one of its experts leaves somebody to evict. */
  lemma UnpinnedResidentExists(occupant: seq<Option<ExpertRef>>, slotOf: map<ExpertRef, nat>,
                               pinned: set<ExpertRef>, e: ExpertRef)
    requires Indexed(occupant, slotOf) && Full(occupant)
    requires |pinned| <= |occupant| && e in pinned && e !in slotOf
    ensures exists v :: v in slotOf && v !in pinned
  {
    if slotOf.Keys <= pinned {
      ResidentCount(occupant, slotOf);
      SubsetSize(slotOf.Keys, pinned - {e});
    }
  }

  /** Nobody unpinned was used less recently. */
  ghost predicate IsVictim(slotOf: map<ExpertRef, nat>, lastUsed: map<ExpertRef, nat>, pinned: set<ExpertRef>,
                           v: ExpertRef) {
    && v in slotOf && v in lastUsed && v !in pinned
    && (forall x :: x in lastUsed && x !in pinned ==> lastUsed[v] <= lastUsed[x])
  }

  // ---- one demand --------------------------------------------------------------------------------

  lemma IndexedPut(occupant: seq<Option<ExpertRef>>, slotOf: map<ExpertRef, nat>, e: ExpertRef, s: nat)
    requires Indexed(occupant, slotOf) && e !in slotOf && s < |occupant| && occupant[s].None?
    ensures Indexed(occupant[s := Some(e)], slotOf[e := s])
  {
  }

  lemma IndexedReplace(occupant: seq<Option<ExpertRef>>, slotOf: map<ExpertRef, nat>, e: ExpertRef, v: ExpertRef)
    requires Indexed(occupant, slotOf) && e !in slotOf && v in slotOf
    ensures slotOf[v] < |occupant|
    ensures Indexed(occupant[slotOf[v] := Some(e)], (slotOf - {v})[e := slotOf[v]])
    ensures Full(occupant) ==> Full(occupant[slotOf[v] := Some(e)])
  {
    var s, occ, m := slotOf[v], occupant[slotOf[v] := Some(e)], (slotOf - {v})[e := slotOf[v]];
    forall x | x in m ensures m[x] < |occ| && occ[m[x]] == Some(x) {
      assert x == e || (x in slotOf && x != v && slotOf[x] != s);
    }
    forall k | 0 <= k < |occ| && occ[k].Some? ensures occ[k].value in m && m[occ[k].value] == k {
      assert k == s || (occ[k] == occupant[k] && occ[k].value in slotOf && occ[k].value != v);
    }
  }

  lemma StampedTouch(slotOf: map<ExpertRef, nat>, lastUsed: map<ExpertRef, nat>, clock: nat, t: seq<ExpertRef>,
                     slotOf': map<ExpertRef, nat>, lastUsed': map<ExpertRef, nat>, e: ExpertRef)
    requires Stamped(slotOf, lastUsed, clock, t)
    requires lastUsed'.Keys == slotOf'.Keys <= slotOf.Keys + {e}
    requires forall x :: x in lastUsed' ==> lastUsed'[x] == if x == e then clock + 1 else lastUsed[x]
    ensures Stamped(slotOf', lastUsed', clock + 1, t + [e])
  {
    LastUseAppend(t, e);
  }

  lemma ClosedTouch(t: seq<ExpertRef>, res: set<ExpertRef>, pinned: set<ExpertRef>, e: ExpertRef)
    requires Closed(t, res, pinned) && e in pinned
    ensures Closed(t + [e], res + {e}, pinned)
  {
    LastUseAppend(t, e);
    hide LastUse;
    var t' := t + [e];
    forall a, b | a in t' && b in t' && b in res && b !in pinned && LastUse(t', a) > LastUse(t', b)
      ensures a in res + {e}
    {
      if a != e {
        assert a in t && b in t;
      }
    }
  }

  /** Dropping the least recently used of the unpinned residents leaves no gap. */
  lemma ClosedDrop(t: seq<ExpertRef>, res: set<ExpertRef>, pinned: set<ExpertRef>, v: ExpertRef)
    requires Closed(t, res, pinned) && v in t
    requires forall x :: x in t && x in res && x !in pinned ==> LastUse(t, v) <= LastUse(t, x)
    ensures Closed(t, res - {v}, pinned)
  {
  }

  lemma MidHit(occupant: seq<Option<ExpertRef>>, slotOf: map<ExpertRef, nat>, lastUsed: map<ExpertRef, nat>,
               clock: nat, t: seq<ExpertRef>, pinned: set<ExpertRef>, e: ExpertRef)
    requires Mid(occupant, slotOf, lastUsed, clock, t, pinned) && e in slotOf && e in pinned
    ensures Mid(occupant, slotOf, lastUsed[e := clock + 1], clock + 1, t + [e], pinned)
  {
    hide Closed, Full, Indexed, LastUse;
    LastUseAppend(t, e);
    assert Elements(t + [e]) == Elements(t);
    StampedTouch(slotOf, lastUsed, clock, t, slotOf, lastUsed[e := clock + 1], e);
    ClosedTouch(t, slotOf.Keys, pinned, e);
    assert slotOf.Keys + {e} == slotOf.Keys;
  }

  lemma MidFill(occupant: seq<Option<ExpertRef>>, slotOf: map<ExpertRef, nat>, lastUsed: map<ExpertRef, nat>,
                clock: nat, t: seq<ExpertRef>, pinned: set<ExpertRef>, e: ExpertRef, s: nat)
    requires Mid(occupant, slotOf, lastUsed, clock, t, pinned) && e !in slotOf && e in pinned
    requires s < |occupant| && occupant[s].None?
    ensures Mid(occupant[s := Some(e)], slotOf[e := s], lastUsed[e := clock + 1], clock + 1, t + [e], pinned)
  {
    hide Closed, Indexed, LastUse, Elements;
    LastUseAppend(t, e);
    assert !Full(occupant);
    assert slotOf[e := s].Keys == slotOf.Keys + {e} == Elements(t + [e]);
    assert lastUsed[e := clock + 1].Keys == lastUsed.Keys + {e};
    IndexedPut(occupant, slotOf, e, s);
    StampedTouch(slotOf, lastUsed, clock, t, slotOf[e := s], lastUsed[e := clock + 1], e);
    ClosedTouch(t, slotOf.Keys, pinned, e);
  }

  lemma MidEvict(occupant: seq<Option<ExpertRef>>, slotOf: map<ExpertRef, nat>, lastUsed: map<ExpertRef, nat>,
                 clock: nat, t: seq<ExpertRef>, pinned: set<ExpertRef>, e: ExpertRef, v: ExpertRef)
    requires Mid(occupant, slotOf, lastUsed, clock, t, pinned) && e !in slotOf && e in pinned && Full(occupant)
    requires IsVictim(slotOf, lastUsed, pinned, v)
    ensures v in slotOf && slotOf[v] < |occupant|
    ensures Mid(occupant[slotOf[v] := Some(e)], (slotOf - {v})[e := slotOf[v]], (lastUsed - {v})[e := clock + 1],
                clock + 1, t + [e], pinned)
  {
    hide Closed, LastUse, Elements, Indexed, Full, Stamped, IsVictim;
    VictimIsOldest(slotOf, lastUsed, clock, t, pinned, v);
    IndexedReplace(occupant, slotOf, e, v);
    var slotOf', lastUsed' := (slotOf - {v})[e := slotOf[v]], (lastUsed - {v})[e := clock + 1];
    assert slotOf'.Keys == slotOf.Keys - {v} + {e};
    assert lastUsed'.Keys == lastUsed.Keys - {v} + {e};
    StampedTouch(slotOf, lastUsed, clock, t, slotOf', lastUsed', e);
    ClosedDrop(t, slotOf.Keys, pinned, v);
    ClosedTouch(t, slotOf.Keys - {v}, pinned, e);
  }

  lemma VictimIsOldest(slotOf: map<ExpertRef, nat>, lastUsed: map<ExpertRef, nat>, clock: nat, t: seq<ExpertRef>,
                       pinned: set<ExpertRef>, v: ExpertRef)
    requires Stamped(slotOf, lastUsed, clock, t) && IsVictim(slotOf, lastUsed, pinned, v)
    ensures lastUsed.Keys == slotOf.Keys && v in slotOf && v in t && v !in pinned
    ensures forall x :: x in t && x in slotOf.Keys && x !in pinned ==> LastUse(t, v) <= LastUse(t, x)
  {
    hide LastUse;
  }

  /** The victim does not depend on the order in which the residents are enumerated. */
  lemma VictimUnique(occupant: seq<Option<ExpertRef>>, slotOf: map<ExpertRef, nat>, lastUsed: map<ExpertRef, nat>,
                     clock: nat, t: seq<ExpertRef>, pinned: set<ExpertRef>, v: ExpertRef, w: ExpertRef)
    requires Mid(occupant, slotOf, lastUsed, clock, t, pinned)
    requires IsVictim(slotOf, lastUsed, pinned, v) && IsVictim(slotOf, lastUsed, pinned, w)
    ensures v == w
  {
    LastUseInjective(t, v, w);
  }

  lemma {:induction false} LastUseIsLast(t: seq<ExpertRef>, e: ExpertRef, k: nat)
    requires k < |t| && t[k] == e
    ensures LastUse(t, e) >= k
  {
    var n := |t| - 1;
    if t[n] != e {
      LastUseIsLast(t[..n], e, k);
    }
  }

  /** Once every expert of the step has been demanded, nobody needs the pins. */
  lemma ClosedAfterStep(before: seq<ExpertRef>, step: seq<ExpertRef>, res: set<ExpertRef>)
    requires Closed(before + step, res, Elements(step)) && Elements(step) <= res
    ensures Closed(before + step, res, {})
  {
    hide LastUse;
    var t := before + step;
    forall a, b | a in t && b in res && b in t && LastUse(t, a) > LastUse(t, b) ensures a in res {
      if b in Elements(step) {
        var k :| 0 <= k < |step| && step[k] == b;
        assert t[|before| + k] == b;
        LastUseIsLast(t, b, |before| + k);
        assert a == step[LastUse(t, a) - |before|];
        assert a in Elements(step);
      }
    }
  }

  // ---- plans -------------------------------------------------------------------------------------

  /** The experts of s that are in keep, each once, in the order of their first mention. */
  ghost function FirstUses(s: seq<ExpertRef>, keep: set<ExpertRef>): seq<ExpertRef> {
    if s == [] then []
    else
      var n := |s| - 1;
      FirstUses(s[..n], keep) + (if s[n] in keep && s[n] !in s[..n] then [s[n]] else [])
  }

  lemma FirstUsesAppend(s: seq<ExpertRef>, keep: set<ExpertRef>, e: ExpertRef)
    ensures FirstUses(s + [e], keep) == FirstUses(s, keep) + (if e in keep && e !in s then [e] else [])
  {
    assert (s + [e])[..|s|] == s;
  }

  lemma ElementsAppend(s: seq<ExpertRef>, e: ExpertRef, keep: set<ExpertRef>)
    ensures |Elements(s + [e]) * keep| == |Elements(s) * keep| + (if e in keep && e !in s then 1 else 0)
  {
    if e in keep && e !in s {
      assert Elements(s + [e]) * keep == Elements(s) * keep + {e};
    } else {
      assert Elements(s + [e]) * keep == Elements(s) * keep;
    }
  }

  lemma {:induction false} FirstUsesElements(s: seq<ExpertRef>, keep: set<ExpertRef>)
    ensures forall e :: e in FirstUses(s, keep) <==> e in s && e in keep
    ensures |FirstUses(s, keep)| == |Elements(s) * keep|
  {
    if s == [] {
      assert Elements(s) * keep == {};
    } else {
      hide Elements;
      var n := |s| - 1;
      FirstUsesElements(s[..n], keep);
      assert s == s[..n] + [s[n]];
      ElementsAppend(s[..n], s[n], keep);
    }
  }

  /** An expert listed before another was demanded before it was demanded at all. */
  lemma {:induction false} FirstUsesInOrder(s: seq<ExpertRef>, keep: set<ExpertRef>, i: nat, j: nat)
    requires i < j < |FirstUses(s, keep)|
    ensures exists p :: 0 <= p < |s| && s[p] == FirstUses(s, keep)[i] && FirstUses(s, keep)[j] !in s[..p + 1]
  {
    var n := |s| - 1;
    var before := FirstUses(s[..n], keep);
    var a, b := FirstUses(s, keep)[i], FirstUses(s, keep)[j];
    FirstUsesElements(s[..n], keep);
    if j < |before| {
      FirstUsesInOrder(s[..n], keep, i, j);
      var p :| 0 <= p < n && s[..n][p] == a && b !in s[..n][..p + 1];
      assert s[..n][..p + 1] == s[..p + 1];
      assert s[p] == a;
    } else {
      assert a in before;
      var p :| 0 <= p < n && s[..n][p] == a;
      assert b == s[n] && b !in s[..n];
      assert forall q :: 0 <= q < p + 1 ==> s[..p + 1][q] == s[..n][q];
      assert s[p] == a;
    }
  }

  ghost function HitExperts(hits: seq<Hit>): (r: seq<ExpertRef>)
    ensures |r| == |hits| && forall k :: 0 <= k < |hits| ==> r[k] == hits[k].expert
  {
    seq(|hits|, k requires 0 <= k < |hits| => hits[k].expert)
  }

  ghost function LoadExperts(loads: seq<Load>): (r: seq<ExpertRef>)
    ensures |r| == |loads| && forall k :: 0 <= k < |loads| ==> r[k] == loads[k].expert
  {
    seq(|loads|, k requires 0 <= k < |loads| => loads[k].expert)
  }

  lemma HitListed(hits: seq<Hit>, e: ExpertRef)
    ensures e in HitExperts(hits) <==> exists h :: h in hits && h.expert == e
  {
    if e in HitExperts(hits) {
      var k :| 0 <= k < |hits| && HitExperts(hits)[k] == e;
      assert hits[k] in hits;
    }
  }

  lemma LoadsAppend(loads: seq<Load>, l: Load)
    ensures LoadExperts(loads + [l]) == LoadExperts(loads) + [l.expert]
  {
  }

  lemma MapSizes(m: map<ExpertRef, nat>, e: ExpertRef, s: nat)
    ensures e !in m ==> |m[e := s]| == |m| + 1
    ensures e in m ==> |m - {e}| == |m| - 1
  {
    if e in m {
      assert m.Keys == (m - {e}).Keys + {e};
    } else {
      assert m[e := s].Keys == m.Keys + {e};
    }
  }

  /** The occupants once the loads have been executed, in order. */
  ghost function After(before: seq<Option<ExpertRef>>, loads: seq<Load>): (r: seq<Option<ExpertRef>>)
    ensures |r| == |before|
  {
    if loads == [] then before
    else
      var n := |loads| - 1;
      var m := After(before, loads[..n]);
      if loads[n].intoSlot < |m| then m[loads[n].intoSlot := Some(loads[n].expert)] else m
  }

  /** The loads lead from one occupancy to another, and each reports exactly whom it displaces. */
  ghost predicate LoadsLead(before: seq<Option<ExpertRef>>, loads: seq<Load>, after: seq<Option<ExpertRef>>) {
    && after == After(before, loads)
    && (forall k :: 0 <= k < |loads| ==>
      loads[k].intoSlot < |before| && After(before, loads[..k])[loads[k].intoSlot] == loads[k].evicted)
  }

  lemma LoadsLeadAppend(before: seq<Option<ExpertRef>>, loads: seq<Load>, mid: seq<Option<ExpertRef>>, l: Load)
    requires LoadsLead(before, loads, mid) && l.intoSlot < |mid| && mid[l.intoSlot] == l.evicted
    ensures LoadsLead(before, loads + [l], mid[l.intoSlot := Some(l.expert)])
  {
    var more := loads + [l];
    assert more[..|loads|] == loads;
    forall k | 0 <= k < |more|
      ensures more[k].intoSlot < |before| && After(before, more[..k])[more[k].intoSlot] == more[k].evicted
    {
      assert more[..k] == loads[..k];
      if k == |loads| {
        assert loads[..k] == loads;
      }
    }
  }

  /** Every entry of the plan names the slot its expert has in the index. */
  ghost predicate Agrees(plan: StepPlan, slotOf: map<ExpertRef, nat>) {
    && (forall k :: 0 <= k < |plan.hits| ==>
      plan.hits[k].expert in slotOf && slotOf[plan.hits[k].expert] == plan.hits[k].slot)
    && (forall k :: 0 <= k < |plan.loads| ==>
      plan.loads[k].expert in slotOf && slotOf[plan.loads[k].expert] == plan.loads[k].intoSlot)
  }

  /** Hits are the experts resident at the start, loads the others, each once, in order of first mention. */
  ghost predicate Lists(plan: StepPlan, done: seq<ExpertRef>, pinned: set<ExpertRef>, res0: set<ExpertRef>) {
    && HitExperts(plan.hits) == FirstUses(done, pinned * res0)
    && LoadExperts(plan.loads) == FirstUses(done, pinned - res0)
  }

  /** Nobody the step needs has been moved or displaced, and whoever was demanded is in. */
  ghost predicate Kept(plan: StepPlan, done: seq<ExpertRef>, pinned: set<ExpertRef>,
                       slotOf0: map<ExpertRef, nat>, slotOf: map<ExpertRef, nat>) {
    && (forall e :: e in pinned && e in slotOf0 ==> e in slotOf && slotOf[e] == slotOf0[e])
    && (forall e :: e in pinned && e in slotOf ==> e in slotOf0 || e in done)
    && (forall e :: e in done ==> e in slotOf && e in pinned)
    && (forall k :: 0 <= k < |plan.loads| && plan.loads[k].evicted.Some? ==> plan.loads[k].evicted.value !in pinned)
  }

  /** The plan of a step, or of the first demands of one, against the state the step started from. */
  ghost predicate Plans(plan: StepPlan, done: seq<ExpertRef>, pinned: set<ExpertRef>,
                        occupant0: seq<Option<ExpertRef>>, slotOf0: map<ExpertRef, nat>,
                        occupant: seq<Option<ExpertRef>>, slotOf: map<ExpertRef, nat>) {
    && Lists(plan, done, pinned, slotOf0.Keys)
    && LoadsLead(occupant0, plan.loads, occupant)
    && Agrees(plan, slotOf)
    && Kept(plan, done, pinned, slotOf0, slotOf)
  }

  lemma ListsElements(plan: StepPlan, done: seq<ExpertRef>, pinned: set<ExpertRef>, res0: set<ExpertRef>)
    requires Lists(plan, done, pinned, res0)
    ensures forall k :: 0 <= k < |plan.hits| ==>
      plan.hits[k].expert in done && plan.hits[k].expert in pinned && plan.hits[k].expert in res0
    ensures forall k :: 0 <= k < |plan.loads| ==>
      plan.loads[k].expert in done && plan.loads[k].expert in pinned && plan.loads[k].expert !in res0
    ensures forall e :: e in done && e in pinned && e in res0 ==> e in HitExperts(plan.hits)
    ensures forall e :: e in done && e in pinned && e !in res0 ==> e in LoadExperts(plan.loads)
  {
    hide FirstUses;
    FirstUsesElements(done, pinned * res0);
    FirstUsesElements(done, pinned - res0);
    forall k | 0 <= k < |plan.hits|
      ensures plan.hits[k].expert in done && plan.hits[k].expert in pinned && plan.hits[k].expert in res0
    {
      assert HitExperts(plan.hits)[k] in FirstUses(done, pinned * res0);
    }
    forall k | 0 <= k < |plan.loads|
      ensures plan.loads[k].expert in done && plan.loads[k].expert in pinned && plan.loads[k].expert !in res0
    {
      assert LoadExperts(plan.loads)[k] in FirstUses(done, pinned - res0);
    }
  }

  /** A repeated demand is already in the plan and leaves it alone; a first hit is appended. */
  lemma PlansHit(plan: StepPlan, done: seq<ExpertRef>, pinned: set<ExpertRef>,
                 occupant0: seq<Option<ExpertRef>>, slotOf0: map<ExpertRef, nat>,
                 occupant: seq<Option<ExpertRef>>, slotOf: map<ExpertRef, nat>, e: ExpertRef)
    requires Plans(plan, done, pinned, occupant0, slotOf0, occupant, slotOf) && e in slotOf && e in pinned
    ensures e in done <==> e in LoadExperts(plan.loads) || e in HitExperts(plan.hits)
    ensures var plan' := if e in done then plan else plan.(hits := plan.hits + [Hit(e, slotOf[e])]);
      Plans(plan', done + [e], pinned, occupant0, slotOf0, occupant, slotOf)
  {
    hide LoadsLead, FirstUses, HitExperts, LoadExperts;
    assert e in done <==> e in LoadExperts(plan.loads) || e in HitExperts(plan.hits) by {
      ListsElements(plan, done, pinned, slotOf0.Keys);
    }
    FirstUsesAppend(done, pinned * slotOf0.Keys, e);
    FirstUsesAppend(done, pinned - slotOf0.Keys, e);
    if e !in done {
      assert HitExperts(plan.hits + [Hit(e, slotOf[e])]) == HitExperts(plan.hits) + [e];
    }
  }

  /** The index without the expert a load displaces. */
  ghost function Dropped(slotOf: map<ExpertRef, nat>, evicted: Option<ExpertRef>): map<ExpertRef, nat> {
    if evicted.Some? then slotOf - {evicted.value} else slotOf
  }

  lemma AgreesLoad(plan: StepPlan, done: seq<ExpertRef>, pinned: set<ExpertRef>, res0: set<ExpertRef>,
                   slotOf: map<ExpertRef, nat>, l: Load, slotOf': map<ExpertRef, nat>)
    requires Lists(plan, done, pinned, res0) && Agrees(plan, slotOf) && l.expert !in slotOf
    requires l.evicted.Some? ==> l.evicted.value !in pinned
    requires slotOf' == Dropped(slotOf, l.evicted)[l.expert := l.intoSlot]
    ensures Agrees(plan.(loads := plan.loads + [l]), slotOf')
  {
    hide Lists;
    ListsElements(plan, done, pinned, res0);
  }

  lemma KeptLoad(plan: StepPlan, done: seq<ExpertRef>, pinned: set<ExpertRef>,
                 slotOf0: map<ExpertRef, nat>, slotOf: map<ExpertRef, nat>, l: Load, slotOf': map<ExpertRef, nat>)
    requires Kept(plan, done, pinned, slotOf0, slotOf) && l.expert !in slotOf && l.expert in pinned
    requires l.evicted.Some? ==> l.evicted.value !in pinned
    requires slotOf' == Dropped(slotOf, l.evicted)[l.expert := l.intoSlot]
    ensures Kept(plan.(loads := plan.loads + [l]), done + [l.expert], pinned, slotOf0, slotOf')
  {
  }

  lemma PlansLoad(plan: StepPlan, done: seq<ExpertRef>, pinned: set<ExpertRef>,
                  occupant0: seq<Option<ExpertRef>>, slotOf0: map<ExpertRef, nat>,
                  occupant: seq<Option<ExpertRef>>, slotOf: map<ExpertRef, nat>,
                  l: Load, slotOf': map<ExpertRef, nat>)
    requires Plans(plan, done, pinned, occupant0, slotOf0, occupant, slotOf)
    requires l.expert !in slotOf && l.expert in pinned && l.intoSlot < |occupant| && occupant[l.intoSlot] == l.evicted
    requires l.evicted.Some? ==> l.evicted.value !in pinned
    requires slotOf' == Dropped(slotOf, l.evicted)[l.expert := l.intoSlot]
    ensures Plans(plan.(loads := plan.loads + [l]), done + [l.expert], pinned, occupant0, slotOf0,
                  occupant[l.intoSlot := Some(l.expert)], slotOf')
  {
    hide LoadsLead, FirstUses, HitExperts, LoadExperts, Agrees;
    var e := l.expert;
    FirstUsesAppend(done, pinned * slotOf0.Keys, e);
    FirstUsesAppend(done, pinned - slotOf0.Keys, e);
    assert LoadExperts(plan.loads + [l]) == LoadExperts(plan.loads) + [e];
    LoadsLeadAppend(occupant0, plan.loads, occupant, l);
    AgreesLoad(plan, done, pinned, slotOf0.Keys, slotOf, l, slotOf');
    KeptLoad(plan, done, pinned, slotOf0, slotOf, l, slotOf');
  }

  lemma MidKeys(occupant: seq<Option<ExpertRef>>, slotOf: map<ExpertRef, nat>, lastUsed: map<ExpertRef, nat>,
                clock: nat, t: seq<ExpertRef>, pinned: set<ExpertRef>)
    requires Mid(occupant, slotOf, lastUsed, clock, t, pinned)
    ensures lastUsed.Keys == slotOf.Keys && Indexed(occupant, slotOf)
  {
  }

  lemma StepBegins(occupant: seq<Option<ExpertRef>>, slotOf: map<ExpertRef, nat>, lastUsed: map<ExpertRef, nat>,
                   clock: nat, t: seq<ExpertRef>, pinned: set<ExpertRef>)
    requires Mid(occupant, slotOf, lastUsed, clock, t, {})
    ensures Mid(occupant, slotOf, lastUsed, clock, t, pinned)
    ensures Plans(StepPlan([], []), [], pinned, occupant, slotOf, occupant, slotOf)
    ensures LoadExperts([]) == []
  {
    hide Indexed, Stamped;
  }

  lemma StepEnds(occupant: seq<Option<ExpertRef>>, slotOf: map<ExpertRef, nat>, lastUsed: map<ExpertRef, nat>,
                 clock: nat, t: seq<ExpertRef>, step: seq<ExpertRef>, plan: StepPlan,
                 occupant0: seq<Option<ExpertRef>>, slotOf0: map<ExpertRef, nat>)
    requires Mid(occupant, slotOf, lastUsed, clock, t + step, Elements(step))
    requires Plans(plan, step, Elements(step), occupant0, slotOf0, occupant, slotOf)
    ensures Mid(occupant, slotOf, lastUsed, clock, t + step, {})
  {
    hide Indexed, Stamped, Lists, LoadsLead, Agrees;
    ClosedAfterStep(t, step, slotOf.Keys);
  }
}
