/** Least-recently-used residency, declaratively: who is in a cache of c slots after a trace of demands. */
module LruSpec {
  import opened FiniteSets

  datatype ExpertRef = ExpertRef(layer: nat, expert: nat)

  ghost function Elements(t: seq<ExpertRef>): set<ExpertRef> {
    set e | e in t
  }

  /** Position of the last demand of e. */
  ghost function LastUse(t: seq<ExpertRef>, e: ExpertRef): (i: nat)
    requires e in t
    ensures i < |t| && t[i] == e && e !in t[i + 1..]
  {
    if t[|t| - 1] == e then |t| - 1
    else
      var i := LastUse(t[..|t| - 1], e);
      assert t[i + 1..] == t[..|t| - 1][i + 1..] + [t[|t| - 1]];
      i
  }

  /** The distinct experts demanded more recently than e. */
  ghost function Newer(t: seq<ExpertRef>, e: ExpertRef): set<ExpertRef>
    requires e in t
  {
    set x | x in t && LastUse(t, x) > LastUse(t, e)
  }

  /** The c most recently demanded distinct experts of t, or all of them if there are fewer. */
  ghost function MostRecent(t: seq<ExpertRef>, c: nat): set<ExpertRef> {
    set e | e in t && |Newer(t, e)| < c
  }

  lemma LastUseAppend(t: seq<ExpertRef>, e: ExpertRef)
    ensures LastUse(t + [e], e) == |t|
    ensures forall x :: x in t && x != e ==> x in t + [e] && LastUse(t + [e], x) == LastUse(t, x)
    ensures Elements(t + [e]) == Elements(t) + {e}
  {
    assert (t + [e])[..|t|] == t;
    assert forall x :: x in t + [e] <==> x in t || x == e;
  }

  lemma LastUseInjective(t: seq<ExpertRef>, a: ExpertRef, b: ExpertRef)
    requires a in t && b in t && LastUse(t, a) == LastUse(t, b)
    ensures a == b
  {
  }

  /** A set of demanded experts that is closed under being more recent, and full or complete, is MostRecent. */
  lemma ClosedIsMostRecent(t: seq<ExpertRef>, c: nat, res: set<ExpertRef>)
    requires res <= Elements(t) && |res| <= c && (|res| == c || res == Elements(t))
    requires forall a, b :: a in t && b in res && LastUse(t, a) > LastUse(t, b) ==> a in res
    ensures res == MostRecent(t, c)
  {
    forall e | e in t ensures e in res <==> |Newer(t, e)| < c {
      if e in res {
        SubsetSize(Newer(t, e), res - {e});
      } else {
        forall b | b in res ensures b in Newer(t, e) {
          if LastUse(t, b) == LastUse(t, e) {
            LastUseInjective(t, b, e);
          }
        }
        SubsetSize(res, Newer(t, e));
      }
    }
  }

  // ---- steps -------------------------------------------------------------------------------------

  /** All demands of a list of steps, in order. */
  ghost function Demands(steps: seq<seq<ExpertRef>>): seq<ExpertRef> {
    if steps == [] then [] else Demands(steps[..|steps| - 1]) + steps[|steps| - 1]
  }

  lemma DemandsAppend(steps: seq<seq<ExpertRef>>, step: seq<ExpertRef>)
    ensures Demands(steps + [step]) == Demands(steps) + step
  {
    assert (steps + [step])[..|steps|] == steps;
  }

  /** The transfers a list of steps costs a cache of c slots: a step pays once for each of its absentees. */
  ghost function Misses(steps: seq<seq<ExpertRef>>, c: nat): nat {
    if steps == [] then 0
    else
      var n := |steps| - 1;
      Misses(steps[..n], c) + |Elements(steps[n]) - MostRecent(Demands(steps[..n]), c)|
  }

  lemma MissesAppend(steps: seq<seq<ExpertRef>>, step: seq<ExpertRef>, c: nat)
    ensures Misses(steps + [step], c) == Misses(steps, c) + |Elements(step) - MostRecent(Demands(steps), c)|
  {
    assert (steps + [step])[..|steps|] == steps;
  }

  lemma MostRecentMonotone(t: seq<ExpertRef>, c1: nat, c2: nat)
    requires c1 <= c2
    ensures MostRecent(t, c1) <= MostRecent(t, c2)
  {
    hide Newer, LastUse;
  }

  /**
   A larger cache keeps everything a smaller one keeps, and over any stretch of steps fetches no more:
   least-recently-used has no Belady anomaly.
   */
  lemma {:induction false} LargerCacheNeverWorse(steps: seq<seq<ExpertRef>>, from: nat, c1: nat, c2: nat)
    requires c1 <= c2 && from <= |steps|
    ensures MostRecent(Demands(steps), c1) <= MostRecent(Demands(steps), c2)
    ensures Misses(steps, c2) - Misses(steps[..from], c2) <= Misses(steps, c1) - Misses(steps[..from], c1)
  {
    MostRecentMonotone(Demands(steps), c1, c2);
    if from == |steps| {
      assert steps[..from] == steps;
    } else {
      hide MostRecent, Demands;
      var n := |steps| - 1;
      LargerCacheNeverWorse(steps[..n], from, c1, c2);
      assert steps[..n][..from] == steps[..from];
      MostRecentMonotone(Demands(steps[..n]), c1, c2);
      SubsetSize(Elements(steps[n]) - MostRecent(Demands(steps[..n]), c2),
                 Elements(steps[n]) - MostRecent(Demands(steps[..n]), c1));
    }
  }
}
