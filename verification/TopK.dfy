/** Expert selection by a group of lanes: k rounds of a strided, masked argmax. */
module TopK {
  import opened Wrappers
  import opened FiniteSets
  import opened Lanes

  // ---- the ranking -------------------------------------------------------------------------------

  /** Larger logit first; among equals, the lower index. */
  predicate Better(l: seq<real>, a: nat, b: nat)
    requires a < |l| && b < |l|
  {
    l[a] > l[b] || (l[a] == l[b] && a < b)
  }

  /** The first n experts in order of rank, each exactly once. */
  ghost predicate IsRanking(l: seq<real>, n: nat, order: seq<nat>) {
    && n <= |l| && |order| == n
    && (forall i :: 0 <= i < n ==> order[i] < n)
    && (forall i, j :: 0 <= i < j < n ==> Better(l, order[i], order[j]))
  }

  /** Where to put expert j among ranked ones: after everyone better. */
  function Rank(l: seq<real>, order: seq<nat>, j: nat): (p: nat)
    requires j < |l| && forall i :: 0 <= i < |order| ==> order[i] < |l|
    ensures p <= |order|
    ensures forall i :: 0 <= i < p ==> Better(l, order[i], j)
    ensures p < |order| ==> !Better(l, order[p], j)
  {
    if order == [] || !Better(l, order[0], j) then 0 else 1 + Rank(l, order[1..], j)
  }

  lemma InsertRanks(l: seq<real>, before: seq<nat>, x: nat, p: nat)
    requires x < |l| && IsRanking(l, x, before) && p <= |before|
    requires forall i :: 0 <= i < p ==> Better(l, before[i], x)
    requires p < |before| ==> !Better(l, before[p], x)
    ensures IsRanking(l, x + 1, before[..p] + [x] + before[p..])
  {
    var order := before[..p] + [x] + before[p..];
    forall i | 0 <= i < |order| ensures order[i] == if i < p then before[i] else if i == p then x else before[i - 1] {
    }
    forall i | p <= i < |before| ensures Better(l, x, before[i]) {
      assert i == p || Better(l, before[p], before[i]);
    }
    forall i, j | 0 <= i < j < |order| ensures Better(l, order[i], order[j]) {
      if j < p {
        assert Better(l, before[i], before[j]);
      } else if i > p {
        assert Better(l, before[i - 1], before[j - 1]);
      } else if i < p < j {
        assert Better(l, before[i], before[j - 1]);
      }
    }
  }

  /** All experts, by stable insertion. */
  function Ranking(l: seq<real>, n: nat): (order: seq<nat>)
    requires n <= |l|
    ensures IsRanking(l, n, order)
  {
    if n == 0 then []
    else
      var before := Ranking(l, n - 1);
      var p := Rank(l, before, n - 1);
      InsertRanks(l, before, n - 1, p);
      before[..p] + [n - 1] + before[p..]
  }

  // ---- one round ---------------------------------------------------------------------------------

  ghost predicate Free(l: seq<real>, sel: seq<nat>, j: nat) {
    j < |l| && j !in sel
  }

  /** The best expert not yet selected. */
  ghost predicate IsBest(l: seq<real>, sel: seq<nat>, x: nat) {
    && Free(l, sel, x)
    && (forall y :: 0 <= y < |l| && Free(l, sel, y) && y != x ==> Better(l, x, y))
  }

  /** What a lane knows after its scan: the best free expert of its own, if it has one. */
  ghost predicate LaneBest(l: seq<real>, sel: seq<nat>, lane: nat, w: nat, n: nat, b: Option<nat>)
    requires 0 < w && n <= |l|
  {
    && (b.None? ==> forall y :: 0 <= y < n && y % w == lane ==> !Free(l, sel, y))
    && (b.Some? ==> b.value < n && b.value % w == lane && Free(l, sel, b.value))
    && (b.Some? ==> forall y :: 0 <= y < n && y % w == lane && Free(l, sel, y) && y != b.value ==>
      Better(l, b.value, y))
  }

  /** `sel[p] == j` for some p below the round. */
  method Taken(sel: seq<nat>, j: nat) returns (taken: bool)
    ensures taken <==> j in sel
  {
    taken := false;
    var p := 0;
    while p < |sel|
      invariant p <= |sel| && !taken && j !in sel[..p]
    {
      if sel[p] == j {
        return true;
      }
      p := p + 1;
    }
  }

  lemma LaneGap(l: seq<real>, sel: seq<nat>, lane: nat, w: nat, n: nat, n': nat, b: Option<nat>)
    requires 0 < w && n <= n' <= |l| && LaneBest(l, sel, lane, w, n, b)
    requires forall y :: n <= y < n' ==> y % w != lane
    ensures LaneBest(l, sel, lane, w, n', b)
  {
  }

  /** One lane's scan: strict comparison in ascending order, so the lower index wins a tie. */
  method LaneArgmax(l: seq<real>, sel: seq<nat>, lane: nat, w: nat) returns (bidx: Option<nat>, bestv: real)
    requires lane < w
    ensures LaneBest(l, sel, lane, w, |l|, bidx)
    ensures bestv == if bidx.Some? then l[bidx.value] else LOWEST
  {
    hide Free, Better;
    bidx, bestv := None, LOWEST;
    var j := lane;
    LaneBegins(lane, w);
    LaneGap(l, sel, lane, w, 0, if lane < |l| then lane else |l|, bidx);
    while j < |l|
      invariant j % w == lane
      invariant LaneBest(l, sel, lane, w, if j < |l| then j else |l|, bidx)
      invariant bestv == if bidx.Some? then l[bidx.value] else LOWEST
      decreases |l| - j
    {
      var taken := Taken(sel, j);
      var b' := if !taken && (bidx.None? || l[j] > bestv) then Some(j) else bidx;
      LaneTakes(l, sel, lane, w, j, bidx, b');
      if b' != bidx {
        bidx, bestv := Some(j), l[j];
      }
      LaneNext(j, w);
      LaneGap(l, sel, lane, w, j + 1, if j + w < |l| then j + w else |l|, bidx);
      j := j + w;
    }
  }

  lemma LaneTakes(l: seq<real>, sel: seq<nat>, lane: nat, w: nat, j: nat, b: Option<nat>, b': Option<nat>)
    requires 0 < w && j < |l| && j % w == lane && LaneBest(l, sel, lane, w, j, b)
    requires b' == if j !in sel && (b.None? || l[j] > l[b.value]) then Some(j) else b
    ensures LaneBest(l, sel, lane, w, j + 1, b')
  {
  }

  /** The index that loses every minimum (`0x7FFFFFFF`). */
  const NO_CANDIDATE: nat := 0x7FFF_FFFF

  /** The lanes' answers of one round. */
  ghost predicate Scanned(l: seq<real>, sel: seq<nat>, w: nat, bidx: seq<Option<nat>>, bestv: seq<real>)
    requires 0 < w
  {
    && |bidx| == w == |bestv|
    && (forall k :: 0 <= k < w ==> LaneBest(l, sel, k, w, |l|, bidx[k]))
    && (forall k :: 0 <= k < w ==> bestv[k] == if bidx[k].Some? && bidx[k].value < |l| then l[bidx[k].value] else LOWEST)
  }

  /** A lane that has free experts has the best of them, and so at least matches each. */
  lemma OwnLane(l: seq<real>, sel: seq<nat>, w: nat, bidx: seq<Option<nat>>, bestv: seq<real>, y: nat)
    requires 0 < w && Scanned(l, sel, w, bidx, bestv) && y < |l| && Free(l, sel, y)
    ensures y % w < w && bidx[y % w].Some? && bidx[y % w].value < |l|
    ensures bestv[y % w] == l[bidx[y % w].value] >= l[y]
    ensures l[bidx[y % w].value] == l[y] ==> bidx[y % w].value <= y
  {
    assert LaneBest(l, sel, y % w, w, |l|, bidx[y % w]);
  }

  /** Some lane with a candidate attains the group's maximum. */
  lemma MaximumIsACandidate(l: seq<real>, sel: seq<nat>, w: nat, bidx: seq<Option<nat>>, bestv: seq<real>, gmax: real,
                            y: nat)
    returns (k: nat)
    requires 0 < w && Scanned(l, sel, w, bidx, bestv) && y < |l| && Free(l, sel, y)
    requires forall j :: 0 <= j < |l| ==> l[j] >= LOWEST
    requires forall k :: 0 <= k < w ==> bestv[k] <= gmax
    requires exists k :: 0 <= k < w && bestv[k] == gmax
    ensures k < w && bidx[k].Some? && bestv[k] == gmax
  {
    OwnLane(l, sel, w, bidx, bestv, y);
    k :| 0 <= k < w && bestv[k] == gmax;
    if bidx[k].None? {
      k := y % w;
    }
  }

  /** The lowest candidate among the lanes that attain the maximum is the best free expert of all. */
  lemma LowestCandidateIsBest(l: seq<real>, sel: seq<nat>, w: nat, bidx: seq<Option<nat>>, bestv: seq<real>,
                              gmax: real, k: nat)
    requires 0 < w && Scanned(l, sel, w, bidx, bestv)
    requires forall c :: 0 <= c < w ==> bestv[c] <= gmax
    requires k < w && bidx[k].Some? && bestv[k] == gmax
    requires forall c :: 0 <= c < w && bidx[c].Some? && bestv[c] == gmax ==> bidx[k].value <= bidx[c].value
    ensures IsBest(l, sel, bidx[k].value)
  {
    var x := bidx[k].value;
    assert LaneBest(l, sel, k, w, |l|, bidx[k]);
    hide LaneBest, Scanned;
    forall y | 0 <= y < |l| && Free(l, sel, y) && y != x ensures Better(l, x, y) {
      OwnLane(l, sel, w, bidx, bestv, y);
    }
  }

  /** A round before the last expert is taken still has somebody to select. */
  lemma SomebodyFree(l: seq<real>, sel: seq<nat>) returns (y: nat)
    requires |sel| < |l|
    ensures Free(l, sel, y)
  {
    y := FirstOutside(sel, |l|);
  }

  lemma {:induction false} FirstOutside(sel: seq<nat>, n: nat) returns (y: nat)
    requires |sel| < n
    ensures y < n && y !in sel
    decreases n
  {
    if n - 1 !in sel {
      y := n - 1;
    } else {
      var p :| 0 <= p < |sel| && sel[p] == n - 1;
      var rest := sel[..p] + sel[p + 1..];
      y := FirstOutside(rest, n - 1);
      forall q | 0 <= q < |sel| ensures sel[q] != y {
        assert q != p ==> sel[q] == rest[if q < p then q else q - 1];
      }
    }
  }

  /** One round of the kernel: every lane scans, then the group takes the maximum and the lowest index with it. */
  method SelectRound(l: seq<real>, sel: seq<nat>, w: nat) returns (x: nat)
    requires 0 < w && |sel| < |l| <= NO_CANDIDATE
    requires forall j :: 0 <= j < |l| ==> l[j] >= LOWEST
    ensures IsBest(l, sel, x)
  {
    hide LaneBest, Free, Better, IsBest;
    var bidx: seq<Option<nat>>, bestv: seq<real> := [], [];
    while |bidx| < w
      invariant |bidx| == |bestv| <= w
      invariant forall k :: 0 <= k < |bidx| ==> LaneBest(l, sel, k, w, |l|, bidx[k])
      invariant forall k :: 0 <= k < |bidx| && bidx[k].Some? ==> bidx[k].value < |l| && bestv[k] == l[bidx[k].value]
      invariant forall k :: 0 <= k < |bidx| && bidx[k].None? ==> bestv[k] == LOWEST
    {
      var b, v := LaneArgmax(l, sel, |bidx|, w);
      LaneInside(l, sel, |bidx|, w, b);
      bidx, bestv := bidx + [b], bestv + [v];
    }
    assert Scanned(l, sel, w, bidx, bestv);
    var gmax := bestv[0];
    for k := 0 to w
      invariant forall c :: 0 <= c < k ==> bestv[c] <= gmax
      invariant exists c :: 0 <= c < w && bestv[c] == gmax
    {
      if bestv[k] > gmax {
        gmax := bestv[k];
      }
    }
    ghost var y := SomebodyFree(l, sel);
    ghost var top := MaximumIsACandidate(l, sel, w, bidx, bestv, gmax, y);
    x := NO_CANDIDATE;
    for k := 0 to w
      invariant forall c :: 0 <= c < k && bidx[c].Some? && bestv[c] == gmax ==> x <= bidx[c].value
      invariant x == NO_CANDIDATE || exists c :: 0 <= c < k && bidx[c] == Some(x) && bestv[c] == gmax
    {
      if bidx[k].Some? && bestv[k] == gmax && bidx[k].value < x {
        x := bidx[k].value;
      }
    }
    assert x <= bidx[top].value < NO_CANDIDATE;
    ghost var best :| 0 <= best < w && bidx[best] == Some(x) && bestv[best] == gmax;
    LowestCandidateIsBest(l, sel, w, bidx, bestv, gmax, best);
  }

  lemma LaneInside(l: seq<real>, sel: seq<nat>, lane: nat, w: nat, b: Option<nat>)
    requires 0 < w && LaneBest(l, sel, lane, w, |l|, b)
    ensures b.Some? ==> b.value < |l|
  {
  }

  // ---- k rounds ----------------------------------------------------------------------------------

  /** The selection after r rounds: each pick is the best of what the picks before it left. */
  ghost predicate Picked(l: seq<real>, sel: seq<nat>) {
    forall r :: 0 <= r < |sel| ==> IsBest(l, sel[..r], sel[r])
  }

  /** There is only one way to pick: the first experts of any ranking. */
  lemma {:induction false} PicksFollowRanking(l: seq<real>, sel: seq<nat>, order: seq<nat>)
    requires Picked(l, sel) && IsRanking(l, |l|, order) && |sel| <= |l|
    ensures sel == order[..|sel|]
  {
    if sel != [] {
      var r := |sel| - 1;
      forall i | 0 <= i < r ensures IsBest(l, sel[..r][..i], sel[..r][i]) {
        assert sel[..r][..i] == sel[..i];
      }
      PicksFollowRanking(l, sel[..r], order);
      assert IsBest(l, sel[..r], sel[r]);
      NextInRanking(l, order, r, sel[r]);
      assert order[..r + 1] == order[..r] + [order[r]];
    }
  }

  /** What is best of all that the first r of a ranking leave is the next of the ranking. */
  lemma NextInRanking(l: seq<real>, order: seq<nat>, r: nat, x: nat)
    requires IsRanking(l, |l|, order) && r < |l| && IsBest(l, order[..r], x)
    ensures x == order[r]
  {
    var next := order[r];
    forall i | 0 <= i < r ensures order[..r][i] != next {
      assert Better(l, order[i], order[r]);
    }
    assert Free(l, order[..r], next);
    var p := PlaceOf(l, order, x);
    forall i | 0 <= i < r ensures order[i] != x {
      assert order[..r][i] == order[i];
    }
    assert p == r || Better(l, order[r], order[p]);
  }

  /** Everybody is somewhere in a ranking. */
  lemma PlaceOf(l: seq<real>, order: seq<nat>, x: nat) returns (p: nat)
    requires IsRanking(l, |l|, order) && x < |l|
    ensures p < |order| && order[p] == x
  {
    assert NoDuplicates(order) by {
      forall i, j | 0 <= i < j < |order| ensures order[i] != order[j] {
        assert Better(l, order[i], order[j]);
      }
    }
    Pigeonhole(order);
    assert x in order;
    p :| 0 <= p < |order| && order[p] == x;
  }

  /**
   The selection of the router, for any lane width: k distinct experts, the first k of the ranking by logit
   descending and index ascending, and of every other sequence ranked that way.
   */
  method Select(l: seq<real>, k: nat, w: nat) returns (sel: seq<nat>)
    requires 0 < w && k <= |l| <= NO_CANDIDATE
    requires forall j :: 0 <= j < |l| ==> l[j] >= LOWEST
    ensures |sel| == k && sel == Ranking(l, |l|)[..k]
  {
    sel := [];
    while |sel| < k
      invariant |sel| <= k && Picked(l, sel)
    {
      hide IsBest;
      var x := SelectRound(l, sel, w);
      forall r | 0 <= r <= |sel| ensures IsBest(l, (sel + [x])[..r], (sel + [x])[r]) {
        assert (sel + [x])[..r] == sel[..r];
        assert r == |sel| ==> sel[..r] == sel;
      }
      sel := sel + [x];
    }
    PicksFollowRanking(l, sel, Ranking(l, |l|));
  }

  /** A ranking is unique: whatever ranked sequence of all experts there is, it is this one. */
  lemma RankingUnique(l: seq<real>, order: seq<nat>)
    requires IsRanking(l, |l|, order)
    ensures order == Ranking(l, |l|)
  {
    forall r | 0 <= r < |order| ensures IsBest(l, order[..r], order[r]) {
      RankingPicks(l, order, r);
    }
    PicksFollowRanking(l, order, Ranking(l, |l|));
  }

  lemma RankingPicks(l: seq<real>, order: seq<nat>, r: nat)
    requires IsRanking(l, |l|, order) && r < |order|
    ensures IsBest(l, order[..r], order[r])
  {
    forall i | 0 <= i < r ensures order[..r][i] != order[r] {
      assert Better(l, order[i], order[r]);
    }
    forall y | 0 <= y < |l| && Free(l, order[..r], y) && y != order[r] ensures Better(l, order[r], y) {
      var p := PlaceOf(l, order, y);
      forall i | 0 <= i < r ensures order[i] != y {
        assert order[..r][i] == order[i];
      }
      assert Better(l, order[r], order[p]);
    }
  }
}
