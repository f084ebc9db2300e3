/** Under any fair schedule `sync` returns, and after how many rounds at the latest. */
module HostFairness {
  import opened HostProtocol
  import opened HostTheorems
  import opened HostProgress

  /** A stretch of a schedule in which every worker and the device thread get a turn, in any order. */
  ghost predicate Fair(g: Geometry, round: seq<Action>) {
    Device in round && forall w: nat :: w < g.threads ==> Run(w) in round
  }

  function Joined(rounds: seq<seq<Action>>): seq<Action> {
    if rounds == [] then [] else rounds[0] + Joined(rounds[1..])
  }

  predicate Acked(s: State) { forall v :: 0 <= v < |s.acks| ==> s.acks[v] == s.epoch }

  /** Rounds `sync` may still have to wait: one for each step of the workers, then one for each of its own looks. */
  ghost function Patience(g: Geometry, s: State): nat {
    Measure(g, s) + 1 + (if Acked(s) && s.main.Scanning? && s.main.next <= |s.acks| then |s.acks| - s.main.next else |s.acks|)
  }

  /** A job in flight that can be completed. */
  ghost predicate Pending(g: Geometry, s: State) {
    Inv(g, s) && s.main.Scanning? && Completable(g, s.job)
  }

  /** A worker spins on the epoch or on the gate. */
  predicate Polls(s: State, w: nat)
    requires w < |s.workers|
  {
    || (s.workers[w].pc == Waiting && s.workers[w].seen == s.epoch)
    || (s.workers[w].pc == Barrier && !s.gateB)
  }

  lemma PollIsIdle(g: Geometry, s: State, w: nat)
    requires w < |s.workers| == |s.acks| && Polls(s, w)
    ensures WorkerStep(g, s, w) == s
  {
  }

  /** This action's next turn is not a poll of a worker nor, before the last acknowledgement, of the device thread. */
  ghost predicate Useful(s: State, a: Action) {
    match a
    case Run(w) => w < |s.workers| && !Polls(s, w)
    case Device => Acked(s)
    case _ => false
  }

  /** Some worker, or else the device thread, has something useful to do. */
  lemma SomethingUseful(g: Geometry, s: State) returns (a: Action)
    requires Pending(g, s)
    ensures Useful(s, a)
  {
    assert |s.acks| == |s.workers|;
    hide Inv, WorkerStep, Completable, Polls;
    if Acked(s) {
      a := Device;
    } else {
      var w := SomebodyMoves(g, s);
      if Polls(s, w) {
        PollIsIdle(g, s, w);
      }
      a := Run(w);
    }
  }

  /** Once everything is acknowledged the workers poll. */
  lemma AckedPolls(g: Geometry, s: State, w: nat)
    requires Inv(g, s) && s.main.Scanning? && Acked(s) && w < |s.workers|
    ensures Polls(s, w)
  {
    hide Claims, ClaimsA, ClaimsB, GateInv;
    assert WorkerInv(g, s, w);
  }

  /** A look of the device thread keeps the job and, with everything acknowledged, brings it one worker further. */
  lemma LookCosts(g: Geometry, s: State)
    requires Inv(g, s) && s.main.Scanning? && DeviceStep(g, s).main.Scanning?
    ensures DeviceStep(g, s) == s.(main := DeviceStep(g, s).main)
    ensures Patience(g, DeviceStep(g, s)) <= Patience(g, s)
    ensures Acked(s) ==> Patience(g, DeviceStep(g, s)) < Patience(g, s)
  {
    hide Claims, ClaimsA, ClaimsB, GateInv, WorkerInv, Measure, Shape;
    PollingKeepsMeasure(g, s);
  }

  /** A worker's turn keeps the job, and costs patience unless it is a poll. */
  lemma RunCosts(g: Geometry, s: State, w: nat)
    requires Inv(g, s) && s.main.Scanning? && w < |s.workers| && !Polls(s, w)
    ensures |s.acks| == |s.workers| && WorkerStep(g, s, w).job == s.job && WorkerStep(g, s, w).main == s.main
    ensures Patience(g, WorkerStep(g, s, w)) < Patience(g, s)
  {
    assert |s.acks| == |s.workers|;
    TurnChanges(g, s, w);
    hide Inv, Measure, WorkerStep, Acked, Polls;
    MeasureFalls(g, s, w);
    if Acked(s) {
      AckedPolls(g, s, w);
    }
  }

  lemma TurnChanges(g: Geometry, s: State, w: nat)
    requires Inv(g, s) && s.main.Scanning? && w < |s.workers| && !Polls(s, w)
    ensures |s.acks| == |s.workers| && WorkerStep(g, s, w) != s
  {
    hide Claims, ClaimsA, ClaimsB, GateInv, PcInv, WorkerStep;
    assert WorkerInv(g, s, w);
    MovesUnlessWaiting(g, s, w);
  }

  /** One action of any kind: the job stays pending, patience does not grow, and shrinks if the action was useful. */
  lemma ActionCosts(g: Geometry, s: State, a: Action)
    requires Pending(g, s) && Apply(g, s, a).main.Scanning?
    ensures Pending(g, Apply(g, s, a))
    ensures Patience(g, Apply(g, s, a)) <= Patience(g, s)
    ensures Useful(s, a) ==> Patience(g, Apply(g, s, a)) < Patience(g, s)
  {
    assert |s.acks| == |s.workers|;
    hide Inv, WorkerStep, DeviceStep, Patience, Acked, Completable, Polls;
    InvStep(g, s, a);
    match a
    case Run(w) =>
      if w < |s.workers| {
        if Polls(s, w) {
          PollIsIdle(g, s, w);
        } else {
          RunCosts(g, s, w);
        }
      }
    case Device => LookCosts(g, s);
    case _ =>
  }

  /** What is useful stays so until something useful happens, or `sync` returns. */
  lemma StaysUseful(g: Geometry, s: State, a: Action, b: Action)
    requires Pending(g, s) && Useful(s, a) && a != b
    requires Apply(g, s, b).main.Scanning?
    ensures Useful(s, b) || Useful(Apply(g, s, b), a)
  {
    assert |s.acks| == |s.workers|;
    hide Inv, WorkerStep, Completable, Patience;
    if b == Device {
      LookCosts(g, s);
    } else if b.Run? && b.w < |s.workers| && !Useful(s, b) {
      PollIsIdle(g, s, b.w);
    }
  }

  /** Somewhere along these actions `sync` returns. */
  ghost predicate Returns(g: Geometry, s: State, more: seq<Action>)
    requires |s.acks| == |s.workers|
    decreases |more|
  {
    !s.main.Scanning? || (more != [] && Returns(g, Apply(g, s, more[0]), more[1..]))
  }

  lemma {:induction false} NeverRises(g: Geometry, s: State, more: seq<Action>)
    requires Pending(g, s)
    ensures Returns(g, s, more)
      || (Pending(g, Continue(g, s, more)) && Patience(g, Continue(g, s, more)) <= Patience(g, s))
    decreases |more|
  {
    assert |s.acks| == |s.workers|;
    hide Pending, Patience, Apply, Useful;
    if more != [] {
      var s' := Apply(g, s, more[0]);
      if s'.main.Scanning? {
        ActionCosts(g, s, more[0]);
        NeverRises(g, s', more[1..]);
      }
    }
  }

  /** A stretch with a turn for something useful costs patience. */
  lemma {:induction false} UsefulTurn(g: Geometry, s: State, more: seq<Action>, a: Action)
    requires Pending(g, s) && Useful(s, a) && a in more
    ensures Returns(g, s, more)
      || (Pending(g, Continue(g, s, more)) && Patience(g, Continue(g, s, more)) < Patience(g, s))
    decreases |more|
  {
    assert |s.acks| == |s.workers|;
    hide Pending, Patience, Apply, Useful;
    var s' := Apply(g, s, more[0]);
    if s'.main.Scanning? {
      ActionCosts(g, s, more[0]);
      if Useful(s, more[0]) {
        NeverRises(g, s', more[1..]);
      } else {
        StaysUseful(g, s, a, more[0]);
        UsefulTurn(g, s', more[1..], a);
      }
    }
  }

  /** A fair round brings the end nearer. */
  lemma RoundCosts(g: Geometry, s: State, round: seq<Action>)
    requires Pending(g, s) && |s.workers| == g.threads && Fair(g, round)
    ensures Returns(g, s, round)
      || (Pending(g, Continue(g, s, round)) && Patience(g, Continue(g, s, round)) < Patience(g, s))
  {
    hide Pending, Patience, Returns, Continue;
    var a := SomethingUseful(g, s);
    UsefulTurn(g, s, round, a);
  }

  lemma {:induction false} ReturnsThen(g: Geometry, s: State, first: seq<Action>, rest: seq<Action>)
    requires |s.acks| == |s.workers|
    requires Returns(g, s, first) || Returns(g, Continue(g, s, first), rest)
    ensures Returns(g, s, first + rest)
    decreases |first|
  {
    hide Apply;
    if first == [] {
      assert first + rest == rest;
    } else if s.main.Scanning? {
      assert (first + rest)[1..] == first[1..] + rest;
      ReturnsThen(g, Apply(g, s, first[0]), first[1..], rest);
    }
  }

  lemma {:induction false} FairRounds(g: Geometry, s: State, rounds: seq<seq<Action>>)
    requires Pending(g, s) && |s.workers| == g.threads
    requires (forall r :: 0 <= r < |rounds| ==> Fair(g, rounds[r])) && |rounds| >= Patience(g, s)
    ensures Returns(g, s, Joined(rounds))
    decreases |rounds|
  {
    assert |s.acks| == |s.workers| && Patience(g, s) > 0;
    hide Inv, Pending, Fair, Returns, Continue, Completable;
    hide Patience;
    var first, rest := rounds[0], rounds[1..];
    assert Joined(rounds) == first + Joined(rest);
    hide Joined;
    RoundCosts(g, s, first);
    if !Returns(g, s, first) {
      FairRounds(g, Continue(g, s, first), rest);
    }
    ReturnsThen(g, s, first, Joined(rest));
  }

  /** A job in flight is resubmitted by nobody; it ends with one more result. */
  lemma ResultsStay(g: Geometry, s: State, a: Action)
    requires |s.acks| == |s.workers| && s.main.Scanning?
    ensures var s' := Apply(g, s, a);
      s'.log == s.log && |s'.returned| == |s.returned| + (if s'.main.Scanning? then 0 else 1) && s.returned <= s'.returned
    ensures Apply(g, s, a).main.Scanning? || Apply(g, s, a).main == Idle
  {
    hide RowStepA, RowStepB, FillStep, ClaimStepA, ClaimStepB;
    if a.Run? && a.w < |s.workers| {
      RowsKeepResults(g, s, a.w);
    }
  }

  lemma RowsKeepResults(g: Geometry, s: State, w: nat)
    requires w < |s.workers|
    ensures ClaimStepA(g, s, w).returned == ClaimStepB(g, s, w).returned == s.returned
    ensures forall i, r :: RowStepA(g, s, w, i, r).returned == s.returned
    ensures forall i, r :: RowStepB(g, s, w, i, r).returned == s.returned
    ensures forall k :: FillStep(g, s, w, k).returned == s.returned
  {
  }

  /** Where along these actions `sync` returns, and that it hands back one result. */
  lemma {:induction false} ReturnAt(g: Geometry, s: State, more: seq<Action>) returns (k: nat)
    requires |s.acks| == |s.workers| && s.main.Scanning? && Returns(g, s, more)
    ensures k <= |more| && Continue(g, s, more[..k]).main == Idle
    ensures var s' := Continue(g, s, more[..k]);
      s'.log == s.log && |s'.returned| == |s.returned| + 1 && s.returned <= s'.returned
    decreases |more|
  {
    ResultsStay(g, s, more[0]);
    var s' := Apply(g, s, more[0]);
    hide WorkerStep, Apply, DeviceStep;
    if s'.main.Scanning? {
      k := ReturnAt(g, s', more[1..]);
      k := k + 1;
      assert more[..k][1..] == more[1..][..k - 1];
    } else {
      k := 1;
      assert more[..1] == [more[0]];
      assert Continue(g, s, more[..1]) == s';
    }
  }

  /**
   A completable job in flight comes to its end under every fair schedule: once each worker and the device
   thread have had a turn in that many rounds, whatever else happened, `sync` has returned the weighted sum.
   */
  lemma FairScheduleReturns(g: Geometry, j0: Job, schedule: seq<Action>, rounds: seq<seq<Action>>) returns (k: nat)
    requires g.Valid() && Reach(g, j0, schedule).main.Scanning? && Completable(g, Reach(g, j0, schedule).job)
    requires forall r :: 0 <= r < |rounds| ==> Fair(g, rounds[r])
    requires |rounds| >= Measure(g, Reach(g, j0, schedule)) + g.threads + 1
    ensures k <= |Joined(rounds)|
    ensures var s, s' := Reach(g, j0, schedule), Continue(g, Reach(g, j0, schedule), Joined(rounds)[..k]);
      && s'.main == Idle && s'.log == s.log && |s.job.weights| == s.job.nExperts
      && s'.returned == s.returned + [Expected(g, s.job)]
  {
    hide Inv, Measure, Completable, Fair, Continue, Returns, Acked;
    InvReach(g, j0, schedule);
    var s := Reach(g, j0, schedule);
    FairRounds(g, s, rounds);
    k := ReturnAt(g, s, Joined(rounds));
    hide *;
    ReachThen(g, j0, schedule, Joined(rounds)[..k]);
    LastResult(g, j0, schedule, schedule + Joined(rounds)[..k]);
  }

  lemma LastResult(g: Geometry, j0: Job, before: seq<Action>, after: seq<Action>)
    requires g.Valid() && Reach(g, j0, before).main.Scanning? && Reach(g, j0, after).main == Idle
    requires var s, s' := Reach(g, j0, before), Reach(g, j0, after);
      s'.log == s.log && |s'.returned| == |s.returned| + 1 && s.returned <= s'.returned
    ensures var s, s' := Reach(g, j0, before), Reach(g, j0, after);
      |s.job.weights| == s.job.nExperts && s'.returned == s.returned + [Expected(g, s.job)]
  {
    hide *;
    var s, s' := Reach(g, j0, before), Reach(g, j0, after);
    InvReach(g, j0, before);
    JobIsLast(g, s);
    ScheduleIndependence(g, j0, before);
    ScheduleIndependence(g, j0, after);
    assert s'.returned[|s.returned|] == Expected(g, s.job);
  }

  lemma JobIsLast(g: Geometry, s: State)
    requires Inv(g, s) && s.main.Scanning?
    ensures s.log != [] && s.job == s.log[|s.log| - 1]
  {
    hide Shape, Claims, ClaimsA, ClaimsB, GateInv, WorkerInv;
  }

  lemma {:induction false} ReachThen(g: Geometry, j0: Job, schedule: seq<Action>, more: seq<Action>)
    ensures Reach(g, j0, schedule + more) == Continue(g, Reach(g, j0, schedule), more)
    decreases |more|
  {
    hide Apply, Reach;
    if more == [] {
      assert schedule + more == schedule;
    } else {
      assert schedule + [more[0]] + more[1..] == schedule + more;
      ReachNext(g, j0, schedule, more[0]);
      ReachThen(g, j0, schedule + [more[0]], more[1..]);
    }
  }

  /** The same read backwards: fairness brings `sync` home exactly when the job can be completed. */
  lemma FairReturnsIff(g: Geometry, j0: Job, schedule: seq<Action>, rounds: seq<seq<Action>>)
    requires g.Valid() && Reach(g, j0, schedule).main.Scanning?
    requires forall r :: 0 <= r < |rounds| ==> Fair(g, rounds[r])
    requires |rounds| >= Measure(g, Reach(g, j0, schedule)) + g.threads + 1
    ensures Returns(g, Reach(g, j0, schedule), Joined(rounds)) <==> Completable(g, Reach(g, j0, schedule).job)
  {
    hide Inv, Measure, Completable, Fair, Continue, Returns, Acked;
    InvReach(g, j0, schedule);
    var s := Reach(g, j0, schedule);
    if Completable(g, s.job) {
      FairRounds(g, s, rounds);
    } else if Returns(g, s, Joined(rounds)) {
      var k := ReturnAt(g, s, Joined(rounds));
      StuckForever(g, s, Joined(rounds)[..k]);
    }
  }
}
