/** The job in flight cannot get stuck, except when the feed-forward width is zero. */
module HostProgress {
  import opened Sums
  import opened Tasks
  import opened HostProtocol
  import opened HostSafety
  import opened HostTheorems

  function Total(ns: seq<nat>): nat {
    if ns == [] then 0 else Total(ns[..|ns| - 1]) + ns[|ns| - 1]
  }

  lemma {:induction false} TotalUpdate(ns: seq<nat>, w: nat, v: nat)
    requires w < |ns|
    ensures Total(ns[w := v]) + ns[w] == Total(ns) + v
  {
    var n := |ns| - 1;
    if w < n {
      TotalUpdate(ns[..n], w, v);
      assert ns[w := v][..n] == ns[..n][w := v];
    } else {
      assert ns[w := v][..n] == ns[..n];
    }
  }

  // ---- the measure -------------------------------------------------------------------------------

  function Left(p: Phase, i: nat, r: nat): nat
    requires p.Valid()
  {
    if i < p.Total() && r <= p.Hi(i) then p.Hi(i) - r else 0
  }

  /** Steps a worker still has ahead of it, not counting tasks it has yet to claim. */
  function Weight(g: Geometry, j: Job, epoch: nat, me: Worker): nat {
    match me.pc
    case Waiting => if me.seen == epoch then 0 else 7
    case Enter => 6
    case ClaimA => 5
    case RunA(i, r) => 7 + Left(PhaseA(g, j), i, r)
    case CountA(_) => 6
    case FillXsum(k) => 7 + (if k <= Slots(g, j) then Slots(g, j) - k else 0)
    case OpenGate => 6
    case Barrier => 4
    case ClaimB => 3
    case RunB(i, r) => 5 + Left(PhaseB(g, j), i, r)
    case CountB(_) => 4
    case Acking => 1
  }

  function Weights(g: Geometry, s: State): (ns: seq<nat>)
    ensures |ns| == |s.workers|
  {
    seq(|s.workers|, w requires 0 <= w < |s.workers| => Weight(g, s.job, s.epoch, s.workers[w]))
  }

  function Unclaimed(p: Phase, cursor: nat): nat
    requires p.Valid()
  {
    (p.Total() - Min(cursor, p.Total())) * (p.chunk + 3)
  }

  /** Steps of the current job that nobody has taken on yet. */
  function Unstarted(g: Geometry, s: State): nat {
    var a, b := PhaseA(g, s.job), PhaseB(g, s.job);
    Unclaimed(a, s.cursorA) + Unclaimed(b, s.cursorB) + (if s.doneA < a.Total() then Slots(g, s.job) + 3 else 0)
  }

  /** An upper bound on the worker steps left in the current job. */
  function Measure(g: Geometry, s: State): nat {
    Unstarted(g, s) + Total(Weights(g, s))
  }

  lemma UnclaimedStep(p: Phase, cursor: nat)
    requires p.Valid()
    ensures cursor < p.Total() ==> Unclaimed(p, cursor + 1) + p.chunk + 3 == Unclaimed(p, cursor)
    ensures cursor >= p.Total() ==> Unclaimed(p, cursor + 1) == Unclaimed(p, cursor)
  {
    if cursor < p.Total() {
      var n := p.Total() - cursor;
      assert n * (p.chunk + 3) == (n - 1) * (p.chunk + 3) + (p.chunk + 3);
    }
  }

  /** The work left to start, together with worker w's own, goes down. */
  ghost predicate Falls(g: Geometry, s: State, s': State, w: nat)
    requires w < |s.workers| && w < |s'.workers|
  {
    && s'.job == s.job && s'.epoch == s.epoch
    && Unstarted(g, s') + Weight(g, s.job, s.epoch, s'.workers[w])
     < Unstarted(g, s) + Weight(g, s.job, s.epoch, s.workers[w])
  }

  lemma MeasureFallsIf(g: Geometry, s: State, s': State, w: nat)
    requires w < |s.workers| && WorkerFrame(s, s', w) && Falls(g, s, s', w)
    ensures Measure(g, s') < Measure(g, s)
  {
    var ns, v := Weights(g, s), Weight(g, s.job, s.epoch, s'.workers[w]);
    TotalUpdate(ns, w, v);
    assert Weights(g, s') == ns[w := v];
  }

  lemma ClaimFallsA(g: Geometry, s: State, w: nat)
    requires w < |s.workers| && s.workers[w].pc == ClaimA
    ensures Falls(g, s, ClaimStepA(g, s, w), w)
  {
    UnclaimedStep(PhaseA(g, s.job), s.cursorA);
    if s.cursorA < PhaseA(g, s.job).Total() {
      TaskBounds(PhaseA(g, s.job), s.cursorA);
    }
  }

  lemma ClaimFallsB(g: Geometry, s: State, w: nat)
    requires w < |s.workers| && s.workers[w].pc == ClaimB
    ensures Falls(g, s, ClaimStepB(g, s, w), w)
  {
    UnclaimedStep(PhaseB(g, s.job), s.cursorB);
    if s.cursorB < PhaseB(g, s.job).Total() {
      TaskBounds(PhaseB(g, s.job), s.cursorB);
    }
  }

  lemma RowFallsA(g: Geometry, s: State, w: nat, i: nat, r: nat)
    requires w < |s.workers| && s.workers[w].pc == RunA(i, r)
    ensures Falls(g, s, RowStepA(g, s, w, i, r), w)
  {
  }

  lemma RowFallsB(g: Geometry, s: State, w: nat, i: nat, r: nat)
    requires w < |s.workers| && s.workers[w].pc == RunB(i, r)
    ensures Falls(g, s, RowStepB(g, s, w, i, r), w)
  {
  }

  lemma FillFalls(g: Geometry, s: State, w: nat, k: nat)
    requires w < |s.workers| && s.workers[w].pc == FillXsum(k)
    ensures Falls(g, s, FillStep(g, s, w, k), w)
  {
  }

  lemma CountFallsA(g: Geometry, s: State, w: nat)
    requires w < |s.workers| == |s.acks| && s.workers[w].pc.CountA? && s.doneA < PhaseA(g, s.job).Total()
    ensures Falls(g, s, WorkerStep(g, s, w), w)
  {
    var s' := WorkerStep(g, s, w);
    assert Unclaimed(PhaseA(g, s'.job), s'.cursorA) == Unclaimed(PhaseA(g, s.job), s.cursorA);
    assert Unclaimed(PhaseB(g, s'.job), s'.cursorB) == Unclaimed(PhaseB(g, s.job), s.cursorB);
  }

  lemma SameBacklog(g: Geometry, s: State, s': State, w: nat)
    requires w < |s.workers| && w < |s'.workers|
    requires s'.job == s.job && s'.epoch == s.epoch
    requires s'.cursorA == s.cursorA && s'.cursorB == s.cursorB && s'.doneA == s.doneA
    requires Weight(g, s.job, s.epoch, s'.workers[w]) < Weight(g, s.job, s.epoch, s.workers[w])
    ensures Falls(g, s, s', w)
  {
    assert Unclaimed(PhaseA(g, s'.job), s'.cursorA) == Unclaimed(PhaseA(g, s.job), s.cursorA);
    assert Unclaimed(PhaseB(g, s'.job), s'.cursorB) == Unclaimed(PhaseB(g, s.job), s.cursorB);
  }

  predicate Light(pc: Pc) {
    pc.Waiting? || pc.Enter? || pc.OpenGate? || pc.Barrier? || pc.CountB? || pc.Acking?
  }

  /** The steps that claim nothing and count nothing in phase A. */
  lemma LightStep(g: Geometry, s: State, w: nat)
    requires w < |s.workers| == |s.acks| && WorkerStep(g, s, w) != s && Light(s.workers[w].pc)
    ensures var s' := WorkerStep(g, s, w);
      && s'.cursorA == s.cursorA && s'.cursorB == s.cursorB && s'.doneA == s.doneA
      && (match s.workers[w].pc
          case Waiting => s.workers[w].seen != s.epoch && s'.workers[w].pc == Enter
          case Enter => s'.workers[w].pc == Acking || s'.workers[w].pc == ClaimA
          case OpenGate => s'.workers[w].pc == ClaimA
          case Barrier => s'.workers[w].pc == ClaimB
          case CountB(_) => s'.workers[w].pc == ClaimB
          case Acking => s'.workers[w] == Worker(s.workers[w].seen, Waiting)
          case _ => true)
  {
  }

  /** A worker between two claims of phase A has its task counted among the missing ones. */
  lemma CountingMeansMissing(g: Geometry, s: State, w: nat)
    requires InvOf(g, s) && w < |s.workers| && s.workers[w].pc.CountA?
    ensures s.doneA < PhaseA(g, s.job).Total()
  {
    assert HeldsA(s.workers)[w].Holds?;
    HolderKeepsPhaseOpen(HeldsA(s.workers), w, s.cursorA, s.doneA, PhaseA(g, s.job).Total(),
                         (i: nat) => TaskDoneA(g, s, i));
  }

  /**
   Every worker step either changes nothing (spinning on the epoch or on the gate) or brings the
   measure down, so between `submit` and the last acknowledgement there are at most `Measure` of them.
   */
  lemma MeasureFalls(g: Geometry, s: State, w: nat)
    requires Inv(g, s) && s.main.Scanning? && w < |s.workers|
    ensures WorkerStep(g, s, w) == s || Measure(g, WorkerStep(g, s, w)) < Measure(g, s)
  {
    hide Claims, ClaimsA, ClaimsB;
    if WorkerStep(g, s, w) != s {
      match s.workers[w].pc {
        case ClaimA => ClaimFallsA(g, s, w);
        case ClaimB => ClaimFallsB(g, s, w);
        case RunA(i, r) => RowFallsA(g, s, w, i, r);
        case RunB(i, r) => RowFallsB(g, s, w, i, r);
        case FillXsum(k) => FillFalls(g, s, w, k);
        case CountA(_) => CountingMeansMissing(g, s, w); CountFallsA(g, s, w);
        case _ =>
          LightStep(g, s, w);
          assert WorkerInv(g, s, w);
          SameBacklog(g, s, WorkerStep(g, s, w), w);
      }
      MeasureFallsIf(g, s, WorkerStep(g, s, w), w);
    }
  }

  /** The device thread's polling leaves the measure alone. */
  lemma PollingKeepsMeasure(g: Geometry, s: State)
    requires Inv(g, s) && s.main.Scanning?
    ensures Measure(g, DeviceStep(g, s)) == Measure(g, s)
  {
    assert Weights(g, DeviceStep(g, s)) == Weights(g, s);
  }

  /** The worker steps of a continuation that are not polls, up to where `sync` returns. */
  ghost function Work(g: Geometry, s: State, more: seq<Action>): nat
    requires |s.acks| == |s.workers|
    decreases |more|
  {
    if more == [] || !s.main.Scanning? then 0
    else (if more[0].Run? && Apply(g, s, more[0]) != s then 1 else 0) + Work(g, Apply(g, s, more[0]), more[1..])
  }

  /** However a job in flight is scheduled, the workers take at most `Measure` steps on it. */
  lemma {:induction false} WorkIsBounded(g: Geometry, s: State, more: seq<Action>)
    requires Inv(g, s) && s.main.Scanning?
    ensures Work(g, s, more) <= Measure(g, s)
    decreases |more|
  {
    if more != [] {
      hide Inv, Measure, WorkerStep;
      var s' := Apply(g, s, more[0]);
      InvStep(g, s, more[0]);
      ActionMeasure(g, s, more[0]);
      if s'.main.Scanning? {
        WorkIsBounded(g, s', more[1..]);
      }
    }
  }

  /** One action of a job in flight: a worker's step that is not a poll costs at least one, the rest nothing. */
  lemma ActionMeasure(g: Geometry, s: State, a: Action)
    requires Inv(g, s) && s.main.Scanning?
    ensures a.Run? && Apply(g, s, a) != s ==> Measure(g, Apply(g, s, a)) < Measure(g, s)
    ensures !(a.Run? && Apply(g, s, a) != s) && Apply(g, s, a).main.Scanning? ==> Measure(g, Apply(g, s, a)) <= Measure(g, s)
  {
    hide Inv, Measure, WorkerStep;
    match a
    case Run(w) =>
      if w < |s.workers| {
        MeasureFalls(g, s, w);
      }
    case Device => PollingKeepsMeasure(g, s);
    case _ =>
  }

  // ---- nobody is stuck ----------------------------------------------------------------------------

  /** A job can be completed: it routes nothing, or the phase-A barrier has someone to open it. */
  predicate Completable(g: Geometry, j: Job) {
    j.nExperts == 0 || g.nFf > 0
  }

  /** While an acknowledgement is missing, some worker has a step that changes the state. */
  lemma SomebodyMoves(g: Geometry, s: State) returns (w: nat)
    requires Inv(g, s) && s.main.Scanning? && Completable(g, s.job)
    requires exists v :: 0 <= v < |s.acks| && s.acks[v] != s.epoch
    ensures w < |s.workers| && WorkerStep(g, s, w) != s
  {
    var v :| 0 <= v < |s.acks| && s.acks[v] != s.epoch;
    w := v;
    assert WorkerInv(g, s, w);
    if s.workers[w].pc == Barrier && !s.gateB {
      if a :| 0 <= a < |s.workers| && HeldA(s.workers[a].pc).Holds? {
        w := a;
        assert WorkerInv(g, s, w);
      } else {
        var held := HeldsA(s.workers);
        assert forall u :: 0 <= u < |held| ==> held[u].Free?;
        NothingHeld(held, s.cursorA, s.doneA, PhaseA(g, s.job).Total(), (i: nat) => TaskDoneA(g, s, i));
        ChunksPositive(PhaseA(g, s.job));
        w :| 0 <= w < |s.workers| && Filling(s.workers[w].pc);
        assert WorkerInv(g, s, w);
      }
      MovesUnlessWaiting(g, s, w);
    } else {
      MovesUnlessWaiting(g, s, w);
    }
  }

  lemma MovesUnlessWaiting(g: Geometry, s: State, w: nat)
    requires w < |s.workers| == |s.acks| && WorkerInv(g, s, w)
    requires s.workers[w].pc == Waiting ==> s.workers[w].seen != s.epoch
    requires s.workers[w].pc == Barrier ==> s.gateB
    ensures WorkerStep(g, s, w) != s
  {
    var s' := WorkerStep(g, s, w);
    assert s'.workers[w] != s.workers[w];
  }

  // ---- and with no feed-forward width nobody gets through --------------------------------------------

  /**
   With `n_ff == 0` phase A has no task, so no worker ever finishes the last one and the gate stays
   shut: once such a job routes an expert, `sync` never returns, whatever the schedule.
   */
  lemma StuckStays(g: Geometry, s: State, a: Action)
    requires Inv(g, s) && s.main.Scanning? && !Completable(g, s.job)
    ensures var s' := Apply(g, s, a);
      s'.main.Scanning? && s'.job == s.job && s'.log == s.log && !s'.gateB
  {
    InvStep(g, s, a);
    assert PhaseA(g, s.job).Total() == 0 by { ChunksPositive(PhaseA(g, s.job)); }
    if a == Device && s.main.next >= |s.acks| {
      AllAcked(g, s);
    }
    if a.Run? && a.w < |s.workers| {
      assert WorkerInv(g, s, a.w);
      assert Apply(g, s, a).job == s.job;
    }
  }

  ghost function Continue(g: Geometry, s: State, more: seq<Action>): (s': State)
    requires |s.acks| == |s.workers|
    ensures |s'.acks| == |s'.workers| == |s.workers|
    decreases |more|
  {
    if more == [] then s else Continue(g, Apply(g, s, more[0]), more[1..])
  }

  lemma {:induction false} StuckForever(g: Geometry, s: State, more: seq<Action>)
    requires Inv(g, s) && s.main.Scanning? && !Completable(g, s.job)
    ensures Continue(g, s, more).main.Scanning? && Continue(g, s, more).log == s.log
    decreases |more|
  {
    if more != [] {
      StuckStays(g, s, more[0]);
      InvStep(g, s, more[0]);
      StuckForever(g, Apply(g, s, more[0]), more[1..]);
    }
  }

  lemma {:induction false} ContinueThen(g: Geometry, s: State, a: Action, more: seq<Action>)
    requires |s.acks| == |s.workers|
    ensures Continue(g, s, [a] + more) == Continue(g, Apply(g, s, a), more)
  {
    assert ([a] + more)[1..] == more;
  }

  /** A completable job in flight can always be brought to its end. */
  lemma {:induction false} CanFinish(g: Geometry, s: State) returns (more: seq<Action>)
    requires Inv(g, s) && s.main.Scanning? && Completable(g, s.job)
    ensures Continue(g, s, more).main == Idle && Continue(g, s, more).log == s.log
    decreases Measure(g, s), |s.acks| - s.main.next
  {
    hide Claims, ClaimsA, ClaimsB, GateInv, WorkerInv, TaskDoneB, PhaseA, WorkerStep, Measure;
    if exists v :: 0 <= v < |s.acks| && s.acks[v] != s.epoch {
      var w := SomebodyMoves(g, s);
      MeasureFalls(g, s, w);
      InvStep(g, s, Run(w));
      assert Apply(g, s, Run(w)).job == s.job by { assert WorkerInv(g, s, w); }
      more := CanFinish(g, Apply(g, s, Run(w)));
      ContinueThen(g, s, Run(w), more);
      more := [Run(w)] + more;
    } else {
      var s' := Apply(g, s, Device);
      InvStep(g, s, Device);
      if s.main.next < |s.acks| {
        PollingKeepsMeasure(g, s);
        more := CanFinish(g, s');
      } else {
        more := [];
      }
      ContinueThen(g, s, Device, more);
      more := [Device] + more;
    }
  }

  /**
   From any reachable state with a job in flight, some continuation lets `sync` return exactly when
   the job routes no expert or the feed-forward width is not zero.
   */
  lemma SyncCanReturnIff(g: Geometry, j0: Job, schedule: seq<Action>)
    requires g.Valid() && Reach(g, j0, schedule).main.Scanning?
    ensures (exists more :: Continue(g, Reach(g, j0, schedule), more).main == Idle)
       <==> Completable(g, Reach(g, j0, schedule).job)
  {
    var s := Reach(g, j0, schedule);
    InvReach(g, j0, schedule);
    if Completable(g, s.job) {
      var more := CanFinish(g, s);
      assert Continue(g, s, more).main == Idle;
    } else {
      forall more ensures Continue(g, s, more).main != Idle {
        StuckForever(g, s, more);
      }
    }
  }

  lemma ReachNext(g: Geometry, j0: Job, schedule: seq<Action>, a: Action)
    ensures Reach(g, j0, schedule + [a]) == Apply(g, Reach(g, j0, schedule), a)
  {
    assert (schedule + [a])[..|schedule|] == schedule;
  }

  /** From the start, submitting a job and letting the device thread finish `submit` puts it in flight. */
  lemma SubmitPutsInFlight(g: Geometry, j0: Job, j: Job) returns (schedule: seq<Action>)
    requires g.Valid() && Acceptable(g, j)
    ensures Reach(g, j0, schedule).main.Scanning? && Reach(g, j0, schedule).job == j
  {
    hide Init;
    schedule := [Submit(j)];
    InitIsIdle(g, j0);
    ReachNext(g, j0, [], Submit(j));
    assert [] + [Submit(j)] == schedule;
    for k := 0 to 5
      invariant Reach(g, j0, schedule).main == Storing(k) && Reach(g, j0, schedule).job == j
    {
      ReachNext(g, j0, schedule, Device);
      schedule := schedule + [Device];
    }
    ReachNext(g, j0, schedule, Device);
    schedule := schedule + [Device];
  }

  lemma InitIsIdle(g: Geometry, j0: Job)
    ensures Reach(g, j0, []) == Init(g, j0) && Init(g, j0).main == Idle
  {
  }

  /**
   A pool of one thread over an embedding of 256, which is whole blocks in every format, and a feed-forward
   width of zero: asked for one expert, its `sync` never returns.
   */
  lemma StuckReached(j0: Job) returns (g: Geometry, schedule: seq<Action>)
    ensures g.Valid() && g.nFf == 0 && Reach(g, j0, schedule).main.Scanning?
    ensures forall more :: Continue(g, Reach(g, j0, schedule), more).main.Scanning?
  {
    g := Geometry(1, 1, 256, 0);
    var j := Job(1, (e, r) => 0.0, (e, r, a, x) => 0.0, [1.0]);
    schedule := SubmitPutsInFlight(g, j0, j);
    InvReach(g, j0, schedule);
    forall more ensures Continue(g, Reach(g, j0, schedule), more).main.Scanning? {
      StuckForever(g, Reach(g, j0, schedule), more);
    }
  }
}
