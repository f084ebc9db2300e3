/** What the host executor's protocol guarantees over every schedule. */
module HostTheorems {
  import opened Sums
  import opened Tasks
  import opened HostProtocol
  import opened HostSafety

  // ---- the device thread's steps ---------------------------------------------------------------

  lemma QuietCounts(s: State)
    requires Quiet(s)
    ensures Count(HeldsA(s.workers)) == 0 && Count(HeldsB(s.workers)) == 0
  {
    CountZero(HeldsA(s.workers));
    CountZero(HeldsB(s.workers));
  }

  lemma StepStores(g: Geometry, s: State)
    requires Inv(g, s) && s.main.Storing?
    ensures Inv(g, DeviceStep(g, s))
  {
    if s.main.k == 5 {
      StepBumps(g, s);
    }
  }

  /** Bumping the epoch hands a quiet pool a job nobody has started. */
  lemma StepBumps(g: Geometry, s: State)
    requires Shape(g, s) && Quiet(s) && Stored(g, s, 5) && s.main == Storing(5)
    ensures Inv(g, DeviceStep(g, s))
  {
    hide PcInv, HeldsB, PhaseA, PhaseB, GroupSumAt, OutRow, CeilDiv;
    var s' := DeviceStep(g, s);
    QuietCounts(s);
    assert HeldsA(s'.workers) == HeldsA(s.workers) && HeldsB(s'.workers) == HeldsB(s.workers);
    CountZero(HeldsA(s.workers));
    CountZero(HeldsB(s.workers));
    assert ClaimsA(g, s') && ClaimsB(g, s') && GateInv(g, s');
    forall w | 0 <= w < |s'.workers| ensures WorkerInv(g, s', w) {
      assert s'.workers[w] == Worker(s.epoch, Waiting);
    }
    assert Ticket(g, s');
  }

  /** When every worker has acknowledged the epoch, phase B is complete. */
  lemma AllAcked(g: Geometry, s: State)
    requires InvOf(g, s) && (forall w :: 0 <= w < |s.acks| ==> s.acks[w] == s.epoch)
    ensures Quiet(s) && Finished(g, s)
    ensures s.job.nExperts > 0 ==> AllB(g, s)
  {
    forall w | 0 <= w < |s.workers| ensures s.workers[w] == Worker(s.epoch, Waiting) && Finished(g, s) {
      assert WorkerInv(g, s, w);
    }
    if s.job.nExperts > 0 {
      assert WorkerInv(g, s, 0);
      NothingHeld(HeldsB(s.workers), s.cursorB, s.doneB, PhaseB(g, s.job).Total(), (i: nat) => TaskDoneB(g, s, i));
      PhaseBComplete(g, s);
    }
  }

  lemma {:induction false} CombineIsWeighted(g: Geometry, s: State, d: nat, n: nat)
    requires Shape(g, s) && (s.job.nExperts > 0 ==> AllB(g, s)) && d < g.nEmbd
    requires n <= s.job.nExperts == |s.job.weights|
    ensures CombineAt(g, s.out, s.job.weights, d, n) == WeightedSum(g, s.job, d, n)
  {
    if n > 0 {
      CombineIsWeighted(g, s, d, n - 1);
      assert RowB(g, s, n - 1, d);
    }
  }

  /** Looking at one more acknowledgement, or starting over. */
  lemma StepLooks(g: Geometry, s: State)
    requires InvOf(g, s) && s.main.next < |s.acks|
    ensures Inv(g, DeviceStep(g, s))
  {
    hide Claims, Stored;
    var s' := DeviceStep(g, s);
    OthersKept(g, s, s', |s.workers|);
    PhasesKept(g, s, s');
    assert WorkerInv(g, s, s.main.next);
    assert Ticket(g, s');
  }

  lemma CombineIsExpected(g: Geometry, s: State)
    requires Shape(g, s) && (s.job.nExperts > 0 ==> AllB(g, s)) && s.job.nExperts == |s.job.weights|
    ensures Combine(g, s.out, s.job.weights, s.job.nExperts) == Expected(g, s.job)
  {
    var got := Combine(g, s.out, s.job.weights, s.job.nExperts);
    forall d: nat | d < g.nEmbd ensures got[d] == Expected(g, s.job)[d] {
      CombineIsWeighted(g, s, d, s.job.nExperts);
    }
  }

  lemma StepScans(g: Geometry, s: State)
    requires InvOf(g, s)
    ensures Inv(g, DeviceStep(g, s))
  {
    if s.main.next < |s.acks| {
      StepLooks(g, s);
    } else {
      AllAcked(g, s);
      CombineIsExpected(g, s);
    }
  }

  lemma StepWorks(g: Geometry, s: State, w: nat)
    requires Inv(g, s) && w < |s.workers|
    ensures Inv(g, WorkerStep(g, s, w))
  {
    if s.main.Scanning? {
      assert WorkerInv(g, s, w);
      match s.workers[w].pc
      case Waiting => if s.workers[w].seen != s.epoch { StepWakes(g, s, w); }
      case Enter => StepEnters(g, s, w);
      case ClaimA => StepClaimsA(g, s, w);
      case RunA(i, r) => StepRowsA(g, s, w, i, r);
      case CountA(i) => StepCountsA(g, s, w, i);
      case FillXsum(k) => StepFills(g, s, w, k);
      case OpenGate => StepOpens(g, s, w);
      case Barrier => if s.gateB { StepCrosses(g, s, w); }
      case ClaimB => StepClaimsB(g, s, w);
      case RunB(i, r) => StepRowsB(g, s, w, i, r);
      case CountB(i) => StepCountsB(g, s, w, i);
      case Acking => StepAcks(g, s, w);
    } else {
      assert s.workers[w] == Worker(s.epoch, Waiting);
    }
  }

  /** The invariant is inductive. */
  lemma InvStep(g: Geometry, s: State, a: Action)
    requires Inv(g, s)
    ensures Inv(g, Apply(g, s, a))
  {
    match a
    case Submit(j) =>
    case Refuse(j) =>
    case Device =>
      if s.main.Storing? {
        StepStores(g, s);
      } else if s.main.Scanning? {
        StepScans(g, s);
      }
    case Run(w) => if w < |s.workers| { StepWorks(g, s, w); }
  }

  lemma {:induction false} InvReach(g: Geometry, j0: Job, schedule: seq<Action>)
    requires g.Valid()
    ensures Inv(g, Reach(g, j0, schedule))
  {
    if schedule != [] {
      var n := |schedule| - 1;
      InvReach(g, j0, schedule[..n]);
      InvStep(g, Reach(g, j0, schedule[..n]), schedule[n]);
    }
  }

  // ---- schedule independence -------------------------------------------------------------------

  /**
   However the workers are interleaved, the i-th `sync` to return has written the router-order
   weighted sum of what each routed expert of the i-th submitted job computes on its own.
   */
  lemma ScheduleIndependence(g: Geometry, j0: Job, schedule: seq<Action>)
    requires g.Valid()
    ensures var s := Reach(g, j0, schedule);
      && |s.returned| == (if s.main.Scanning? then |s.log| - 1 else |s.log|)
      && forall i :: 0 <= i < |s.returned| ==>
           |s.log[i].weights| == s.log[i].nExperts && s.returned[i] == Expected(g, s.log[i])
  {
    InvReach(g, j0, schedule);
    var s := Reach(g, j0, schedule);
    assert forall i :: 0 <= i < |s.log| ==> Acceptable(g, s.log[i]);
  }

  /** When `sync` stops waiting, every routed expert's slice of `out` is that expert's own output. */
  lemma OutAtReturn(g: Geometry, j0: Job, schedule: seq<Action>, e: nat, r: nat)
    requires g.Valid()
    requires var s := Reach(g, j0, schedule);
      s.log != [] && s.main.Scanning? && s.main.next == |s.acks| && e < s.log[|s.log| - 1].nExperts && r < g.nEmbd
    ensures var s := Reach(g, j0, schedule);
      e * g.nEmbd + r < |s.out| && s.out[e * g.nEmbd + r] == OutRow(g, s.log[|s.log| - 1], e, r)
  {
    InvReach(g, j0, schedule);
    var s := Reach(g, j0, schedule);
    AllAcked(g, s);
    assert RowB(g, s, e, r);
  }

  // ---- the handshake ---------------------------------------------------------------------------

  /**
   A worker inside `run_job` reads exactly the job of the epoch it woke for, only while `sync` is
   pending for that epoch; so while the device thread is idle or storing a job, nobody is inside one.
   */
  lemma HandshakeIsolation(g: Geometry, j0: Job, schedule: seq<Action>, w: nat)
    requires g.Valid() && w < g.threads
    ensures var s := Reach(g, j0, schedule);
      && (s.workers[w].pc != Waiting ==>
            s.main.Scanning? && 0 < s.workers[w].seen == s.epoch == |s.log| && s.job == s.log[s.workers[w].seen - 1])
      && (!s.main.Scanning? ==> s.workers[w] == Worker(s.epoch, Waiting) && s.acks[w] == s.epoch)
  {
    InvReach(g, j0, schedule);
    var s := Reach(g, j0, schedule);
    if s.main.Scanning? {
      assert WorkerInv(g, s, w);
    }
  }

  /** Seeing a new epoch and acknowledging it are single steps of one. */
  ghost predicate OneEpochAtATime(s: State, s': State, a: Action, w: nat)
    requires w < |s.workers| == |s.acks| == |s'.workers| == |s'.acks|
  {
    && s'.workers[w].seen <= s'.epoch
    && (s'.workers[w].seen == s.workers[w].seen ||
        (a == Run(w) && s'.workers[w].seen == s.workers[w].seen + 1 && s'.workers[w].pc == Enter))
    && (s'.acks[w] == s.acks[w] || (s'.acks[w] == s.acks[w] + 1 == s.workers[w].seen))
  }

  /** What a worker has seen and acknowledged, relative to the current epoch. */
  ghost predicate Epochs(s: State, w: nat)
    requires w < |s.workers| == |s.acks|
  {
    && s.workers[w].seen <= s.epoch
    && (s.workers[w].pc.Waiting? ==> s.workers[w].seen == s.epoch || s.workers[w].seen + 1 == s.epoch)
    && (s.workers[w].pc.Acking? ==> s.workers[w].seen == s.acks[w] + 1)
  }

  lemma InvEpochs(g: Geometry, s: State, w: nat)
    requires Inv(g, s) && w < |s.workers|
    ensures Epochs(s, w)
  {
    if s.main.Scanning? {
      assert WorkerInv(g, s, w);
    }
  }

  lemma EpochStep(g: Geometry, s: State, a: Action, w: nat)
    requires w < |s.workers| == |s.acks| && Epochs(s, w)
    ensures OneEpochAtATime(s, Apply(g, s, a), a, w)
  {
    if a.Run? && a.w < |s.workers| {
      var s' := WorkerStep(g, s, a.w);
      assert s'.epoch == s.epoch;
      if a.w != w {
        assert s'.workers[w] == s.workers[w] && s'.acks[w] == s.acks[w];
      }
    }
  }

  /** No worker ever skips an epoch: each step leaves what it has seen alone or moves it on by one. */
  lemma NoEpochSkipped(g: Geometry, j0: Job, schedule: seq<Action>, a: Action, w: nat)
    requires g.Valid() && w < g.threads
    ensures OneEpochAtATime(Reach(g, j0, schedule), Apply(g, Reach(g, j0, schedule), a), a, w)
  {
    InvReach(g, j0, schedule);
    InvEpochs(g, Reach(g, j0, schedule), w);
    EpochStep(g, Reach(g, j0, schedule), a, w);
  }

  // ---- the barrier -----------------------------------------------------------------------------

  predicate PhaseBPc(pc: Pc) { pc.ClaimB? || pc.RunB? || pc.CountB? }

  predicate PhaseAPc(pc: Pc) { pc.RunA? || pc.CountA? || Filling(pc) }

  /**
   No worker is in phase B before every row of `act` and every entry of `xsum_act` holds its final
   value, and then no worker is still running, counting or filling phase A.
   */
  lemma BarrierSafety(g: Geometry, j0: Job, schedule: seq<Action>, w: nat)
    requires g.Valid() && w < g.threads
    requires PhaseBPc(Reach(g, j0, schedule).workers[w].pc)
    ensures var s := Reach(g, j0, schedule);
      && AllA(g, s) && AllSlots(g, s)
      && forall v :: 0 <= v < |s.workers| ==> !PhaseAPc(s.workers[v].pc)
  {
    hide Shape, Claims, ClaimsB, Ticket;
    InvReach(g, j0, schedule);
    var s := Reach(g, j0, schedule);
    if s.main.Scanning? {
      assert WorkerInv(g, s, w);
      PhaseAComplete(g, s);
      AllCounted(HeldsA(s.workers), s.cursorA, s.doneA, PhaseA(g, s.job).Total(), (i: nat) => TaskDoneA(g, s, i));
      forall v | 0 <= v < |s.workers| ensures !PhaseAPc(s.workers[v].pc) {
        assert WorkerInv(g, s, v);
        assert HeldsA(s.workers)[v].Free?;
      }
    }
  }

  /** How many times a schedule has opened the gate. */
  ghost function Opens(g: Geometry, j0: Job, schedule: seq<Action>): nat {
    if schedule == [] then 0
    else
      var n := |schedule| - 1;
      var s, a := Reach(g, j0, schedule[..n]), schedule[n];
      Opens(g, j0, schedule[..n]) +
      (if a.Run? && a.w < |s.workers| && s.workers[a.w].pc == OpenGate then 1 else 0)
  }

  ghost function NonEmpty(log: seq<Job>): nat {
    if log == [] then 0 else NonEmpty(log[..|log| - 1]) + (if log[|log| - 1].nExperts > 0 then 1 else 0)
  }

  ghost function OpensSoFar(s: State): nat {
    if s.main.Scanning? && s.log != [] then NonEmpty(s.log[..|s.log| - 1]) + (if s.gateB then 1 else 0)
    else NonEmpty(s.log)
  }

  /** `gate_b` is opened exactly once for every job that routes an expert, and never otherwise. */
  lemma {:induction false} GateOpenedOncePerJob(g: Geometry, j0: Job, schedule: seq<Action>)
    requires g.Valid()
    ensures Opens(g, j0, schedule) == OpensSoFar(Reach(g, j0, schedule))
  {
    if schedule != [] {
      var n := |schedule| - 1;
      var s, a := Reach(g, j0, schedule[..n]), schedule[n];
      GateOpenedOncePerJob(g, j0, schedule[..n]);
      InvReach(g, j0, schedule[..n]);
      OpensStep(g, s, a);
    }
  }

  lemma OpensStep(g: Geometry, s: State, a: Action)
    requires Inv(g, s)
    ensures OpensSoFar(Apply(g, s, a)) == OpensSoFar(s) +
      (if a.Run? && a.w < |s.workers| && s.workers[a.w].pc == OpenGate then 1 else 0)
  {
    if a == Device {
      OpensDevice(g, s);
    } else if a.Run? && a.w < |s.workers| {
      if s.main.Scanning? {
        assert WorkerInv(g, s, a.w);
      }
      OpensWorker(g, s, a.w);
    }
  }

  lemma OpensDevice(g: Geometry, s: State)
    requires Inv(g, s)
    ensures OpensSoFar(DeviceStep(g, s)) == OpensSoFar(s)
  {
    hide Shape, Claims, ClaimsB, RowA;
    var s' := DeviceStep(g, s);
    if s.main == Storing(5) {
      assert s'.log[..|s'.log| - 1] == s.log;
    } else if s.main.Scanning? && s.main.next >= |s.acks| {
      AllAcked(g, s);
      ChunksPositive(PhaseA(g, s.job));
    }
  }

  lemma OpensWorker(g: Geometry, s: State, w: nat)
    requires w < |s.workers| == |s.acks|
    requires s.workers[w].pc == OpenGate ==> s.main.Scanning? && s.log != [] && !s.gateB
    ensures OpensSoFar(WorkerStep(g, s, w)) == OpensSoFar(s) + (if s.workers[w].pc == OpenGate then 1 else 0)
  {
    assert s.workers[w].pc != OpenGate ==> WorkerStep(g, s, w).gateB == s.gateB;
  }

  // ---- the scratch buffers ----------------------------------------------------------------------

  datatype Buffer = Act | Out | Xsum

  /** The elements a worker at `pc` holds a mutable borrow of: its whole task, not just one row. */
  ghost predicate Borrows(g: Geometry, s: State, pc: Pc, b: Buffer, i: nat) {
    match pc
    case RunA(t, _) =>
      var a := PhaseA(g, s.job);
      b == Act && t < a.Total() && a.Expert(t) * g.nFf + a.Lo(t) <= i < a.Expert(t) * g.nFf + a.Hi(t)
    case FillXsum(_) => b == Xsum && i < Slots(g, s.job)
    case RunB(t, _) =>
      var p := PhaseB(g, s.job);
      b == Out && t < p.Total() && p.Expert(t) * g.nEmbd + p.Lo(t) <= i < p.Expert(t) * g.nEmbd + p.Hi(t)
    case _ => false
  }

  /** The elements a worker at `pc` holds a shared borrow of. */
  ghost predicate Reads(g: Geometry, s: State, pc: Pc, b: Buffer, i: nat) {
    match pc
    case FillXsum(_) => b == Act && i < s.job.nExperts * g.nFf
    case RunB(t, _) =>
      var p := PhaseB(g, s.job);
      && t < p.Total()
      && (|| (b == Act && p.Expert(t) * g.nFf <= i < p.Expert(t) * g.nFf + g.nFf)
          || (b == Xsum && p.Expert(t) * PerXsum(g) <= i < p.Expert(t) * PerXsum(g) + PerXsum(g)))
    case _ => false
  }

  function Length(s: State, b: Buffer): nat {
    match b
    case Act => |s.act|
    case Out => |s.out|
    case Xsum => |s.xsum|
  }

  /** Two workers' mutable borrows never overlap, nor does one overlap another's shared borrow. */
  lemma NoRace(g: Geometry, j0: Job, schedule: seq<Action>, v: nat, w: nat, b: Buffer, i: nat)
    requires g.Valid() && v < g.threads && w < g.threads && v != w
    requires Borrows(g, Reach(g, j0, schedule), Reach(g, j0, schedule).workers[v].pc, b, i)
    ensures !Borrows(g, Reach(g, j0, schedule), Reach(g, j0, schedule).workers[w].pc, b, i)
    ensures !Reads(g, Reach(g, j0, schedule), Reach(g, j0, schedule).workers[w].pc, b, i)
  {
    hide Shape, Ticket, RowsA, OutRow;
    InvReach(g, j0, schedule);
    var s := Reach(g, j0, schedule);
    if s.main.Scanning? {
      assert WorkerInv(g, s, v) && WorkerInv(g, s, w);
      var pv, pw := s.workers[v].pc, s.workers[w].pc;
      var hA, hB := HeldsA(s.workers), HeldsB(s.workers);
      assert hA[v].Holds? ==> hA[v] != hA[w];
      assert hB[v].Holds? ==> hB[v] != hB[w];
      if pv.RunA? {
        HolderKeepsPhaseOpen(hA, v, s.cursorA, s.doneA, PhaseA(g, s.job).Total(), (t: nat) => TaskDoneA(g, s, t));
        if pw.RunA? {
          RangesApart(PhaseA(g, s.job), g.nFf, pv.task, pw.task, i);
        }
      } else if pv.RunB? && pw.RunB? {
        RangesApart(PhaseB(g, s.job), g.nEmbd, pv.task, pw.task, i);
      }
    }
  }

  /** The device thread is free to write the job, the weights and the cursors: `sync` is not pending. */
  predicate DeviceWrites(s: State) { !s.main.Scanning? }

  /** The device thread has seen every acknowledgement and reads `out`. */
  predicate DeviceCombines(s: State) { s.main.Scanning? && s.main.next >= |s.acks| }

  /** While the device thread writes the job or combines `out`, no worker holds a borrow of anything, nor reads the job. */
  lemma NoRaceWithDevice(g: Geometry, j0: Job, schedule: seq<Action>, w: nat, b: Buffer, i: nat)
    requires g.Valid() && w < g.threads
    requires DeviceWrites(Reach(g, j0, schedule)) || DeviceCombines(Reach(g, j0, schedule))
    ensures var s := Reach(g, j0, schedule);
      s.workers[w].pc == Waiting && !Borrows(g, s, s.workers[w].pc, b, i) && !Reads(g, s, s.workers[w].pc, b, i)
  {
    InvReach(g, j0, schedule);
    var s := Reach(g, j0, schedule);
    hide Shape, Claims, ClaimsA, ClaimsB, GateInv;
    if s.main.Scanning? {
      assert WorkerInv(g, s, w);
    }
  }

  lemma RangesApart(p: Phase, n: nat, t1: nat, t2: nat, i: nat)
    requires p.Valid() && p.rows <= n && t1 < p.Total() && t2 < p.Total() && t1 != t2
    requires p.Expert(t1) * n + p.Lo(t1) <= i < p.Expert(t1) * n + p.Hi(t1)
    ensures !(p.Expert(t2) * n + p.Lo(t2) <= i < p.Expert(t2) * n + p.Hi(t2))
  {
    TaskBounds(p, t1);
    TaskBounds(p, t2);
    var r1, r2 := i - p.Expert(t1) * n, i - p.Expert(t2) * n;
    if p.Lo(t2) <= r2 < p.Hi(t2) {
      FlatInjective(n, p.Expert(t1), r1, p.Expert(t2), r2);
      TasksDisjoint(p, t1, t2, p.Expert(t1), r1);
    }
  }

  /** No borrow, mutable or shared, reaches past the end of its buffer. */
  lemma InBounds(g: Geometry, j0: Job, schedule: seq<Action>, w: nat, b: Buffer, i: nat)
    requires g.Valid() && w < g.threads
    requires var s := Reach(g, j0, schedule); Borrows(g, s, s.workers[w].pc, b, i) || Reads(g, s, s.workers[w].pc, b, i)
    ensures i < Length(Reach(g, j0, schedule), b)
  {
    InvReach(g, j0, schedule);
    var s := Reach(g, j0, schedule);
    if s.main.Scanning? {
      assert WorkerInv(g, s, w);
      MulLe(g.nFf, s.job.nExperts, g.cap);
      MulLe(PerXsum(g), s.job.nExperts, g.cap);
      match s.workers[w].pc
      case RunA(t, _) =>
        TaskBounds(PhaseA(g, s.job), t);
        FlatBound(g.cap, g.nFf, PhaseA(g, s.job).Expert(t), i - PhaseA(g, s.job).Expert(t) * g.nFf);
      case RunB(t, _) =>
        var e := PhaseB(g, s.job).Expert(t);
        TaskBounds(PhaseB(g, s.job), t);
        if b == Out {
          FlatBound(g.cap, g.nEmbd, e, i - e * g.nEmbd);
        } else if b == Act {
          FlatBound(g.cap, g.nFf, e, i - e * g.nFf);
        } else {
          FlatBound(g.cap, PerXsum(g), e, i - e * PerXsum(g));
        }
      case _ =>
    }
  }
}
